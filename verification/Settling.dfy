/** When a server and its clients come to rest: the results of ComingToRest for replicas and octets.
    A dirty map may also hold a parameter for its parent alone; the results are about the seven
    fields, so no move of the parent is pending. */
module Settling {
  import opened Bytes
  import opened Streams
  import opened Options
  import opened TypeDefinitions
  import opened Forest
  import opened Parameters
  import opened ParameterDelta
  import opened Synchronisation
  import opened Network
  import ComingToRest
  import Convergence

  type Step = Network.Step

  // ---------------------------------------------------------------- no parent pending

  ghost predicate Settled(r: Replica) { !r.p.parent.changed && (r.dirty ==> exists f :: Of(r.p, f).changed) }

  // Whoever hears it hears of no parent.
  ghost predicate MovesNobody(bytes: Text) {
    forall groups :: Brings(groups, bytes).Some? ==> !Brings(groups, bytes).value.parent.has
  }

  ghost predicate AllMoveNobody(c: seq<Text>) { forall j :: 0 <= j < |c| ==> MovesNobody(c[j]) }

  ghost predicate SettledNet(n: Net) {
    && Settled(n.server) && (forall i :: 0 <= i < |n.clients| ==> Settled(n.clients[i]))
    && (forall i :: 0 <= i < |n.down| ==> AllMoveNobody(n.down[i]))
       && (forall i :: 0 <= i < |n.up| ==> AllMoveNobody(n.up[i]))
  }

  lemma SetStaysSettled(r: Replica, f: Field, d: Datum)
    requires Kinded(r.p.td, f, d) && Settled(r)
    ensures Settled(Set(r, f, d))
  {
    hide Of;
    var q := WithField(r.p, f, d);
    assert q.parent == r.p.parent;
    forall g
      ensures Of(q, g) == if g == f then Assign(Of(r.p, g), d) else Of(r.p, g)
    {
      FieldIsSet(r.p, f, d, g);
    }
    if g :| Of(r.p, g).changed {
      assert Of(q, g).changed;
    }
  }

  lemma MessageMovesNobody(p: Param, id: Id, td: TypeDef)
    requires Proper(p, id, td) && !p.parent.changed
    ensures MovesNobody(Message(p))
  {
    hide Brings, Message, Heard;
    forall groups
      ensures Brings(groups, Message(p)) == Some(Heard(p, groups)) && !Heard(p, groups).parent.has
    {
      MessageArrives(p, id, td, groups);
      NoParentHeard(p, groups);
    }
  }

  lemma NoParentHeard(p: Param, groups: set<Id>)
    requires !p.parent.changed
    ensures !Heard(p, groups).parent.has
  {
  }

  lemma HearStaysSettled(r: Replica, bytes: Text, id: Id, td: TypeDef)
    requires Good(r, id, td) && WellSent(bytes, id, td) && MovesNobody(bytes) && Settled(r)
    ensures Settled(Hear(r, bytes))
  {
    hide Brings, Message, Heard, Of;
    var p :| Proper(p, id, td) && bytes == Message(p);
    var h := Heard(p, r.groups);
    MessageArrives(p, id, td, r.groups);
    HeardIsProper(p, id, td, r.groups);
    HearingKeepsGood(r, p, id, td);
    var q := Updated(r.p, h);
    MoveIsUnseen(q, h.parent, id, td);
    FieldsStaySendable(r.p, h, id, td);
    assert q.parent == r.p.parent && Applied(r.p, h) == q;
    forall f
      ensures Of(r.p, f).changed ==> Of(q, f).changed
      ensures Of(q, f).value != Of(r.p, f).value ==> Of(q, f).changed
    {
      HeardFieldOf(r, p, id, td, f);
      SetterOnlyMeans(r.p, f);
      SetterOnlyMeans(q, f);
    }
  }

  lemma EmptiedIsSettled(r: Replica)
    ensures Settled(Emptied(r))
  {
    hide FlushedType, TypeChanged;
  }

  lemma PushMovesNobody(c: seq<Text>, bytes: Text)
    requires AllMoveNobody(c) && MovesNobody(bytes)
    ensures AllMoveNobody(c + [bytes])
  {
    hide MovesNobody;
  }

  lemma PopMovesNobody(c: seq<Text>)
    requires c != [] && AllMoveNobody(c)
    ensures MovesNobody(c[0]) && AllMoveNobody(c[1..])
  {
    hide MovesNobody;
  }

  lemma SentToAllMovesNobody(cs: seq<seq<Text>>, bytes: Text, except: int)
    requires MovesNobody(bytes) && forall i :: 0 <= i < |cs| ==> AllMoveNobody(cs[i])
    ensures var r := Convergence.SendToAll(cs, bytes, except); forall i :: 0 <= i < |r| ==> AllMoveNobody(r[i])
  {
    hide AllMoveNobody, MovesNobody;
    forall i | 0 <= i < |cs|
      ensures AllMoveNobody(cs[i] + [bytes])
    {
      PushMovesNobody(cs[i], bytes);
    }
  }

  lemma StepKeepsSettled(n: Net, step: Step, id: Id, td: TypeDef)
    requires GoodNet(n, id, td) && SettledNet(n) && CanStep(n, step)
    ensures SettledNet(After(n, step))
  {
    hide Settled, AllMoveNobody, MovesNobody, Set, Hear, Emptied, Message, Brings, AllWellSent, Good, Kinded;
    match step
    case ServerSet(f, d) => SetStaysSettled(n.server, f, d);
    case ClientSet(i, f, d) => SetStaysSettled(n.clients[i], f, d);
    case ServerFlush =>
      ParentUnflagged(n.server, id, td);
      EmptiedIsSettled(n.server);
      SentToAllMovesNobody(n.down, Message(n.server.p), -1);
    case ClientFlush(i) =>
      ParentUnflagged(n.clients[i], id, td);
      EmptiedIsSettled(n.clients[i]);
      PushMovesNobody(n.up[i], Message(n.clients[i].p));
    case ServerReceive(i) =>
      PoppedIsWellSent(n.up[i], id, td);
      PopMovesNobody(n.up[i]);
      HearStaysSettled(n.server, n.up[i][0], id, td);
      SentToAllMovesNobody(n.down, n.up[i][0], i);
    case ClientReceive(i) =>
      PoppedIsWellSent(n.down[i], id, td);
      PopMovesNobody(n.down[i]);
      HearStaysSettled(n.clients[i], n.down[i][0], id, td);
  }

  lemma ParentUnflagged(r: Replica, id: Id, td: TypeDef)
    requires Good(r, id, td) && Settled(r)
    ensures MovesNobody(Message(r.p))
  {
    MessageMovesNobody(r.p, id, td);
  }

  // ---------------------------------------------------------------- the same steps

  lemma DirtyIffFlagged(r: Replica, id: Id, td: TypeDef)
    requires Good(r, id, td) && Settled(r)
    ensures r.dirty <==> View(r.p).pending != {}
  {
    hide Of, Effective, Proper;
    if f :| Of(r.p, f).changed {
      assert f in View(r.p).pending;
    }
    if f :| f in View(r.p).pending {
      assert Of(r.p, f).changed;
    }
  }

  // Without a set, the replicas can take a step exactly when the abstract protocol can.
  lemma SameStepsToTake(n: Net, step: Step, id: Id, td: TypeDef)
    requires GoodNet(n, id, td) && SettledNet(n) && !Convergence.IsSet(step)
    ensures CanStep(n, step) <==> ComingToRest.Unprompted(Abstract(n), step)
  {
    hide View, Settled, Good, AllWellSent, AllMoveNobody, Meaning, Kinded;
    DirtyIffFlagged(n.server, id, td);
    forall i | 0 <= i < |n.clients|
      ensures n.clients[i].dirty <==> View(n.clients[i].p).pending != {}
    {
      DirtyIffFlagged(n.clients[i], id, td);
    }
  }

  // Steps that the network can take one after the other, none of them a set.
  ghost predicate RunsOn(n: Net, steps: seq<Step>)
    decreases |steps|
  {
    steps != [] ==> !Convergence.IsSet(steps[0]) && CanStep(n, steps[0]) && RunsOn(After(n, steps[0]), steps[1..])
  }

  ghost function EndsAs(n: Net, steps: seq<Step>): (r: Net)
    requires RunsOn(n, steps)
    decreases |steps|
  {
    if steps == [] then n else EndsAs(After(n, steps[0]), steps[1..])
  }

  lemma SameClients(n: Net, step: Step)
    requires CanStep(n, step)
    ensures |After(n, step).clients| == |n.clients|
  {
  }

  lemma {:induction false} SameRuns(n: Net, steps: seq<Step>, id: Id, td: TypeDef)
    requires GoodNet(n, id, td) && SettledNet(n)
    ensures RunsOn(n, steps) <==> ComingToRest.Follows(Abstract(n), steps)
    ensures RunsOn(n, steps) ==>
      var end := EndsAs(n, steps);
      GoodNet(end, id, td) && SettledNet(end) && Abstract(end) == ComingToRest.End(Abstract(n), steps)
      && |end.clients| == |n.clients|
    decreases |steps|
  {
    hide Abstract, CanStep, SettledNet, After, Convergence.Next, Convergence.Shaped;
    AbstractIsShaped(n);
    if steps != [] {
      if !Convergence.IsSet(steps[0]) {
        SameStepsToTake(n, steps[0], id, td);
        if CanStep(n, steps[0]) {
          SameClients(n, steps[0]);
          StepRefines(n, steps[0], id, td);
          StepKeepsSettled(n, steps[0], id, td);
          SameRuns(After(n, steps[0]), steps[1..], id, td);
        }
      }
    }
  }

  // ---------------------------------------------------------------- exactly when it stops

  ghost predicate NothingUnderWay(n: Net) {
    (forall i :: 0 <= i < |n.down| ==> n.down[i] == []) && (forall i :: 0 <= i < |n.up| ==> n.up[i] == [])
  }

  // Both have the field to send, with different values.
  ghost predicate Rivals(p: Param, q: Param, f: Field) {
    Of(p, f).changed && Of(q, f).changed && Effective(p, f) != Effective(q, f)
  }

  ghost predicate Unrivalled(n: Net) {
    && (forall i, f :: 0 <= i < |n.clients| ==> !Rivals(n.server.p, n.clients[i].p, f))
    && (forall i, j, f :: 0 <= i < |n.clients| && 0 <= j < |n.clients| ==> !Rivals(n.clients[i].p, n.clients[j].p, f))
  }

  ghost predicate StopsWithin(n: Net, most: nat) { forall steps :: RunsOn(n, steps) ==> |steps| <= most }

  lemma SameRivals(p: Param, q: Param, f: Field)
    ensures View(p).pending <= View(p).values.Keys && View(q).pending <= View(q).values.Keys
    ensures Rivals(p, q, f) <==> ComingToRest.Rivals(View(p), View(q), f)
  {
    hide View, Of, Effective;
    ViewAt(p, f);
    ViewAt(q, f);
    ViewIsFull(p);
    ViewIsFull(q);
  }

  lemma SameUnrivalled(n: Net)
    requires Convergence.Shaped(Abstract(n))
    ensures Unrivalled(n) <==> ComingToRest.Unrivalled(Abstract(n))
  {
    hide Rivals, ComingToRest.Rivals, View, AllMeanings;
    var s := Abstract(n);
    forall i, f | 0 <= i < |n.clients|
      ensures Rivals(n.server.p, n.clients[i].p, f) <==> ComingToRest.Rivals(s.server, s.clients[i], f)
    {
      SameRivals(n.server.p, n.clients[i].p, f);
    }
    forall i, j, f | 0 <= i < |n.clients| && 0 <= j < |n.clients|
      ensures Rivals(n.clients[i].p, n.clients[j].p, f) <==> ComingToRest.Rivals(s.clients[i], s.clients[j], f)
    {
      SameRivals(n.clients[i].p, n.clients[j].p, f);
    }
  }

  // With empty channels and no parent to move, a server and its clients left to themselves stop
  // after a bounded number of steps, in any order, if and only if no two of them have different
  // values of a field to send.
  lemma StopsIffUnrivalled(n: Net, id: Id, td: TypeDef)
    requires GoodNet(n, id, td) && SettledNet(n) && NothingUnderWay(n)
    ensures (exists most: nat :: StopsWithin(n, most)) <==> Unrivalled(n)
  {
    var s := Abstract(n);
    assert ComingToRest.NothingUnderWay(s);
    AbstractIsShaped(n);
    forall steps
      ensures RunsOn(n, steps) <==> ComingToRest.Follows(s, steps)
    {
      SameRuns(n, steps, id, td);
    }
    SameBounds(n, s);
    SameUnrivalled(n);
    ComingToRest.StopsIffUnrivalled(s);
  }

  lemma SameBounds(n: Net, s: Convergence.System<Field, Datum>)
    requires forall steps :: RunsOn(n, steps) <==> ComingToRest.Follows(s, steps)
    ensures forall most: nat :: StopsWithin(n, most) <==> ComingToRest.StopsWithin(s, most)
  {
    hide RunsOn, ComingToRest.Follows;
  }

  // ---------------------------------------------------------------- a lone set

  lemma QuietIffQuiescent(n: Net, id: Id, td: TypeDef)
    requires GoodNet(n, id, td) && SettledNet(n)
    ensures Quiet(n) <==> Convergence.Quiescent(Abstract(n))
    ensures Quiet(n) <==> forall step :: !Convergence.IsSet(step) ==> !CanStep(n, step)
  {
    hide SettledNet, Abstract, Convergence.Quiescent, Kinded;
    AbstractIsShaped(n);
    var s := Abstract(n);
    forall step | !Convergence.IsSet(step)
      ensures CanStep(n, step) <==> ComingToRest.Unprompted(s, step)
    {
      SameStepsToTake(n, step, id, td);
    }
    ComingToRest.QuiescentIffNothingToDo(s);
    if !Quiet(n) {
      SomethingToDo(n, id, td);
    }
  }

  lemma SomethingToDo(n: Net, id: Id, td: TypeDef)
    requires GoodNet(n, id, td) && !Quiet(n)
    ensures exists step :: !Convergence.IsSet(step) && CanStep(n, step)
  {
    hide Good, AllWellSent;
    if n.server.dirty {
      assert CanStep(n, Step.ServerFlush);
    } else if i :| 0 <= i < |n.clients| && n.clients[i].dirty {
      assert CanStep(n, Step.ClientFlush(i));
    } else if i :| 0 <= i < |n.down| && n.down[i] != [] {
      assert CanStep(n, Step.ClientReceive(i));
    } else {
      var i :| 0 <= i < |n.up| && n.up[i] != [];
      assert CanStep(n, Step.ServerReceive(i));
    }
  }

  ghost predicate Holds(p: Param, values: map<Field, Datum>) { forall f :: f in values && Effective(p, f) == values[f] }

  lemma ViewHolds(p: Param)
    ensures Holds(p, View(p).values)
  {
    hide Of, Effective;
  }

  lemma ClientsHold(n: Net, values: map<Field, Datum>)
    requires forall i :: 0 <= i < |Abstract(n).clients| ==> Abstract(n).clients[i].values == values
    ensures |Abstract(n).clients| == |n.clients| && forall i :: 0 <= i < |n.clients| ==> Holds(n.clients[i].p, values)
  {
    forall i | 0 <= i < |n.clients|
      ensures Holds(n.clients[i].p, values)
    {
      assert Abstract(n).clients[i] == View(n.clients[i].p);
      ViewHolds(n.clients[i].p);
    }
  }

  // What everybody has to hold after the set.
  ghost function Goal(n: Net, step: Step): (r: map<Field, Datum>)
    requires step.ServerSet? || step.ClientSet?
  {
    View(n.server.p).values[step.k := step.v]
  }

  // One set while all is quiet: after at most (c + 1) * (c + 2) flushes and deliveries there is
  // nothing left to do, and then all is quiet, every replica holds the new value, and no other
  // field has changed.
  lemma LoneSetComesToRest(n: Net, step: Step, steps: seq<Step>, id: Id, td: TypeDef)
    requires GoodNet(n, id, td) && SettledNet(n) && Quiet(n) && InAgreement(n)
    requires Convergence.IsSet(step) && CanStep(n, step) && RunsOn(After(n, step), steps)
    ensures |steps| <= (|n.clients| + 1) * (|n.clients| + 2)
    ensures var end := EndsAs(After(n, step), steps);
      (forall x :: !Convergence.IsSet(x) ==> !CanStep(end, x)) ==>
        && Quiet(end) && |end.clients| == |n.clients| && Effective(end.server.p, step.k) == step.v
        && (forall f: Field :: f != step.k ==> Effective(end.server.p, f) == Effective(n.server.p, f))
        && forall i, f: Field :: 0 <= i < |end.clients| ==>
             Effective(end.clients[i].p, f) == if f == step.k then step.v else Effective(n.server.p, f)
  {
    hide *;
    var after := After(n, step);
    QuietIsQuiescent(n, id, td);
    AgreementIsAgreement(n);
    StepRefines(n, step, id, td);
    StepKeepsSettled(n, step, id, td);
    SameClients(n, step);
    SameRuns(after, steps, id, td);
    var s, end := Abstract(n), EndsAs(after, steps);
    Parts(n, step);
    ComingToRest.LoneSetComesToRest(s, step, steps);
    EndsAtTheGoal(end, Goal(n, step), id, td);
    HoldingTheGoal(n, step);
  }

  // Who holds the goal has the new value, and the other fields as they were.
  lemma HoldingTheGoal(n: Net, step: Step)
    requires step.ServerSet? || step.ClientSet?
    ensures forall p, f: Field :: Holds(p, Goal(n, step)) ==>
              Effective(p, f) == if f == step.k then step.v else Effective(n.server.p, f)
  {
    hide Effective;
    forall p, f: Field | Holds(p, Goal(n, step))
      ensures Effective(p, f) == if f == step.k then step.v else Effective(n.server.p, f)
    {
      assert f in Goal(n, step);
    }
  }

  lemma Parts(n: Net, step: Step)
    requires Convergence.IsSet(step)
    ensures |Abstract(n).clients| == |n.clients| && (step.ServerSet? || step.ClientSet?)
    ensures Goal(n, step) == ComingToRest.Goal(Abstract(n), step)
  {
    hide View, AllMeanings;
  }

  lemma AbstractInParts(n: Net, id: Id, td: TypeDef)
    requires GoodNet(n, id, td)
    ensures Convergence.Shaped(Abstract(n)) && |Abstract(n).clients| == |n.clients|
             && Abstract(n).server == View(n.server.p)
  {
    hide Good, AllWellSent, View, AllMeanings;
    AbstractIsShaped(n);
  }

  lemma EndsAtTheGoal(end: Net, goal: map<Field, Datum>, id: Id, td: TypeDef)
    requires GoodNet(end, id, td) && SettledNet(end)
    requires (forall x :: !ComingToRest.Unprompted(Abstract(end), x)) ==>
      && Abstract(end).server.values == goal
      && forall i :: 0 <= i < |Abstract(end).clients| ==> Abstract(end).clients[i].values == goal
    ensures (forall x :: !Convergence.IsSet(x) ==> !CanStep(end, x)) ==>
      && Quiet(end) && Holds(end.server.p, goal)
      && forall i :: 0 <= i < |end.clients| ==> Holds(end.clients[i].p, goal)
    ensures |Abstract(end).clients| == |end.clients|
  {
    hide GoodNet, SettledNet, Abstract, Quiet, Holds, Convergence.Quiescent, Convergence.Shaped, Kinded;
    var t := Abstract(end);
    AbstractInParts(end, id, td);
    QuietIffQuiescent(end, id, td);
    if Quiet(end) {
      ComingToRest.QuiescentIffNothingToDo(t);
      ViewHolds(end.server.p);
      ClientsHold(end, goal);
    }
  }

  // ---------------------------------------------------------------- with sets in between

  lemma {:induction false} RunsStaySettled(run: seq<Net>, steps: seq<Step>, n: nat, id: Id, td: TypeDef)
    requires IsNetRun(run, steps) && GoodNet(run[0], id, td) && SettledNet(run[0]) && n < |run|
    ensures GoodNet(run[n], id, td) && SettledNet(run[n])
  {
    hide GoodNet, SettledNet, CanStep, After;
    if n > 0 {
      RunsStaySettled(run, steps, n - 1, id, td);
      assert run[n - 1 + 1] == After(run[n - 1], steps[n - 1]);
      StepRefines(run[n - 1], steps[n - 1], id, td);
      StepKeepsSettled(run[n - 1], steps[n - 1], id, td);
    }
  }

  ghost predicate Conforms(step: Step, goal: map<Field, Datum>) {
    Convergence.IsSet(step) ==> step.k in goal && step.v == goal[step.k]
  }

  // The fields whose value is to change.
  ghost function Changing(p: Param, goal: map<Field, Datum>): (r: set<Field>)
    requires Full(goal.Keys)
  {
    set f: Field | Effective(p, f) != goal[f]
  }

  lemma ChangingIsWrong(p: Param, goal: map<Field, Datum>)
    requires Full(goal.Keys)
    ensures View(p).values.Keys == goal.Keys && Changing(p, goal) == ComingToRest.Wrong(View(p), goal)
  {
    hide Of, Effective;
    ViewIsFull(p);
  }

  // However sets, flushes and deliveries are interleaved: from agreement, and as long as nobody
  // sets a field to two different values, there are at most (c + 1) * (c + 2) flushes and
  // deliveries for each field that changes.
  lemma WorkIsBounded(run: seq<Net>, steps: seq<Step>, goal: map<Field, Datum>, id: Id, td: TypeDef)
    requires IsNetRun(run, steps) && GoodNet(run[0], id, td) && SettledNet(run[0]) && Quiet(run[0])
             && InAgreement(run[0])
    requires Full(goal.Keys) && forall m :: 0 <= m < |steps| ==> Conforms(steps[m], goal)
    ensures var c := |run[0].clients|;
      ComingToRest.Work(steps) <= (c + 1) * (|Changing(run[0].server.p, goal)| * (c + 2))
  {
    hide *;
    RunLength(run, steps);
    RunsRefine(run, steps, id, td);
    QuietIsQuiescent(run[0], id, td);
    AgreementIsAgreement(run[0]);
    ChangingIsWrong(run[0].server.p, goal);
    var abstracts := AbstractRun(run);
    AbstractsAre(run);
    forall m | 0 <= m < |steps|
      ensures ComingToRest.Conforms(abstracts[m], steps[m], goal)
    {
      RunsStaySettled(run, steps, m, id, td);
      StepOfRun(run, steps, m);
      StepConforms(run[m], steps[m], goal, id, td);
    }
    AbstractInParts(run[0], id, td);
    ComingToRest.WorkIsBounded(abstracts, steps, goal);
  }

  lemma RunLength(run: seq<Net>, steps: seq<Step>)
    requires IsNetRun(run, steps)
    ensures |run| == |steps| + 1
  {
    hide CanStep, After;
  }

  lemma AbstractsAre(run: seq<Net>)
    ensures |AbstractRun(run)| == |run| && forall n :: 0 <= n < |run| ==> AbstractRun(run)[n] == Abstract(run[n])
  {
    hide Abstract;
  }

  lemma StepConforms(n: Net, step: Step, goal: map<Field, Datum>, id: Id, td: TypeDef)
    requires GoodNet(n, id, td) && SettledNet(n) && CanStep(n, step) && Conforms(step, goal)
    ensures ComingToRest.Conforms(Abstract(n), step, goal)
  {
    hide GoodNet, SettledNet, CanStep, Abstract;
    if !Convergence.IsSet(step) { SameStepsToTake(n, step, id, td); }
  }

  // ---------------------------------------------------------------- two sets that cross

  ghost function Visited(n: Net, steps: seq<Step>): (r: seq<Net>)
    requires RunsOn(n, steps)
    ensures |r| == |steps| + 1 && r[0] == n
    decreases |steps|
  {
    if steps == [] then [n] else [n] + Visited(After(n, steps[0]), steps[1..])
  }

  lemma OneStepEarlier(n: Net, step: Step, run: seq<Net>, steps: seq<Step>)
    requires IsNetRun(run, steps) && CanStep(n, step) && run[0] == After(n, step)
    ensures IsNetRun([n] + run, [step] + steps)
  {
    hide CanStep, After;
  }

  lemma {:induction false} VisitedIsARun(n: Net, steps: seq<Step>)
    requires RunsOn(n, steps)
    ensures IsNetRun(Visited(n, steps), steps) && Visited(n, steps)[|steps|] == EndsAs(n, steps)
    ensures forall m :: 0 <= m < |steps| ==> !Convergence.IsSet(steps[m])
    decreases |steps|
  {
    hide CanStep, After;
    if steps != [] {
      VisitedIsARun(After(n, steps[0]), steps[1..]);
      assert [steps[0]] + steps[1..] == steps;
      OneStepEarlier(n, steps[0], Visited(After(n, steps[0]), steps[1..]), steps[1..]);
    }
  }

  lemma WhoStepsIsNotQuiet(n: Net, step: Step, id: Id, td: TypeDef)
    requires GoodNet(n, id, td) && CanStep(n, step) && !Convergence.IsSet(step)
    ensures !Quiet(n)
  {
    hide Good, AllWellSent;
  }

  // The server sets a and client j sets b before either has heard of the other.
  lemma TwoSetsCross(n: Net, j: nat, f: Field, a: Datum, b: Datum, id: Id, td: TypeDef) returns (n1: Net, n2: Net)
    requires GoodNet(n, id, td) && SettledNet(n) && Quiet(n) && InAgreement(n) && j < |n.clients|
    requires Kinded(n.server.p.td, f, a) && Kinded(n.clients[j].p.td, f, b)
    requires a != b && a != Effective(n.server.p, f) && b != Effective(n.server.p, f)
    ensures CanStep(n, Step.ServerSet(f, a)) && n1 == After(n, Step.ServerSet(f, a))
    ensures CanStep(n1, Step.ClientSet(j, f, b)) && n2 == After(n1, Step.ClientSet(j, f, b))
    ensures GoodNet(n2, id, td) && SettledNet(n2) && ComingToRest.CrossedAt(Abstract(n2), j, f, a, b)
  {
    hide GoodNet, SettledNet;
    var first, second := Step.ServerSet(f, a), Step.ClientSet(j, f, b);
    assert CanStep(n, first);
    n1 := After(n, first);
    assert CanStep(n1, second);
    n2 := After(n1, second);
    QuietIsQuiescent(n, id, td);
    ViewAt(n.server.p, f);
    AgreementIsAgreement(n);
    assert Abstract(n).server == View(n.server.p) && |Abstract(n).clients| == |n.clients|;
    StepRefines(n, first, id, td);
    StepKeepsSettled(n, first, id, td);
    StepRefines(n1, second, id, td);
    StepKeepsSettled(n1, second, id, td);
    Convergence.NextIsShaped(Abstract(n), first);
    Convergence.NextIsShaped(Abstract(n1), second);
    SetsCross(Abstract(n), j, f, a, b);
  }

  lemma SetsCross<K, V>(s: Convergence.System<K, V>, j: nat, k: K, a: V, b: V)
    requires Convergence.Shaped(s) && Convergence.Quiescent(s) && Convergence.Agree(s) && j < |s.clients|
    requires k in s.server.values && a != b && a != s.server.values[k] && b != s.server.values[k]
    ensures var s1 := Convergence.Next(s, Convergence.Step.ServerSet(k, a));
      Convergence.Shaped(s1) && Convergence.Enabled(s1, Convergence.Step.ClientSet(j, k, b)) &&
      var s2 := Convergence.Next(s1, Convergence.Step.ClientSet(j, k, b));
      Convergence.Shaped(s2) ==> ComingToRest.CrossedAt(s2, j, k, a, b)
  {
    Convergence.NextIsShaped(s, Convergence.Step.ServerSet(k, a));
  }

  // Two sets of different values that cross can keep a server and a client busy for ever: a run
  // of any length without another set, in which the network is never quiet.
  lemma CrossingSetsNeverRest(n: Net, j: nat, f: Field, a: Datum, b: Datum, rounds: nat, id: Id, td: TypeDef)
    returns (run: seq<Net>, steps: seq<Step>)
    requires GoodNet(n, id, td) && SettledNet(n) && Quiet(n) && InAgreement(n) && j < |n.clients|
    requires Kinded(n.server.p.td, f, a) && Kinded(n.clients[j].p.td, f, b)
    requires a != b && a != Effective(n.server.p, f) && b != Effective(n.server.p, f)
    ensures IsNetRun(run, steps) && run[0] == n && |steps| == 2 + 4 * rounds
    ensures steps[0] == Step.ServerSet(f, a) && steps[1] == Step.ClientSet(j, f, b)
    ensures forall m :: 2 <= m < |steps| ==> !Convergence.IsSet(steps[m])
    ensures forall m :: 2 <= m <= |steps| ==> !Quiet(run[m])
  {
    hide *;
    var n1, n2 := TwoSetsCross(n, j, f, a, b, id, td);
    var echo: seq<Step> := ComingToRest.Rounds(j, rounds);
    ComingToRest.CrossedNeverRests(Abstract(n2), j, f, a, b, rounds);
    SameRuns(n2, echo, id, td);
    VisitedIsARun(n2, echo);
    var visited := Visited(n2, echo);
    OneStepEarlier(n1, Step.ClientSet(j, f, b), visited, echo);
    OneStepEarlier(n, Step.ServerSet(f, a), [n1] + visited, [Step.ClientSet(j, f, b)] + echo);
    run, steps := [n] + ([n1] + visited), [Step.ServerSet(f, a)] + ([Step.ClientSet(j, f, b)] + echo);
    forall m | 2 <= m <= |steps|
      ensures !Quiet(run[m])
    {
      RunsStayGood(run, steps, m, id, td);
      if m < |steps| {
        StepOfRun(run, steps, m);
        WhoStepsIsNotQuiet(run[m], steps[m], id, td);
      } else {
        assert run[m] == EndsAs(n2, echo);
        CrossedIsNotQuiet(run[m], j, f, if rounds % 2 == 0 then a else b, if rounds % 2 == 0 then b else a, id, td);
      }
    }
  }

  lemma StepOfRun(run: seq<Net>, steps: seq<Step>, m: nat)
    requires IsNetRun(run, steps) && m < |steps|
    ensures CanStep(run[m], steps[m])
  {
  }

  lemma CrossedIsNotQuiet(n: Net, j: nat, f: Field, a: Datum, b: Datum, id: Id, td: TypeDef)
    requires GoodNet(n, id, td) && ComingToRest.CrossedAt(Abstract(n), j, f, a, b)
    ensures !Quiet(n)
  {
    hide GoodNet, Abstract, Quiet;
    if Quiet(n) { QuietIsQuiescent(n, id, td); }
  }

  // Such a run starts where everything starts.
  lemma FreshNetNeverRests(id: Id, td: TypeDef, count: nat, f: Field, a: Datum, b: Datum, rounds: nat)
    returns (run: seq<Net>, steps: seq<Step>)
    requires SendableType(td) && !td.Range? && count > 0 && Kinded(td, f, a) && Kinded(td, f, b)
    requires a != b && a != Effective(FreshParam(id, td), f) && b != Effective(FreshParam(id, td), f)
    ensures IsNetRun(run, steps) && run[0] == FreshNet(id, td, count) && |steps| == 2 + 4 * rounds
    ensures steps[0] == Step.ServerSet(f, a) && steps[1] == Step.ClientSet(0, f, b)
    ensures forall m :: 2 <= m < |steps| ==> !Convergence.IsSet(steps[m])
    ensures forall m :: 2 <= m <= |steps| ==> !Quiet(run[m])
  {
    var n := FreshNet(id, td, count);
    FreshNetIsGood(id, td, count);
    assert Settled(n.server) && SettledNet(n) by { hide FreshType, Of; }
    run, steps := CrossingSetsNeverRest(n, 0, f, a, b, rounds, id, td);
  }
}
