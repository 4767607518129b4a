/** When a server and its clients come to rest with moves among groups beside the fields: the
    results of ComingToRest for both together.  A dirty map holds the parameter for its parent as
    it does for a field. */
module Resting {
  import opened Streams
  import opened Options
  import opened TypeDefinitions
  import opened Forest
  import opened Parameters
  import opened ParameterDelta
  import opened Synchronisation
  import opened Network
  import opened Moving
  import opened Sharing
  import ComingToRest
  import Convergence
  import Settling

  type Step = Network.Step
  type Key = Either<Field, Link>
  type Content = Either<Datum, Id>

  // ---------------------------------------------------------------- the seven fields and the parent

  lemma ShapesAgree(n: Net, known: set<Id>)
    ensures SameShape(Abstract(n), Links(n, known))
  {
    hide View, Home, Meaning, Told;
  }

  // What the net is to the eight of them.
  ghost function Whole(n: Net, known: set<Id>): (r: Convergence.System<Key, Content>) {
    ShapesAgree(n, known);
    Both(Abstract(n), Links(n, known))
  }

  function WholeStep(e: Event): (r: Convergence.Step<Key, Content>) {
    match e
    case Act(step) => LeftStep(step)
    case ServerMove(g) => Convergence.ServerSet(Right(Parent), Right(g))
    case ClientMove(i, g) => Convergence.ClientSet(i, Right(Parent), Right(g))
  }

  ghost predicate Steps(s: Convergence.System<Key, Content>, z: Convergence.Step<Key, Content>,
      s': Convergence.System<Key, Content>) {
    Convergence.Shaped(s) && Convergence.Enabled(s, z) && s' == Convergence.Next(s, z)
  }

  lemma ActIsStep(n: Net, step: Step, id: Id, td: TypeDef, known: set<Id>)
    requires GoodNet(n, id, td) && HousedNet(n, id, td, known) && CanStep(n, step)
    ensures Steps(Whole(n, known), LeftStep(step), Whole(After(n, step), known))
  {
    hide GoodNet, HousedNet, CanStep, After, Abstract, Links, SameShape, Both, Convergence.Shaped, Convergence.Enabled,
        Convergence.Next;
    var n' := After(n, step);
    StepRefines(n, step, id, td);
    EventKeeps(n, Act(step), id, td, known);
    ShapesAgree(n, known);
    ShapesAgree(n', known);
    if Convergence.IsSet(step) {
      NextLeft(Abstract(n), Links(n, known), step);
    } else {
      NextBoth(Abstract(n), Links(n, known), step, LinkStep(Act(step)).value);
    }
  }

  lemma MoveIsStep(n: Net, e: Event, id: Id, td: TypeDef, known: set<Id>)
    requires GoodNet(n, id, td) && HousedNet(n, id, td, known) && CanHappen(n, e, known) && !e.Act?
    ensures Steps(Whole(n, known), WholeStep(e), Whole(Following(n, e), known))
  {
    hide GoodNet, HousedNet, Following, Abstract, Links, SameShape, Both, Convergence.Shaped, Convergence.Enabled,
        Convergence.Next;
    EventKeeps(n, e, id, td, known);
    GoodNetIsShaped(n, id, td);
    ShapesAgree(n, known);
    ShapesAgree(Following(n, e), known);
    NextRight(Abstract(n), Links(n, known), LinkStep(e).value);
  }

  lemma GoodNetIsShaped(n: Net, id: Id, td: TypeDef)
    requires GoodNet(n, id, td)
    ensures Convergence.Shaped(Abstract(n))
  {
    hide Good, AllWellSent, Abstract, Convergence.Shaped;
    AbstractIsShaped(n);
  }

  lemma EventIsStep(n: Net, e: Event, id: Id, td: TypeDef, known: set<Id>)
    requires GoodNet(n, id, td) && HousedNet(n, id, td, known) && CanHappen(n, e, known)
    ensures GoodNet(Following(n, e), id, td) && HousedNet(Following(n, e), id, td, known)
    ensures Steps(Whole(n, known), WholeStep(e), Whole(Following(n, e), known))
  {
    hide GoodNet, HousedNet, CanStep, After, Whole, Steps;
    EventKeeps(n, e, id, td, known);
    if e.Act? { ActIsStep(n, e.step, id, td, known); } else { MoveIsStep(n, e, id, td, known); }
  }

  // ---------------------------------------------------------------- dirty maps

  // The dirty map holds the parameter only for something that is to be sent.
  ghost predicate Tidy(r: Replica) { r.dirty ==> r.p.parent.changed || exists f :: Of(r.p, f).changed }

  ghost predicate TidyNet(n: Net) { Tidy(n.server) && forall i :: 0 <= i < |n.clients| ==> Tidy(n.clients[i]) }

  lemma SetStaysTidy(r: Replica, f: Field, d: Datum)
    requires Kinded(r.p.td, f, d) && Tidy(r)
    ensures Tidy(Set(r, f, d))
  {
    hide Of;
    var q := WithField(r.p, f, d);
    assert q.parent == r.p.parent;
    forall g
      ensures Of(q, g) == if g == f then Assign(Of(r.p, g), d) else Of(r.p, g)
    {
      FieldIsSet(r.p, f, d, g);
    }
    if g :| Of(r.p, g).changed {
      assert Of(q, g).changed;
    }
  }

  lemma HearStaysTidy(r: Replica, bytes: Text, id: Id, td: TypeDef)
    requires Good(r, id, td) && WellSent(bytes, id, td) && Tidy(r)
    ensures Tidy(Hear(r, bytes))
  {
    hide Brings, Message, Heard, Of, Updated;
    var p :| Proper(p, id, td) && bytes == Message(p);
    var h := Heard(p, r.groups);
    HeardIsProper(p, id, td, r.groups);
    HearingKeepsGood(r, p, id, td);
    var q := Updated(r.p, h);
    MoveIsUnseen(q, h.parent, id, td);
    FieldsStaySendable(r.p, h, id, td);
    ParentIsKept(r.p, h);
    forall f
      ensures Of(r.p, f).changed ==> Of(q, f).changed
      ensures Of(q, f).value != Of(r.p, f).value ==> Of(q, f).changed
    {
      HeardFieldOf(r, p, id, td, f);
      SetterOnlyMeans(r.p, f);
      SetterOnlyMeans(q, f);
    }
  }

  lemma ParentIsKept(p: Param, h: Param)
    requires h.id == p.id
    ensures Updated(p, h).parent == p.parent && Applied(p, h) == Moved(Updated(p, h), h.parent)
  {
    hide SetFrom, SameKind;
  }

  lemma EmptiedIsTidy(r: Replica)
    ensures Tidy(Emptied(r))
  {
  }

  lemma RehousedIsTidy(r: Replica, g: Id, id: Id, td: TypeDef)
    requires Tidy(r)
    ensures Tidy(Rehoused(r, g))
  {
    hide Of;
    MoveIsUnseen(r.p, Opt(true, g, false), id, td);
    if f :| Of(r.p, f).changed {
      assert Of(Rehoused(r, g).p, f).changed;
    }
  }

  lemma EventKeepsTidy(n: Net, e: Event, id: Id, td: TypeDef, known: set<Id>)
    requires GoodNet(n, id, td) && CanHappen(n, e, known) && TidyNet(n)
    ensures TidyNet(Following(n, e))
  {
    hide Tidy, Set, Hear, Emptied, Rehoused, Message, Brings, AllWellSent, Good, Kinded;
    match e
    case Act(ServerSet(f, d)) => SetStaysTidy(n.server, f, d);
    case Act(ClientSet(i, f, d)) => SetStaysTidy(n.clients[i], f, d);
    case Act(ServerFlush) => EmptiedIsTidy(n.server);
    case Act(ClientFlush(i)) => EmptiedIsTidy(n.clients[i]);
    case Act(ServerReceive(i)) =>
      PoppedIsWellSent(n.up[i], id, td);
      HearStaysTidy(n.server, n.up[i][0], id, td);
    case Act(ClientReceive(i)) =>
      PoppedIsWellSent(n.down[i], id, td);
      HearStaysTidy(n.clients[i], n.down[i][0], id, td);
    case ServerMove(g) => RehousedIsTidy(n.server, g, id, td);
    case ClientMove(i, g) => RehousedIsTidy(n.clients[i], g, id, td);
  }

  lemma DirtyIffPending(r: Replica, id: Id, td: TypeDef, known: set<Id>)
    requires Good(r, id, td) && Housed(r, known) && Tidy(r)
    ensures r.dirty <==> BothSites(View(r.p), Home(r.p)).pending != {}
  {
    hide Of, Effective, Proper, BothSets;
    var pending := BothSites(View(r.p), Home(r.p)).pending;
    if r.p.parent.changed {
      assert Right(Parent) in pending;
    } else if f :| Of(r.p, f).changed {
      assert Left(f) in pending;
    } else if x :| x in pending {
      if x.Left? { assert x.left in View(r.p).pending; } else { assert x.right in Home(r.p).pending; }
    }
  }

  // ---------------------------------------------------------------- the same steps

  // Without a set or a move, the replicas can take a step exactly when the protocol can.
  lemma SameStepsToTake(n: Net, step: Step, id: Id, td: TypeDef, known: set<Id>)
    requires GoodNet(n, id, td) && HousedNet(n, id, td, known) && TidyNet(n) && !Convergence.IsSet(step)
    ensures CanStep(n, step) <==> ComingToRest.Unprompted(Whole(n, known), LeftStep(step))
  {
    hide View, Home, Good, Housed, Tidy, AllWellSent, AllHomeSent, Meaning, Told, Kinded, BothSites, BothMaps;
    ShapesAgree(n, known);
    DirtyIffPending(n.server, id, td, known);
    forall i | 0 <= i < |n.clients|
      ensures n.clients[i].dirty <==> BothSites(View(n.clients[i].p), Home(n.clients[i].p)).pending != {}
    {
      DirtyIffPending(n.clients[i], id, td, known);
    }
  }

  function Lifted(steps: seq<Step>): (r: seq<Convergence.Step<Key, Content>>)
    ensures |r| == |steps|
  {
    if steps == [] then [] else [LeftStep(steps[0])] + Lifted(steps[1..])
  }

  ghost predicate Ready(n: Net, id: Id, td: TypeDef, known: set<Id>) {
    GoodNet(n, id, td) && HousedNet(n, id, td, known) && TidyNet(n)
  }

  lemma EventKeepsReady(n: Net, e: Event, id: Id, td: TypeDef, known: set<Id>)
    requires Ready(n, id, td, known) && CanHappen(n, e, known)
    ensures Ready(Following(n, e), id, td, known)
    ensures Steps(Whole(n, known), WholeStep(e), Whole(Following(n, e), known))
  {
    hide GoodNet, HousedNet, TidyNet, CanHappen, Following, Whole, Steps;
    EventIsStep(n, e, id, td, known);
    EventKeepsTidy(n, e, id, td, known);
  }

  lemma ActKeepsReady(n: Net, step: Step, id: Id, td: TypeDef, known: set<Id>)
    requires Ready(n, id, td, known) && CanStep(n, step)
    ensures Ready(After(n, step), id, td, known)
    ensures Steps(Whole(n, known), LeftStep(step), Whole(After(n, step), known))
  {
    hide Ready, CanStep, After, Whole, Steps;
    EventKeepsReady(n, Act(step), id, td, known);
  }

  lemma WholeIsShaped(n: Net, id: Id, td: TypeDef, known: set<Id>)
    requires GoodNet(n, id, td)
    ensures Convergence.Shaped(Whole(n, known)) && |Whole(n, known).clients| == |n.clients|
  {
    hide Good, AllWellSent, View, Home, Meaning, Told, BothSites, BothMaps, BothChannels, Convergence.Shaped;
    AbstractIsShaped(n);
    LinksAreShaped(n, known);
    ShapesAgree(n, known);
    BothAreShaped(Abstract(n), Links(n, known));
  }

  lemma {:induction false} SameRuns(n: Net, steps: seq<Step>, id: Id, td: TypeDef, known: set<Id>)
    requires Ready(n, id, td, known)
    ensures Settling.RunsOn(n, steps) <==> ComingToRest.Follows(Whole(n, known), Lifted(steps))
    ensures Settling.RunsOn(n, steps) ==>
      var end := Settling.EndsAs(n, steps);
      Ready(end, id, td, known) && Whole(end, known) == ComingToRest.End(Whole(n, known), Lifted(steps))
      && |end.clients| == |n.clients|
    decreases |steps|
  {
    hide GoodNet, HousedNet, TidyNet, Whole, CanStep, After, Convergence.Next, Convergence.Shaped, Convergence.Enabled;
    WholeIsShaped(n, id, td, known);
    if steps != [] {
      assert Lifted(steps)[1..] == Lifted(steps[1..]) && Lifted(steps)[0] == LeftStep(steps[0]);
      if !Convergence.IsSet(steps[0]) {
        SameStepsToTake(n, steps[0], id, td, known);
        if CanStep(n, steps[0]) {
          Settling.SameClients(n, steps[0]);
          ActKeepsReady(n, steps[0], id, td, known);
          SameRuns(After(n, steps[0]), steps[1..], id, td, known);
        }
      }
    }
  }

  // ---------------------------------------------------------------- exactly when it stops

  // Both have the parent to send, under different groups.
  predicate RivalHomes(p: Param, q: Param) {
    p.parent.changed && q.parent.changed && p.parent.value != q.parent.value
  }

  ghost predicate Unrivalled(n: Net) {
    && Settling.Unrivalled(n) && (forall i :: 0 <= i < |n.clients| ==> !RivalHomes(n.server.p, n.clients[i].p))
    && (forall i, j :: 0 <= i < |n.clients| && 0 <= j < |n.clients| ==> !RivalHomes(n.clients[i].p, n.clients[j].p))
  }

  lemma RivalHomesAre(p: Param, q: Param)
    ensures Home(p).pending <= Home(p).values.Keys && Home(q).pending <= Home(q).values.Keys
    ensures RivalHomes(p, q) <==> !Apart(Home(p), Home(q))
  {
    if RivalHomes(p, q) { assert ComingToRest.Rivals(Home(p), Home(q), Parent); }
  }

  lemma LinksUnrivalled(n: Net, known: set<Id>)
    requires Convergence.Shaped(Links(n, known))
    ensures ComingToRest.Unrivalled(Links(n, known)) <==>
      && (forall i :: 0 <= i < |n.clients| ==> !RivalHomes(n.server.p, n.clients[i].p))
      && (forall i, j :: 0 <= i < |n.clients| && 0 <= j < |n.clients| ==> !RivalHomes(n.clients[i].p, n.clients[j].p))
  {
    hide RivalHomes, Apart, Home, AllTold, ComingToRest.Unrivalled;
    var s := Links(n, known);
    UnrivalledIsApart(s);
    assert |s.clients| == |n.clients| && forall i :: 0 <= i < |n.clients| ==> s.clients[i] == Home(n.clients[i].p);
    forall i | 0 <= i < |n.clients|
      ensures RivalHomes(n.server.p, n.clients[i].p) <==> !Apart(s.server, s.clients[i])
    {
      RivalHomesAre(n.server.p, n.clients[i].p);
    }
    forall i, j | 0 <= i < |n.clients| && 0 <= j < |n.clients|
      ensures RivalHomes(n.clients[i].p, n.clients[j].p) <==> !Apart(s.clients[i], s.clients[j])
    {
      RivalHomesAre(n.clients[i].p, n.clients[j].p);
    }
  }

  lemma SameUnrivalled(n: Net, id: Id, td: TypeDef, known: set<Id>)
    requires GoodNet(n, id, td)
    ensures Convergence.Shaped(Whole(n, known)) && (Unrivalled(n) <==> ComingToRest.Unrivalled(Whole(n, known)))
  {
    hide Good, AllWellSent, Abstract, Links, Both, SameShape, Convergence.Shaped, ComingToRest.Unrivalled,
        Settling.Unrivalled, RivalHomes;
    WholeIsShaped(n, id, td, known);
    AbstractIsShaped(n);
    LinksAreShaped(n, known);
    ShapesAgree(n, known);
    Settling.SameUnrivalled(n);
    LinksUnrivalled(n, known);
    UnrivalledBoth(Abstract(n), Links(n, known));
  }

  // The steps of the net that steps of the protocol are.
  function Lowered(z: Convergence.Step<Key, Content>): (r: Step) {
    match z
    case ClientFlush(i) => Step.ClientFlush(i)
    case ServerReceive(i) => Step.ServerReceive(i)
    case ClientReceive(i) => Step.ClientReceive(i)
    case _ => Step.ServerFlush
  }

  function AllLowered(zs: seq<Convergence.Step<Key, Content>>): (r: seq<Step>)
    ensures |r| == |zs|
  {
    if zs == [] then [] else [Lowered(zs[0])] + AllLowered(zs[1..])
  }

  lemma {:induction false} LoweredIsLifted(s: Convergence.System<Key, Content>, zs: seq<Convergence.Step<Key, Content>>)
    requires ComingToRest.Follows(s, zs)
    ensures Lifted(AllLowered(zs)) == zs
    decreases |zs|
  {
    hide Convergence.Shaped, Convergence.Enabled, Convergence.Next;
    if zs != [] {
      LoweredIsLifted(Convergence.Next(s, zs[0]), zs[1..]);
      assert AllLowered(zs)[1..] == AllLowered(zs[1..]);
      assert [zs[0]] + zs[1..] == zs;
    }
  }

  lemma SameBounds(n: Net, id: Id, td: TypeDef, known: set<Id>, most: nat)
    requires Ready(n, id, td, known)
    ensures Settling.StopsWithin(n, most) <==> ComingToRest.StopsWithin(Whole(n, known), most)
  {
    hide Ready, Whole, Settling.RunsOn, ComingToRest.Follows;
    var s := Whole(n, known);
    forall steps
      ensures Settling.RunsOn(n, steps) <==> ComingToRest.Follows(s, Lifted(steps))
    {
      SameRuns(n, steps, id, td, known);
    }
    forall zs | ComingToRest.Follows(s, zs)
      ensures Lifted(AllLowered(zs)) == zs && Settling.RunsOn(n, AllLowered(zs))
    {
      LoweredIsLifted(s, zs);
      SameRuns(n, AllLowered(zs), id, td, known);
    }
  }

  // With empty channels, a server and its clients left to themselves stop after a bounded number
  // of steps, in any order, if and only if no two of them have different values of a field, or
  // different groups, to send.
  lemma StopsIffUnrivalled(n: Net, id: Id, td: TypeDef, known: set<Id>)
    requires GoodNet(n, id, td) && HousedNet(n, id, td, known) && TidyNet(n) && Settling.NothingUnderWay(n)
    ensures (exists most: nat :: Settling.StopsWithin(n, most)) <==> Unrivalled(n)
  {
    hide GoodNet, HousedNet, TidyNet, Whole, Settling.StopsWithin, ComingToRest.StopsWithin, Unrivalled,
        ComingToRest.Unrivalled, Settling.NothingUnderWay, ComingToRest.NothingUnderWay;
    forall most: nat
      ensures Settling.StopsWithin(n, most) <==> ComingToRest.StopsWithin(Whole(n, known), most)
    {
      SameBounds(n, id, td, known, most);
    }
    SameUnrivalled(n, id, td, known);
    WholeUnderWay(n, known);
    ComingToRest.StopsIffUnrivalled(Whole(n, known));
  }

  lemma WholeUnderWay(n: Net, known: set<Id>)
    requires Settling.NothingUnderWay(n)
    ensures ComingToRest.NothingUnderWay(Whole(n, known))
  {
    hide View, Home, Meaning, Told, BothMaps;
  }

  // ---------------------------------------------------------------- with sets and moves in between

  // Sets are of the goal's values, moves to the one group.
  ghost predicate Conforms(e: Event, goal: map<Field, Datum>, g: Id) {
    if e.Act? then Settling.Conforms(e.step, goal) else e.g == g
  }

  function WholeGoal(goal: map<Field, Datum>, g: Id): (r: map<Key, Content>) {
    var home: map<Link, Id> := map[Parent := g];
    BothMaps(goal, home)
  }

  // The flushes and deliveries among the events.
  function Work(events: seq<Event>): (r: nat) {
    if events == [] then 0
    else
      var last := events[|events| - 1];
      Work(events[..|events| - 1]) + if last.Act? && !last.step.ServerSet? && !last.step.ClientSet? then 1 else 0
  }

  function WholeSteps(events: seq<Event>): (r: seq<Convergence.Step<Key, Content>>) {
    seq(|events|, m requires 0 <= m < |events| => WholeStep(events[m]))
  }

  lemma {:induction false} SameWork(events: seq<Event>)
    ensures Work(events) == ComingToRest.Work(WholeSteps(events))
  {
    if events != [] {
      var l := |events| - 1;
      SameWork(events[..l]);
      assert WholeSteps(events)[..l] == WholeSteps(events[..l]);
    }
  }

  ghost function Wholes(run: seq<Net>, known: set<Id>): (r: seq<Convergence.System<Key, Content>>) {
    seq(|run|, m requires 0 <= m < |run| => Whole(run[m], known))
  }

  lemma {:induction false} RunsStayReady(run: seq<Net>, events: seq<Event>, n: nat, id: Id, td: TypeDef,
      known: set<Id>)
    requires IsEventRun(run, events, known) && Ready(run[0], id, td, known) && n < |run|
    ensures Ready(run[n], id, td, known)
  {
    hide IsEventRun, Ready, CanHappen, Following, Steps, Whole;
    if n > 0 {
      EventAt(run, events, n - 1, known);
      RunsStayReady(run, events, n - 1, id, td, known);
      EventKeepsReady(run[n - 1], events[n - 1], id, td, known);
    }
  }

  lemma EventConforms(n: Net, e: Event, goal: map<Field, Datum>, g: Id, id: Id, td: TypeDef, known: set<Id>)
    requires Ready(n, id, td, known) && CanHappen(n, e, known) && Conforms(e, goal, g)
    ensures ComingToRest.Conforms(Whole(n, known), WholeStep(e), WholeGoal(goal, g))
  {
    hide GoodNet, HousedNet, TidyNet, Whole, CanStep, BothSets;
    if e.Act? && !Convergence.IsSet(e.step) { SameStepsToTake(n, e.step, id, td, known); }
    assert Right(Parent) in WholeGoal(goal, g);
    if e.Act? && Convergence.IsSet(e.step) {
      assert Left(e.step.k) in WholeGoal(goal, g);
    }
  }

  lemma WholeRun(run: seq<Net>, events: seq<Event>, goal: map<Field, Datum>, g: Id, id: Id, td: TypeDef,
      known: set<Id>)
    requires IsEventRun(run, events, known) && Ready(run[0], id, td, known)
    requires forall m :: 0 <= m < |events| ==> Conforms(events[m], goal, g)
    ensures Convergence.IsRun(Wholes(run, known), WholeSteps(events))
    ensures forall m :: 0 <= m < |events| ==>
             ComingToRest.Conforms(Wholes(run, known)[m], WholeSteps(events)[m], WholeGoal(goal, g))
  {
    hide Ready, CanHappen, Following, Whole, WholeStep, Conforms, WholeGoal, ComingToRest.Conforms, Convergence.Shaped,
        Convergence.Enabled, Convergence.Next;
    var wholes, steps := Wholes(run, known), WholeSteps(events);
    forall m | 0 <= m < |events|
      ensures Convergence.Shaped(wholes[m]) && Convergence.Enabled(wholes[m], steps[m])
           && wholes[m + 1] == Convergence.Next(wholes[m], steps[m])
      ensures ComingToRest.Conforms(wholes[m], steps[m], WholeGoal(goal, g))
    {
      EventAt(run, events, m, known);
      RunsStayReady(run, events, m, id, td, known);
      EventKeepsReady(run[m], events[m], id, td, known);
      EventConforms(run[m], events[m], goal, g, id, td, known);
    }
  }

  // How much is to change: the fields, and the parent if it is under another group.
  ghost function ToChange(p: Param, goal: map<Field, Datum>, g: Id): (r: nat)
    requires Full(goal.Keys)
  {
    |Settling.Changing(p, goal)| + if p.parent.value != g then 1 else 0
  }

  lemma ToChangeIsWrong(p: Param, goal: map<Field, Datum>, g: Id)
    requires Full(goal.Keys)
    ensures var s := BothSites(View(p), Home(p)); var whole := WholeGoal(goal, g);
      s.values.Keys == whole.Keys && ToChange(p, goal, g) == |ComingToRest.Wrong(s, whole)|
  {
    hide BothSets, View, Settling.Changing;
    Settling.ChangingIsWrong(p, goal);
    var s, whole := BothSites(View(p), Home(p)), WholeGoal(goal, g);
    var fields, home := ComingToRest.Wrong(View(p), goal), ComingToRest.Wrong(Home(p), map[Parent := g]);
    assert Home(p).values.Keys == (map[Parent := g]).Keys;
    forall k
      ensures Left(k) in ComingToRest.Wrong(s, whole) <==> k in fields
    {
    }
    forall l
      ensures Right(l) in ComingToRest.Wrong(s, whole) <==> l in home
    {
    }
    SameInBoth(ComingToRest.Wrong(s, whole), fields, home);
    BothCount(fields, home);
    assert home == if p.parent.value != g then {Parent} else {};
  }

  lemma QuietWhole(n: Net, id: Id, td: TypeDef, known: set<Id>)
    requires GoodNet(n, id, td) && HousedNet(n, id, td, known) && Quiet(n)
    ensures Convergence.Shaped(Whole(n, known)) && Convergence.Quiescent(Whole(n, known))
    ensures Convergence.Agree(Whole(n, known)) <==> InAgreement(n) && Moving.Together(n)
  {
    hide GoodNet, HousedNet, Quiet, InAgreement, Moving.Together, Abstract, Links, SameShape, Convergence.Shaped;
    WholeIsShaped(n, id, td, known);
    QuietIsQuiescent(n, id, td);
    AgreementIsAgreement(n);
    QuietLinks(n, id, td, known);
    ShapesAgree(n, known);
    QuietBoth(Abstract(n), Links(n, known));
  }

  lemma QuietIsReady(n: Net, id: Id, td: TypeDef, known: set<Id>)
    requires GoodNet(n, id, td) && HousedNet(n, id, td, known) && Quiet(n)
    ensures Ready(n, id, td, known)
  {
    hide GoodNet, HousedNet;
  }

  // However sets, moves, flushes and deliveries are interleaved: from agreement, and as long as
  // nobody sets a field to two different values or moves the parameter to two groups, there are
  // at most (c + 1) * (c + 2) flushes and deliveries for each field that changes and for the move.
  lemma WorkIsBounded(run: seq<Net>, events: seq<Event>, goal: map<Field, Datum>, g: Id, id: Id, td: TypeDef,
      known: set<Id>)
    requires IsEventRun(run, events, known) && GoodNet(run[0], id, td) && HousedNet(run[0], id, td, known)
    requires Quiet(run[0]) && InAgreement(run[0]) && Moving.Together(run[0])
    requires Full(goal.Keys) && forall m :: 0 <= m < |events| ==> Conforms(events[m], goal, g)
    ensures var c := |run[0].clients|; Work(events) <= (c + 1) * (ToChange(run[0].server.p, goal, g) * (c + 2))
  {
    hide IsEventRun, GoodNet, HousedNet, TidyNet, Quiet, InAgreement, Moving.Together, Full, Conforms, Work, ToChange,
        Whole, WholeGoal, ComingToRest.Work, ComingToRest.Wrong, ComingToRest.Conforms, Convergence.Shaped,
        Convergence.Quiescent, Convergence.Agree;
    RunHasItsLength(run, events, known);
    QuietIsReady(run[0], id, td, known);
    WholeRun(run, events, goal, g, id, td, known);
    QuietWhole(run[0], id, td, known);
    ToChangeIsWrong(run[0].server.p, goal, g);
    SameWork(events);
    WholeIsShaped(run[0], id, td, known);
    ServerOfWhole(run[0], known);
    ComingToRest.WorkIsBounded(Wholes(run, known), WholeSteps(events), WholeGoal(goal, g));
  }

  lemma RunHasItsLength(run: seq<Net>, events: seq<Event>, known: set<Id>)
    requires IsEventRun(run, events, known)
    ensures |run| == |events| + 1
  {
    hide CanHappen, Following;
  }

  lemma ServerOfWhole(n: Net, known: set<Id>)
    ensures Whole(n, known).server == BothSites(View(n.server.p), Home(n.server.p))
  {
    hide View, Home, BothSites, AllMeanings, AllTold;
  }

  // ---------------------------------------------------------------- a lone move

  lemma NothingToDo(n: Net, id: Id, td: TypeDef, known: set<Id>)
    requires Ready(n, id, td, known) && forall step :: !Convergence.IsSet(step) ==> !CanStep(n, step)
    ensures Quiet(n) && forall z :: !ComingToRest.Unprompted(Whole(n, known), z)
  {
    hide GoodNet, HousedNet, TidyNet, Whole, CanStep, Quiet, Convergence.Enabled;
    if !Quiet(n) { Settling.SomethingToDo(n, id, td); }
    forall z
      ensures !ComingToRest.Unprompted(Whole(n, known), z)
    {
      if ComingToRest.Unprompted(Whole(n, known), z) {
        assert LeftStep(Lowered(z)) == z;
        SameStepsToTake(n, Lowered(z), id, td, known);
      }
    }
  }

  // Under the group, and otherwise as the other.
  ghost predicate MovedTo(p: Param, q: Param, g: Id) {
    p.parent.value == g && forall f :: Effective(p, f) == Effective(q, f)
  }

  lemma WholeSays(p: Param, q: Param, g: Id)
    requires BothSites(View(p), Home(p)).values == BothSites(View(q), Home(q)).values[Right(Parent) := Right(g)]
    ensures MovedTo(p, q, g)
  {
    hide Of, Effective, BothSets;
    var s, t := BothSites(View(p), Home(p)).values, BothSites(View(q), Home(q)).values;
    assert Right(Parent) in s && s[Right(Parent)] == Right(p.parent.value);
    forall f
      ensures Effective(p, f) == Effective(q, f)
    {
      ViewAt(p, f);
      ViewAt(q, f);
      assert Left(f) in s && s[Left(f)] == Left(Effective(p, f)) && Left(f) in t && t[Left(f)] == Left(Effective(q, f));
    }
  }

  lemma AllMovedTo(n: Net, q: Param, g: Id, known: set<Id>)
    requires var s := Whole(n, known); var values := BothSites(View(q), Home(q)).values[Right(Parent) := Right(g)];
      s.server.values == values && forall i :: 0 <= i < |s.clients| ==> s.clients[i].values == values
    ensures MovedTo(n.server.p, q, g) && forall i :: 0 <= i < |n.clients| ==> MovedTo(n.clients[i].p, q, g)
  {
    hide View, Home, BothSites, MovedTo, AllMeanings, AllTold;
    ShapesAgree(n, known);
    WholeSays(n.server.p, q, g);
    forall i | 0 <= i < |n.clients|
      ensures MovedTo(n.clients[i].p, q, g)
    {
      assert Whole(n, known).clients[i] == BothSites(View(n.clients[i].p), Home(n.clients[i].p));
      WholeSays(n.clients[i].p, q, g);
    }
  }

  // One move while all is quiet: after at most (c + 1) * (c + 2) flushes and deliveries there is
  // nothing left to do, and then all is quiet, every replica hangs in the new group, and no field
  // has changed.
  lemma LoneMoveComesToRest(n: Net, e: Event, steps: seq<Step>, id: Id, td: TypeDef, known: set<Id>)
    requires GoodNet(n, id, td) && HousedNet(n, id, td, known)
    requires Quiet(n) && InAgreement(n) && Moving.Together(n)
    requires !e.Act? && CanHappen(n, e, known) && Settling.RunsOn(Following(n, e), steps)
    ensures |steps| <= (|n.clients| + 1) * (|n.clients| + 2)
    ensures var end := Settling.EndsAs(Following(n, e), steps);
      (forall x :: !Convergence.IsSet(x) ==> !CanStep(end, x)) ==>
        && Quiet(end) && |end.clients| == |n.clients| && end.server.p.parent.value == e.g
        && (forall f :: Effective(end.server.p, f) == Effective(n.server.p, f))
        && (forall i :: 0 <= i < |end.clients| ==> end.clients[i].p.parent.value == e.g)
        && forall i, f :: 0 <= i < |end.clients| ==> Effective(end.clients[i].p, f) == Effective(n.server.p, f)
  {
    hide GoodNet, HousedNet, TidyNet, Quiet, InAgreement, Moving.Together, Following, Whole, Effective, Settling.RunsOn,
        CanStep, Settling.EndsAs, ComingToRest.Follows, ComingToRest.Unprompted, ComingToRest.End, BothSites,
        Convergence.Shaped, Convergence.Quiescent, Convergence.Agree, Convergence.Enabled, Convergence.Next;
    var after := Following(n, e);
    QuietIsReady(n, id, td, known);
    QuietWhole(n, id, td, known);
    EventKeepsReady(n, e, id, td, known);
    WholeIsShaped(n, id, td, known);
    SameRuns(after, steps, id, td, known);
    ServerOfWhole(n, known);
    ComingToRest.LoneSetComesToRest(Whole(n, known), WholeStep(e), Lifted(steps));
    MoveKeepsClients(n, e);
    var end := Settling.EndsAs(after, steps);
    if forall x :: !Convergence.IsSet(x) ==> !CanStep(end, x) {
      NothingToDo(end, id, td, known);
      AllMovedTo(end, n.server.p, e.g, known);
    }
  }

  lemma MoveKeepsClients(n: Net, e: Event)
    requires !e.Act? && (e.ClientMove? ==> e.i < |n.clients|)
    ensures |Following(n, e).clients| == |n.clients|
  {
    hide Rehoused;
  }

  // Two moves to different groups that cross can keep a server and a client busy for ever: there
  // is no bound on the steps that follow.
  lemma CrossingMovesNeverRest(n: Net, i: nat, g: Id, h: Id, id: Id, td: TypeDef, known: set<Id>)
    requires GoodNet(n, id, td) && HousedNet(n, id, td, known) && Quiet(n) && Moving.Together(n) && i < |n.clients|
    requires g in known && h in known && g != h && g != n.server.p.parent.value && h != n.server.p.parent.value
    ensures i < |Following(n, ServerMove(g)).clients|
    ensures var n2 := Following(Following(n, ServerMove(g)), ClientMove(i, h));
      Ready(n2, id, td, known) && forall most: nat :: !Settling.StopsWithin(n2, most)
  {
    hide GoodNet, HousedNet, TidyNet, Settling.StopsWithin, Settling.Unrivalled, Steps, Whole;
    var n1 := Following(n, ServerMove(g));
    var n2 := Following(n1, ClientMove(i, h));
    QuietIsReady(n, id, td, known);
    EventKeepsReady(n, ServerMove(g), id, td, known);
    EventKeepsReady(n1, ClientMove(i, h), id, td, known);
    MoveIsPending(n.server, g);
    MoveIsPending(n1.clients[i], h);
    assert RivalHomes(n2.server.p, n2.clients[i].p);
    assert Settling.NothingUnderWay(n2);
    StopsIffUnrivalled(n2, id, td, known);
  }

  lemma MoveIsPending(r: Replica, g: Id)
    requires r.p.parent.value != g
    ensures Rehoused(r, g).p.parent.changed && Rehoused(r, g).p.parent.value == g
  {
  }
}
