/** Runs of a server and its clients over octet channels, and that they refine Convergence. */
module Network {
  import opened Bytes
  import opened Streams
  import opened TypeDefinitions
  import opened Forest
  import opened Parameters
  import opened ParameterDelta
  import opened Packets
  import opened Synchronisation
  import Convergence
  import ParameterCodec

  type Step = Convergence.Step<Field, Datum>

  datatype Net = Net(server: Replica, clients: seq<Replica>, down: seq<seq<Text>>, up: seq<seq<Text>>)

  ghost predicate CanStep(n: Net, step: Step) {
    match step
    case ServerSet(f, d) => Kinded(n.server.p.td, f, d)
    case ClientSet(i, f, d) => i < |n.clients| && Kinded(n.clients[i].p.td, f, d)
    case ServerFlush => n.server.dirty
    case ClientFlush(i) => i < |n.clients| && i < |n.up| && n.clients[i].dirty
    case ServerReceive(i) => i < |n.up| && n.up[i] != []
    case ClientReceive(i) => i < |n.clients| && i < |n.down| && n.down[i] != []
  }

  // The server passes on what it could read, to everybody else.
  ghost function After(n: Net, step: Step): (r: Net)
    requires CanStep(n, step)
  {
    match step
    case ServerSet(f, d) => n.(server := Set(n.server, f, d))
    case ClientSet(i, f, d) => n.(clients := n.clients[i := Set(n.clients[i], f, d)])
    case ServerFlush => n.(server := Emptied(n.server), down := Convergence.SendToAll(n.down, Message(n.server.p), -1))
    case ClientFlush(i) =>
      n.(clients := n.clients[i := Emptied(n.clients[i])], up := n.up[i := n.up[i] + [Message(n.clients[i].p)]])
    case ServerReceive(i) =>
      var bytes := n.up[i][0];
      n.(server := Hear(n.server, bytes), up := n.up[i := n.up[i][1..]],
         down := if Brings(n.server.groups, bytes).Some? then Convergence.SendToAll(n.down, bytes, i) else n.down)
    case ClientReceive(i) =>
      n.(clients := n.clients[i := Hear(n.clients[i], n.down[i][0])], down := n.down[i := n.down[i][1..]])
  }

  // ---------------------------------------------------------------- what holds in every run

  ghost predicate AllWellSent(c: seq<Text>, id: Id, td: TypeDef) { forall j :: 0 <= j < |c| ==> WellSent(c[j], id, td) }

  ghost predicate GoodNet(n: Net, id: Id, td: TypeDef) {
    && |n.down| == |n.clients| && |n.up| == |n.clients|
    && Good(n.server, id, td)
    && (forall i :: 0 <= i < |n.clients| ==> Good(n.clients[i], id, td))
    && (forall i :: 0 <= i < |n.down| ==> AllWellSent(n.down[i], id, td))
    && (forall i :: 0 <= i < |n.up| ==> AllWellSent(n.up[i], id, td))
  }

  ghost function Meanings(c: seq<Text>): (r: Convergence.Channel<Field, Datum>) {
    seq(|c|, j requires 0 <= j < |c| => Meaning(c[j]))
  }

  ghost function AllMeanings(cs: seq<seq<Text>>): (r: seq<Convergence.Channel<Field, Datum>>) {
    seq(|cs|, i requires 0 <= i < |cs| => Meanings(cs[i]))
  }

  ghost function Views(rs: seq<Replica>): (r: seq<Convergence.Site<Field, Datum>>) {
    seq(|rs|, i requires 0 <= i < |rs| => View(rs[i].p))
  }

  ghost function Abstract(n: Net): (r: Convergence.System<Field, Datum>) {
    Convergence.System(View(n.server.p), Views(n.clients), AllMeanings(n.down), AllMeanings(n.up))
  }

  ghost predicate Full(m: set<Field>) { forall f: Field :: f in m }

  lemma ViewIsFull(p: Param)
    ensures Full(View(p).values.Keys)
  {
    hide Of, Effective;
  }

  lemma AbstractIsShaped(n: Net)
    requires |n.down| == |n.clients| && |n.up| == |n.clients|
    ensures Convergence.Shaped(Abstract(n))
  {
    hide View, Meaning;
    ViewIsFull(n.server.p);
    forall i | 0 <= i < |n.clients|
      ensures View(n.clients[i].p).values.Keys == View(n.server.p).values.Keys
    {
      ViewIsFull(n.clients[i].p);
    }
  }

  lemma PushMeaning(cs: seq<seq<Text>>, bytes: Text, except: int)
    ensures AllMeanings(Convergence.SendToAll(cs, bytes, except))
             == Convergence.SendToAll(AllMeanings(cs), Meaning(bytes), except)
  {
    hide Meaning;
    forall i | 0 <= i < |cs|
      ensures Meanings(cs[i] + [bytes]) == Meanings(cs[i]) + [Meaning(bytes)]
    {
    }
  }

  lemma ReplaceMeaning(cs: seq<seq<Text>>, i: nat, c: seq<Text>)
    requires i < |cs|
    ensures AllMeanings(cs[i := c]) == AllMeanings(cs)[i := Meanings(c)]
    ensures cs[i] != [] ==> Meanings(cs[i][1..]) == Meanings(cs[i])[1..]
    ensures forall m :: Meanings(cs[i] + [m]) == Meanings(cs[i]) + [Meaning(m)]
  {
    hide Meaning;
  }

  lemma ReplaceView(rs: seq<Replica>, i: nat, r: Replica)
    requires i < |rs|
    ensures Views(rs[i := r]) == Views(rs)[i := View(r.p)]
  {
    hide View;
  }

  lemma ItsMessageIsWellSent(r: Replica, id: Id, td: TypeDef)
    requires Good(r, id, td)
    ensures WellSent(Message(r.p), id, td) && Meaning(Message(r.p)) == Convergence.Delta(View(r.p))
  {
    hide Message;
    MessageMeans(r.p, id, td);
  }

  lemma WellSentIsHeard(r: Replica, bytes: Text, id: Id, td: TypeDef)
    requires Good(r, id, td) && WellSent(bytes, id, td)
    ensures Brings(r.groups, bytes).Some? && Good(Hear(r, bytes), id, td)
    ensures Meaning(bytes).Keys <= View(r.p).values.Keys
    ensures View(Hear(r, bytes).p) == Convergence.Learn(View(r.p), Meaning(bytes))
  {
    hide Message, Proper, Good, Hear, View, Meaning;
    var p :| Proper(p, id, td) && bytes == Message(p);
    MessageArrives(p, id, td, r.groups);
    HearingIsLearning(r, p, id, td);
  }

  // ---------------------------------------------------------------- the refinement

  lemma AbstractIsEnabled(n: Net, step: Step)
    requires |n.down| == |n.clients| && |n.up| == |n.clients| && CanStep(n, step)
    ensures Convergence.Shaped(Abstract(n)) && Convergence.Enabled(Abstract(n), step)
    ensures |Views(n.clients)| == |n.clients|
    ensures |AllMeanings(n.down)| == |n.down| && |AllMeanings(n.up)| == |n.up|
  {
    hide Kinded, Meaning, View;
    AbstractIsShaped(n);
    ViewIsFull(n.server.p);
  }

  lemma PushedIsWellSent(cs: seq<seq<Text>>, bytes: Text, except: int, id: Id, td: TypeDef)
    requires WellSent(bytes, id, td) && forall i :: 0 <= i < |cs| ==> AllWellSent(cs[i], id, td)
    ensures var r := Convergence.SendToAll(cs, bytes, except); forall i :: 0 <= i < |r| ==> AllWellSent(r[i], id, td)
    ensures forall i :: 0 <= i < |cs| ==> AllWellSent(cs[i] + [bytes], id, td)
  {
    hide WellSent;
    forall i | 0 <= i < |cs|
      ensures AllWellSent(cs[i] + [bytes], id, td)
    {
    }
  }

  lemma PoppedIsWellSent(c: seq<Text>, id: Id, td: TypeDef)
    requires c != [] && AllWellSent(c, id, td)
    ensures AllWellSent(c[1..], id, td) && WellSent(c[0], id, td)
  {
    hide WellSent;
  }

  lemma ClientReplaced(n: Net, i: nat, r: Replica, id: Id, td: TypeDef)
    requires GoodNet(n, id, td) && i < |n.clients| && Good(r, id, td)
    ensures GoodNet(n.(clients := n.clients[i := r]), id, td)
  {
    hide Good, AllWellSent;
  }

  lemma ChannelsReplaced(n: Net, down: seq<seq<Text>>, up: seq<seq<Text>>, id: Id, td: TypeDef)
    requires GoodNet(n, id, td) && |down| == |n.down| && |up| == |n.up|
    requires forall i :: 0 <= i < |down| ==> AllWellSent(down[i], id, td)
    requires forall i :: 0 <= i < |up| ==> AllWellSent(up[i], id, td)
    ensures GoodNet(n.(down := down, up := up), id, td)
  {
    hide Good, AllWellSent;
  }

  lemma OneChannelReplaced(cs: seq<seq<Text>>, i: nat, c: seq<Text>, id: Id, td: TypeDef)
    requires i < |cs| && AllWellSent(c, id, td) && forall j :: 0 <= j < |cs| ==> AllWellSent(cs[j], id, td)
    ensures var r := cs[i := c]; forall j :: 0 <= j < |r| ==> AllWellSent(r[j], id, td)
  {
    hide AllWellSent;
  }

  lemma ViewsAt(rs: seq<Replica>, i: nat)
    requires i < |rs|
    ensures |Views(rs)| == |rs| && Views(rs)[i] == View(rs[i].p)
  {
  }

  lemma MeaningsAt(cs: seq<seq<Text>>, i: nat)
    requires i < |cs|
    ensures |AllMeanings(cs)| == |cs| && AllMeanings(cs)[i] == Meanings(cs[i])
    ensures cs[i] != [] ==> Meanings(cs[i]) != [] && Meanings(cs[i])[0] == Meaning(cs[i][0])
  {
  }

  lemma ServerSetRefines(n: Net, f: Field, d: Datum, id: Id, td: TypeDef)
    requires GoodNet(n, id, td) && Kinded(n.server.p.td, f, d)
    requires Convergence.Shaped(Abstract(n)) && Convergence.Enabled(Abstract(n), Step.ServerSet(f, d))
    ensures GoodNet(After(n, Step.ServerSet(f, d)), id, td)
    ensures Abstract(After(n, Step.ServerSet(f, d))) == Convergence.Next(Abstract(n), Step.ServerSet(f, d))
  {
    hide AllWellSent, Good, Set, View, Views, AllMeanings, Meanings, Kinded, Convergence.Shaped, Convergence.Learn;
    SettingIsLearning(n.server, f, d, id, td);
  }

  lemma ClientSetRefines(n: Net, i: nat, f: Field, d: Datum, id: Id, td: TypeDef)
    requires GoodNet(n, id, td) && i < |n.clients| && Kinded(n.clients[i].p.td, f, d)
    requires Convergence.Shaped(Abstract(n)) && Convergence.Enabled(Abstract(n), Step.ClientSet(i, f, d))
    ensures GoodNet(After(n, Step.ClientSet(i, f, d)), id, td)
    ensures Abstract(After(n, Step.ClientSet(i, f, d))) == Convergence.Next(Abstract(n), Step.ClientSet(i, f, d))
  {
    hide Good, Set, View, Views, AllMeanings, Kinded, Convergence.Shaped, Convergence.Learn;
    var r := Set(n.clients[i], f, d);
    SettingIsLearning(n.clients[i], f, d, id, td);
    ReplaceView(n.clients, i, r);
    ViewsAt(n.clients, i);
    ClientReplaced(n, i, r, id, td);
  }

  lemma ServerFlushRefines(n: Net, id: Id, td: TypeDef)
    requires GoodNet(n, id, td) && n.server.dirty
    requires Convergence.Shaped(Abstract(n))
    ensures GoodNet(After(n, Step.ServerFlush), id, td)
    ensures Abstract(After(n, Step.ServerFlush)) == Convergence.Next(Abstract(n), Step.ServerFlush)
  {
    hide Emptied, WellSent, Views, AllMeanings, Meanings, AllWellSent, Convergence.Delta, Convergence.Calm,
        Convergence.SendToAll;
    var down := Convergence.SendToAll(n.down, Message(n.server.p), -1);
    EmptyingIsCalm(n.server, id, td);
    ItsMessageIsWellSent(n.server, id, td);
    PushMeaning(n.down, Message(n.server.p), -1);
    PushedIsWellSent(n.down, Message(n.server.p), -1, id, td);
    ChannelsReplaced(n, down, n.up, id, td);
    ServerHeard(n, Emptied(n.server), down, n.up, id, td);
  }

  lemma ClientFlushKeeps(n: Net, i: nat, id: Id, td: TypeDef)
    requires GoodNet(n, id, td) && i < |n.clients| && n.clients[i].dirty
    ensures GoodNet(After(n, Step.ClientFlush(i)), id, td)
  {
    hide View, Meaning, Message, Emptied;
    var r, m := Emptied(n.clients[i]), Message(n.clients[i].p);
    var up := n.up[i := n.up[i] + [m]];
    EmptyingIsCalm(n.clients[i], id, td);
    ItsMessageIsWellSent(n.clients[i], id, td);
    PushedIsWellSent(n.up, m, -1, id, td);
    OneChannelReplaced(n.up, i, n.up[i] + [m], id, td);
    ClientReplaced(n, i, r, id, td);
    ChannelsReplaced(n.(clients := n.clients[i := r]), n.down, up, id, td);
    assert |n.up| == |n.clients|;
    assert After(n, Step.ClientFlush(i)) == n.(clients := n.clients[i := r], up := up);
  }

  lemma ClientFlushRefines(n: Net, i: nat, id: Id, td: TypeDef)
    requires GoodNet(n, id, td) && i < |n.clients| && n.clients[i].dirty
    requires Convergence.Shaped(Abstract(n)) && Convergence.Enabled(Abstract(n), Step.ClientFlush(i))
    ensures GoodNet(After(n, Step.ClientFlush(i)), id, td)
    ensures Abstract(After(n, Step.ClientFlush(i))) == Convergence.Next(Abstract(n), Step.ClientFlush(i))
  {
    hide Meaning, Message, Emptied, Views, Meanings, Convergence.Shaped, Convergence.Delta, Convergence.Calm;
    assert |n.up| == |n.clients|;
    ClientFlushKeeps(n, i, id, td);
    EmptyingIsCalm(n.clients[i], id, td);
    ItsMessageIsWellSent(n.clients[i], id, td);
    ReplaceView(n.clients, i, Emptied(n.clients[i]));
    ReplaceMeaning(n.up, i, n.up[i] + [Message(n.clients[i].p)]);
    ViewsAt(n.clients, i);
    MeaningsAt(n.up, i);
    var r, m := Emptied(n.clients[i]), Message(n.clients[i].p);
    var n' := n.(clients := n.clients[i := r], up := n.up[i := n.up[i] + [m]]);
    assert After(n, Step.ClientFlush(i)) == n';
    var t := Abstract(n');
    var t' := Convergence.Next(Abstract(n), Step.ClientFlush(i));
    assert t.server == t'.server && t.down == t'.down;
    assert t.clients == t'.clients;
    assert t.up == t'.up;
  }

  lemma ServerHeard(n: Net, r: Replica, down: seq<seq<Text>>, up: seq<seq<Text>>, id: Id, td: TypeDef)
    requires GoodNet(n.(down := down, up := up), id, td) && Good(r, id, td)
    ensures GoodNet(n.(server := r, down := down, up := up), id, td)
  {
    hide Good, AllWellSent;
  }

  // What the server passes on, and what is left in the channel, is well sent too.
  lemma ChannelsAfterReceive(n: Net, i: nat, id: Id, td: TypeDef)
    requires GoodNet(n, id, td) && i < |n.up| && n.up[i] != []
    ensures WellSent(n.up[i][0], id, td)
    ensures var down, up := Convergence.SendToAll(n.down, n.up[i][0], i), n.up[i := n.up[i][1..]];
      GoodNet(n.(down := down, up := up), id, td)
  {
    hide Good, WellSent, AllWellSent;
    var bytes := n.up[i][0];
    var down, up := Convergence.SendToAll(n.down, bytes, i), n.up[i := n.up[i][1..]];
    PoppedIsWellSent(n.up[i], id, td);
    PushedIsWellSent(n.down, bytes, i, id, td);
    OneChannelReplaced(n.up, i, n.up[i][1..], id, td);
    ChannelsReplaced(n, down, up, id, td);
  }

  lemma ServerReceiveKeeps(n: Net, i: nat, id: Id, td: TypeDef)
    requires GoodNet(n, id, td) && i < |n.up| && n.up[i] != []
    ensures GoodNet(After(n, Step.ServerReceive(i)), id, td)
    ensures After(n, Step.ServerReceive(i)).down == Convergence.SendToAll(n.down, n.up[i][0], i)
    ensures WellSent(n.up[i][0], id, td)
  {
    hide Good, View, Hear, Brings, WellSent, AllWellSent, Convergence.Learn, Convergence.SendToAll;
    var bytes := n.up[i][0];
    ChannelsAfterReceive(n, i, id, td);
    WellSentIsHeard(n.server, bytes, id, td);
    ServerHeard(n, Hear(n.server, bytes), Convergence.SendToAll(n.down, bytes, i), n.up[i := n.up[i][1..]], id, td);
  }

  lemma ServerReceiveRefines(n: Net, i: nat, id: Id, td: TypeDef)
    requires GoodNet(n, id, td) && i < |n.up| && n.up[i] != []
    requires Convergence.Shaped(Abstract(n)) && Convergence.Enabled(Abstract(n), Step.ServerReceive(i))
    ensures GoodNet(After(n, Step.ServerReceive(i)), id, td)
    ensures Abstract(After(n, Step.ServerReceive(i))) == Convergence.Next(Abstract(n), Step.ServerReceive(i))
  {
    hide View, Meaning, WellSent, Views, Convergence.Shaped, Convergence.Learn;
    ServerReceiveKeeps(n, i, id, td);
    WellSentIsHeard(n.server, n.up[i][0], id, td);
    PushMeaning(n.down, n.up[i][0], i);
    ReplaceMeaning(n.up, i, n.up[i][1..]);
    MeaningsAt(n.up, i);
    var t := Abstract(After(n, Step.ServerReceive(i)));
    var t' := Convergence.Next(Abstract(n), Step.ServerReceive(i));
    assert t.server == t'.server && t.clients == t'.clients;
    assert t.down == t'.down;
    assert t.up == t'.up;
  }

  lemma ClientReceiveRefines(n: Net, i: nat, id: Id, td: TypeDef)
    requires GoodNet(n, id, td) && i < |n.down| && n.down[i] != []
    requires Convergence.Shaped(Abstract(n)) && Convergence.Enabled(Abstract(n), Step.ClientReceive(i))
    ensures GoodNet(After(n, Step.ClientReceive(i)), id, td)
    ensures Abstract(After(n, Step.ClientReceive(i))) == Convergence.Next(Abstract(n), Step.ClientReceive(i))
  {
    hide Meaning, Hear, WellSent, Views, AllMeanings, Meanings, AllWellSent, Convergence.Shaped;
    var bytes := n.down[i][0];
    var r, down := Hear(n.clients[i], bytes), n.down[i := n.down[i][1..]];
    PoppedIsWellSent(n.down[i], id, td);
    WellSentIsHeard(n.clients[i], bytes, id, td);
    OneChannelReplaced(n.down, i, n.down[i][1..], id, td);
    ClientReplaced(n, i, r, id, td);
    ChannelsReplaced(n.(clients := n.clients[i := r]), down, n.up, id, td);
    ReplaceView(n.clients, i, r);
    ReplaceMeaning(n.down, i, n.down[i][1..]);
    ViewsAt(n.clients, i);
    MeaningsAt(n.down, i);
    var n' := n.(clients := n.clients[i := r], down := down);
    assert After(n, Step.ClientReceive(i)) == n' && |n.down| == |n.clients|;
    var t := Abstract(n');
    var t' := Convergence.Next(Abstract(n), Step.ClientReceive(i));
    assert t.server == t'.server && t.up == t'.up;
    assert t.clients == t'.clients;
    assert t.down == t'.down;
  }

  // Every step on octets is the same step of the abstract protocol.
  lemma StepRefines(n: Net, step: Step, id: Id, td: TypeDef)
    requires GoodNet(n, id, td) && CanStep(n, step)
    ensures GoodNet(After(n, step), id, td) && Convergence.Shaped(Abstract(n)) && Convergence.Enabled(Abstract(n), step)
    ensures Abstract(After(n, step)) == Convergence.Next(Abstract(n), step)
  {
    hide After, Abstract, Convergence.Next, Convergence.Enabled, Convergence.Shaped;
    AbstractIsEnabled(n, step);
    match step
    case ServerSet(f, d) => ServerSetRefines(n, f, d, id, td);
    case ClientSet(i, f, d) => ClientSetRefines(n, i, f, d, id, td);
    case ServerFlush => ServerFlushRefines(n, id, td);
    case ClientFlush(i) => ClientFlushRefines(n, i, id, td);
    case ServerReceive(i) => ServerReceiveRefines(n, i, id, td);
    case ClientReceive(i) => ClientReceiveRefines(n, i, id, td);
  }

  // ---------------------------------------------------------------- runs

  ghost predicate IsNetRun(run: seq<Net>, steps: seq<Step>) {
    && |run| == |steps| + 1
    && forall n :: 0 <= n < |steps| ==> CanStep(run[n], steps[n]) && run[n + 1] == After(run[n], steps[n])
  }

  // Every channel is empty and no dirty map holds the parameter.
  ghost predicate Quiet(n: Net) {
    && !n.server.dirty && (forall i :: 0 <= i < |n.clients| ==> !n.clients[i].dirty)
    && (forall i :: 0 <= i < |n.down| ==> n.down[i] == []) && (forall i :: 0 <= i < |n.up| ==> n.up[i] == [])
  }

  ghost predicate InAgreement(n: Net) {
    forall i, f :: 0 <= i < |n.clients| ==> Effective(n.clients[i].p, f) == Effective(n.server.p, f)
  }

  lemma {:induction false} RunsStayGood(run: seq<Net>, steps: seq<Step>, n: nat, id: Id, td: TypeDef)
    requires IsNetRun(run, steps) && GoodNet(run[0], id, td) && n < |run|
    ensures GoodNet(run[n], id, td)
  {
    hide GoodNet, CanStep, After;
    if n > 0 {
      RunsStayGood(run, steps, n - 1, id, td);
      assert run[n - 1 + 1] == After(run[n - 1], steps[n - 1]);
      StepRefines(run[n - 1], steps[n - 1], id, td);
    }
  }

  ghost function AbstractRun(run: seq<Net>): (r: seq<Convergence.System<Field, Datum>>) {
    seq(|run|, n requires 0 <= n < |run| => Abstract(run[n]))
  }

  lemma RunsRefine(run: seq<Net>, steps: seq<Step>, id: Id, td: TypeDef)
    requires IsNetRun(run, steps) && GoodNet(run[0], id, td)
    ensures Convergence.IsRun(AbstractRun(run), steps)
  {
    hide GoodNet, CanStep, After, Abstract, Convergence.Next, Convergence.Enabled, Convergence.Shaped;
    forall n | 0 <= n < |steps|
      ensures Convergence.Shaped(Abstract(run[n])) && Convergence.Enabled(Abstract(run[n]), steps[n])
           && Abstract(run[n + 1]) == Convergence.Next(Abstract(run[n]), steps[n])
    {
      RunsStayGood(run, steps, n, id, td);
      StepRefines(run[n], steps[n], id, td);
    }
  }

  lemma QuietReplica(r: Replica, id: Id, td: TypeDef)
    requires Good(r, id, td) && !r.dirty
    ensures View(r.p).pending == {}
  {
    assert forall f :: f in View(r.p).pending ==> Of(r.p, f).changed;
  }

  lemma QuietIsQuiescent(n: Net, id: Id, td: TypeDef)
    requires GoodNet(n, id, td) && Quiet(n)
    ensures Convergence.Quiescent(Abstract(n))
  {
    hide Good, View, AllWellSent, Meaning;
    QuietReplica(n.server, id, td);
    forall i | 0 <= i < |n.clients|
      ensures View(n.clients[i].p).pending == {}
    {
      QuietReplica(n.clients[i], id, td);
    }
  }

  lemma AgreementIsAgreement(n: Net)
    ensures InAgreement(n) <==> Convergence.Agree(Abstract(n))
  {
    hide View, Effective, AllMeanings, Meanings;
    forall i | 0 <= i < |n.clients|
      ensures View(n.clients[i].p).values == View(n.server.p).values <==>
               forall f :: Effective(n.clients[i].p, f) == Effective(n.server.p, f)
    {
      SameViews(n.clients[i].p, n.server.p);
    }
    assert forall i :: 0 <= i < |n.clients| ==> Abstract(n).clients[i] == View(n.clients[i].p);
  }

  lemma SameViews(p: Param, q: Param)
    ensures View(p).values == View(q).values <==> forall f :: Effective(p, f) == Effective(q, f)
  {
    hide Of, Effective;
    if View(p).values == View(q).values {
      forall f
        ensures Effective(p, f) == Effective(q, f)
      {
        ViewAt(p, f);
        ViewAt(q, f);
      }
    }
  }

  // A server and clients that hold the parameter as it was made.
  function FreshNet(id: Id, td: TypeDef, count: nat): (n: Net) {
    var r := Replica(FreshParam(id, td), false, {});
    Net(r, seq(count, _ => r), seq(count, _ => []), seq(count, _ => []))
  }

  lemma FreshNetIsGood(id: Id, td: TypeDef, count: nat)
    requires SendableType(td) && !td.Range?
    ensures var n := FreshNet(id, td, count); GoodNet(n, id, td) && Quiet(n) && InAgreement(n)
  {
    hide Power256, FreshType, SendableType;
    SmallPowers();
    assert Good(FreshNet(id, td, count).server, id, td);
  }

  // In every run of setters, flushes, deliveries and forwards, with the packets as octets:
  // whenever all channels are empty and no dirty map holds the parameter, all replicas agree.
  lemma EveryQuietNetAgrees(run: seq<Net>, steps: seq<Step>, n: nat, id: Id, td: TypeDef)
    requires IsNetRun(run, steps) && GoodNet(run[0], id, td) && n < |run|
    requires Quiet(run[0]) && InAgreement(run[0]) && Quiet(run[n])
    ensures InAgreement(run[n])
  {
    hide IsNetRun, Quiet, InAgreement, Abstract, Convergence.IsRun, Convergence.Quiescent, Convergence.Agree,
        Convergence.Shaped;
    RunsRefine(run, steps, id, td);
    RunsStayGood(run, steps, n, id, td);
    QuietIsQuiescent(run[0], id, td);
    QuietIsQuiescent(run[n], id, td);
    AgreementIsAgreement(run[0]);
    AgreementIsAgreement(run[n]);
    AbstractIsShaped(run[0]);
    Convergence.EveryQuietStateAgrees(AbstractRun(run), steps, n);
  }

  // A value that one side sets while all is quiet, and no other set rivals, reaches every replica.
  lemma LoneSetReachesAll(run: seq<Net>, steps: seq<Step>, n: nat, f: Field, d: Datum, id: Id, td: TypeDef)
    requires IsNetRun(run, steps) && GoodNet(run[0], id, td) && 0 < n < |run|
    requires Quiet(run[0]) && InAgreement(run[0]) && Quiet(run[n])
    requires Convergence.IsSet(steps[0]) && steps[0].k == f && steps[0].v == d
    requires forall m :: 0 < m < n && Convergence.IsSet(steps[m]) ==> steps[m].k != f
    ensures Effective(run[n].server.p, f) == d
    ensures forall i :: 0 <= i < |run[n].clients| ==> Effective(run[n].clients[i].p, f) == d
  {
    hide IsNetRun, GoodNet, Quiet, Effective, Convergence.Quiescent, Convergence.Agree, View;
    RunsRefine(run, steps, id, td);
    RunsStayGood(run, steps, n, id, td);
    QuietIsQuiescent(run[0], id, td);
    QuietIsQuiescent(run[n], id, td);
    AgreementIsAgreement(run[0]);
    AbstractIsShaped(run[0]);
    EveryQuietNetAgrees(run, steps, n, id, td);
    ViewAt(run[n].server.p, f);
    var abstracts := AbstractRun(run);
    assert abstracts[n].server == View(run[n].server.p);
    Convergence.LoneSetPrevails(abstracts, steps, n, f, d);
  }

  // The value-only packet of a range parameter is dropped: nobody learns the new value.
  lemma RangeValueIsLost(p: Param, r: Replica)
    requires ParameterCodec.Sendable(p) && p.td.Range? && OnlyValueChanged(p)
    ensures Hear(r, Message(p)) == r && Brings(r.groups, Message(p)).None?
  {
    hide ParseUpdateValue, ShortBytes, LongBytes, ParameterCodec.Sendable;
    ParameterCodec.ShortReadsBack(p, []);
    var b := ShortBytes(p);
    assert Message(p) == [UPDATEVALUE] + b;
    assert ([UPDATEVALUE] + b)[1..] == b && b + [] == b;
  }
}
