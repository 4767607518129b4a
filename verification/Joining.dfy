/** Clients that join while the others run: the server answers INITIALIZE with a full packet, which
    lowers flags that its next flush would have needed.  ParameterServer::_init and
    _sendParameterFull of src/rabbitControl/parameterserver.cpp, beside the flushes of update(). */
module Joining {
  import opened Bytes
  import opened Streams
  import opened TypeDefinitions
  import opened Forest
  import opened Parameters
  import opened ParameterCodec
  import opened ParameterDelta
  import opened Packets
  import opened FullDump
  import opened Synchronisation
  import opened Network
  import Initialisation
  import Settling
  import Convergence

  type Step = Network.Step

  // The server after it wrote the parameter in full; the dirty map is not touched.
  function Dumped(r: Replica): (r': Replica) { r.(p := FlushedParam(r.p, true)) }

  // ---------------------------------------------------------------- the server's side

  lemma FullWriteKeepsFields(p: Param, f: Field)
    requires SetterOnlyFields(p)
    ensures var q := FlushedParam(p, true);
      Of(q, f) == if OnlyValueChanged(p) && f == ValueField then Lower(Of(p, f)) else Of(p, f)
  {
    hide FlushedType, TypeChanged, InitialValue;
  }

  lemma DumpKeepsKind(p: Param)
    ensures SameKind(FlushedType(p.td, true), p.td) && (p.td.Range? <==> FlushedType(p.td, true).Range?)
    ensures InitialValue(FlushedType(p.td, true)) == InitialValue(p.td)
             && IsValueType(FlushedType(p.td, true)) == IsValueType(p.td)
    ensures SendableType(p.td) ==> SendableType(FlushedType(p.td, true))
    ensures forall v :: Fits(FlushedType(p.td, true), v) == Fits(p.td, v)
  {
    hide Power256, Readable, Width, TypeDefinitions.Join, Token;
  }

  // A dump keeps the invariant of the server, and keeps all that it has to send if and only if its
  // value is not its only pending change.
  lemma DumpKeepsPendingIff(r: Replica, id: Id, td: TypeDef)
    requires Good(r, id, td)
    ensures Good(Dumped(r), id, td) && View(Dumped(r).p).values == View(r.p).values
    ensures View(Dumped(r).p) == View(r.p) <==> !OnlyValueChanged(r.p)
  {
    hide FlushedParam, Effective;
    var q := FlushedParam(r.p, true);
    DumpKeepsKind(r.p);
    forall f
      ensures Of(q, f) == if OnlyValueChanged(r.p) && f == ValueField then Lower(Of(r.p, f)) else Of(r.p, f)
      ensures Effective(q, f) == Effective(r.p, f)
    {
      FullWriteKeepsFields(r.p, f);
      KeptEffective(r.p, f);
    }
    DumpKeepsProper(r.p, id, td);
    ViewAt(q, ValueField);
    ViewAt(r.p, ValueField);
    assert OnlyValueChanged(r.p) ==> Of(r.p, ValueField).changed;
  }

  lemma KeptEffective(p: Param, f: Field)
    requires SetterOnlyFields(p)
    ensures Effective(FlushedParam(p, true), f) == Effective(p, f)
  {
    hide FlushedType, TypeChanged, InitialValue;
    DumpKeepsKind(p);
  }

  lemma DumpKeepsProper(p: Param, id: Id, td: TypeDef)
    requires Proper(p, id, td)
    ensures Proper(FlushedParam(p, true), id, td)
  {
    hide FlushedType, SendableType, TypeChanged, Fits, Power256, Readable, FreshType, InitialValue, LanguageCode;
    DumpKeepsKind(p);
  }

  // ---------------------------------------------------------------- the client's side

  function Dump(p: Param): (r: Text) { Initialisation.FullPacket(p) }

  // Who has no parameter yet takes the one that the dump brings.
  function Joiner(x: Param, groups: set<Id>): (r: Replica) { Replica(x, false, groups) }

  lemma DumpBrings(p: Param, groups: set<Id>)
    requires Sendable(p) && SetterOnlyFields(p) && !OnlyValueChanged(p)
    ensures Brings(groups, Dump(p)) == Some(Proxy(p, true, groups))
  {
    hide PacketBytes, ParsePacket, Proxy;
    DumpArrivesIff(p, groups);
  }

  lemma LimitsFit(id: Byte)
    ensures LeastWord(id) < Power256(Width(id)) && Power256(Width(id)) > 0
    ensures IsNumber(id) ==> GreatestWord(id) < Power256(Width(id))
  {
    SmallPowers();
    assert Power256(16) > 0;
  }

  lemma ReceivedTypeIsSendable(td: TypeDef)
    requires SendableType(td)
    ensures SendableType(ReceivedType(td, true)) && SameKind(ReceivedType(td, true), td)
    ensures (td.Range? <==> ReceivedType(td, true).Range?) && InitialValue(ReceivedType(td, true)) == InitialValue(td)
    ensures forall v :: Fits(ReceivedType(td, true), v) == Fits(td, v)
  {
    hide Width, LeastWord, GreatestWord, Power256, Token;
    match td {
      case Number(id, _) => LimitsFit(id);
      case Range(id, _, _) => LimitsFit(id);
      case Simple(id, _) => LimitsFit(id);
      case _ =>
    }
  }

  lemma InitialFits(td: TypeDef)
    ensures Fits(td, InitialValue(td))
  {
    hide Width, Power256;
    match td {
      case Number(id, _) => LimitsFit(id);
      case Range(id, _, _) => LimitsFit(id);
      case Simple(id, _) => LimitsFit(id);
      case _ =>
    }
  }

  // The joiner's copy satisfies the invariant, has nothing to send, and holds what the server holds.
  lemma JoinerIsGood(p: Param, groups: set<Id>, id: Id, td: TypeDef)
    requires Proper(p, id, td)
    ensures Good(Joiner(Proxy(p, true, groups), groups), id, td) && !Joiner(Proxy(p, true, groups), groups).dirty
    ensures View(Proxy(p, true, groups)) == Convergence.Calm(View(p))
  {
    hide Proxy, Of, Effective;
    var q := Proxy(p, true, groups);
    ReceivedTypeIsSendable(p.td);
    InitialFits(p.td);
    JoinerIsProper(p, groups, id, td);
    forall f
      ensures Of(q, f) == Lower(Of(p, f))
      ensures Effective(q, f) == Effective(p, f)
    {
      ProxyField(p, groups, f);
    }
  }

  lemma ProxyField(p: Param, groups: set<Id>, f: Field)
    requires SetterOnlyFields(p) && InitialValue(ReceivedType(p.td, true)) == InitialValue(p.td)
    ensures Of(Proxy(p, true, groups), f) == Lower(Of(p, f))
    ensures Effective(Proxy(p, true, groups), f) == Effective(p, f)
  {
    hide ReceivedType, ReceivedParent, InitialValue;
  }

  lemma JoinerIsProper(p: Param, groups: set<Id>, id: Id, td: TypeDef)
    requires Proper(p, id, td)
    ensures Proper(Proxy(p, true, groups), id, td)
  {
    hide ReceivedType, ReceivedParent, SendableType, Fits, InitialValue;
    ReceivedTypeIsSendable(p.td);
    InitialFits(p.td);
    SmallPowers();
  }

  // ---------------------------------------------------------------- runs with joins

  // A step; INITIALIZE answered, whoever reads it; or with a new client that takes it.
  datatype Event = Act(step: Step) | Answer | Join(groups: set<Id>)

  ghost predicate CanHappen(n: Net, e: Event) {
    match e
    case Act(step) => CanStep(n, step)
    case Answer => true
    case Join(groups) => Brings(groups, Dump(n.server.p)).Some?
  }

  ghost function Then(n: Net, e: Event): (r: Net)
    requires CanHappen(n, e)
  {
    match e
    case Act(step) => After(n, step)
    case Answer => n.(server := Dumped(n.server))
    case Join(groups) =>
      Net(Dumped(n.server), n.clients + [Joiner(Brings(groups, Dump(n.server.p)).value, groups)], n.down + [[]],
          n.up + [[]])
  }

  // The answer does not take anything from the next flush.
  ghost predicate Harmless(n: Net, e: Event) { !e.Act? ==> !OnlyValueChanged(n.server.p) }

  lemma AnswerKeeps(n: Net, id: Id, td: TypeDef)
    requires GoodNet(n, id, td)
    ensures GoodNet(Then(n, Answer), id, td)
    ensures !OnlyValueChanged(n.server.p) ==> Abstract(Then(n, Answer)) == Abstract(n)
  {
    hide Good, AllWellSent, OnlyValueChanged, View, Dumped, Meaning;
    DumpKeepsPendingIff(n.server, id, td);
  }

  lemma JoinKeepsGood(n: Net, x: Param, groups: set<Id>, id: Id, td: TypeDef)
    requires GoodNet(n, id, td) && Good(Dumped(n.server), id, td) && Good(Joiner(x, groups), id, td)
    ensures GoodNet(Net(Dumped(n.server), n.clients + [Joiner(x, groups)], n.down + [[]], n.up + [[]]), id, td)
  {
    hide Good, Dumped, Joiner;
    assert AllWellSent([], id, td);
  }

  lemma JoinKeeps(n: Net, groups: set<Id>, id: Id, td: TypeDef)
    requires GoodNet(n, id, td) && !OnlyValueChanged(n.server.p)
    ensures CanHappen(n, Join(groups)) && GoodNet(Then(n, Join(groups)), id, td)
    ensures var s := Abstract(n);
      Abstract(Then(n, Join(groups)))
          == Convergence.System(s.server, s.clients + [Convergence.Calm(s.server)], s.down + [[]], s.up + [[]])
  {
    hide OnlyValueChanged, AllMeanings, Dumped, Proxy, Dump, Brings, Convergence.Calm;
    var x := Proxy(n.server.p, true, groups);
    DumpKeepsPendingIff(n.server, id, td);
    DumpBrings(n.server.p, groups);
    JoinerIsGood(n.server.p, groups, id, td);
    JoinKeepsGood(n, x, groups, id, td);
    OneMoreView(n.clients, Joiner(x, groups));
    OneMoreChannel(n.down);
    OneMoreChannel(n.up);
  }

  lemma OneMoreView(rs: seq<Replica>, r: Replica)
    ensures Views(rs + [r]) == Views(rs) + [View(r.p)]
  {
    hide View;
  }

  lemma OneMoreChannel(cs: seq<seq<Text>>)
    ensures AllMeanings(cs + [[]]) == AllMeanings(cs) + [[]]
  {
    hide Meaning;
    assert Meanings([]) == [];
  }

  lemma JoinedIsBound<K, V>(s: Convergence.System<K, V>)
    requires Convergence.Invariant(s)
    ensures Convergence.Invariant(Convergence.System(s.server, s.clients + [Convergence.Calm(s.server)], s.down + [[]],
             s.up + [[]]))
  {
    var t := Convergence.System(s.server, s.clients + [Convergence.Calm(s.server)], s.down + [[]], s.up + [[]]);
    forall i, k | 0 <= i < |t.clients| && k in t.server.values
      ensures Convergence.Bound(t.server, t.clients[i], t.down[i], t.up[i], k)
    {
      if i < |s.clients| { assert Convergence.Bound(s.server, s.clients[i], s.down[i], s.up[i], k); }
    }
  }

  // A harmless event keeps what every run has to keep.
  lemma HarmlessKeeps(n: Net, e: Event, id: Id, td: TypeDef)
    requires GoodNet(n, id, td) && Convergence.Invariant(Abstract(n)) && CanHappen(n, e) && Harmless(n, e)
    ensures GoodNet(Then(n, e), id, td) && Convergence.Invariant(Abstract(Then(n, e)))
  {
    hide GoodNet, Abstract, Convergence.Invariant, OnlyValueChanged, After, CanStep;
    match e
    case Act(step) =>
      StepRefines(n, step, id, td);
      Convergence.InvariantIsKept(Abstract(n), step);
    case Answer => AnswerKeeps(n, id, td);
    case Join(groups) =>
      JoinKeeps(n, groups, id, td);
      JoinedIsBound(Abstract(n));
  }

  ghost predicate IsLiveRun(run: seq<Net>, events: seq<Event>) {
    && |run| == |events| + 1
    && forall n :: 0 <= n < |events| ==> CanHappen(run[n], events[n]) && run[n + 1] == Then(run[n], events[n])
  }

  lemma {:induction false} LiveRunsKeep(run: seq<Net>, events: seq<Event>, n: nat, id: Id, td: TypeDef)
    requires IsLiveRun(run, events) && n < |run| && forall m :: 0 <= m < n ==> Harmless(run[m], events[m])
    requires GoodNet(run[0], id, td) && Convergence.Invariant(Abstract(run[0]))
    ensures GoodNet(run[n], id, td) && Convergence.Invariant(Abstract(run[n]))
  {
    hide GoodNet, Convergence.Invariant, Abstract, CanHappen, Then, Harmless;
    if n > 0 {
      LiveRunsKeep(run, events, n - 1, id, td);
      assert run[n - 1 + 1] == Then(run[n - 1], events[n - 1]);
      HarmlessKeeps(run[n - 1], events[n - 1], id, td);
    }
  }

  // With clients joining at any time: whenever all is quiet, all agree, those who joined included,
  // as long as nothing was dumped while its value was its only pending change.
  lemma EveryQuietLiveNetAgrees(run: seq<Net>, events: seq<Event>, n: nat, id: Id, td: TypeDef)
    requires IsLiveRun(run, events) && n < |run| && forall m :: 0 <= m < n ==> Harmless(run[m], events[m])
    requires GoodNet(run[0], id, td) && Quiet(run[0]) && InAgreement(run[0]) && Quiet(run[n])
    ensures InAgreement(run[n])
  {
    assert |run[0].down| == |run[0].clients| && |run[0].up| == |run[0].clients|;
    AbstractIsShaped(run[0]);
    QuietIsQuiescent(run[0], id, td);
    AgreementIsAgreement(run[0]);
    Convergence.AgreedStart(Abstract(run[0]));
    LiveRunsKeep(run, events, n, id, td);
    QuietIsQuiescent(run[n], id, td);
    AgreementIsAgreement(run[n]);
    Convergence.QuietMeansAgreed(Abstract(run[n]));
  }

  // ---------------------------------------------------------------- where it breaks

  // Dumped and then flushed: a replica that agreed on every field without a flag agrees on all of
  // them afterwards, except exactly when the value was the only pending change and differs.
  lemma DumpThenFlushIff(p: Param, q: Param, groups: set<Id>, id: Id, td: TypeDef)
    requires Proper(p, id, td) && Proper(q, id, td)
    requires forall f :: !Of(p, f).changed ==> Effective(q, f) == Effective(p, f)
    ensures var d := FlushedParam(p, true);
      && Brings(groups, Message(d)) == Some(Heard(d, groups))
      && ((forall f :: Effective(Updated(q, Heard(d, groups)), f) == Effective(p, f)) <==>
          !(OnlyValueChanged(p) && Effective(q, ValueField) != Effective(p, ValueField)))
  {
    hide FlushedParam, Heard, Updated, Of, Effective, Message, Brings, OnlyValueChanged;
    var d := FlushedParam(p, true);
    var h := Updated(q, Heard(d, groups));
    DumpKeepsProper(p, id, td);
    MessageArrives(d, id, td, groups);
    forall f
      ensures Effective(h, f) == if Of(p, f).changed && !(OnlyValueChanged(p) && f == ValueField) then Effective(p, f)
               else Effective(q, f)
    {
      FullWriteKeepsFields(p, f);
      KeptEffective(p, f);
      DeltaField(d, q, groups, f);
    }
    if OnlyValueChanged(p) { assert Effective(h, ValueField) == Effective(q, ValueField); }
  }

  // Nothing at all is pending.
  predicate Unflagged(p: Param) { !p.value.changed && !AnyOptionChanged(p) && !TypeChanged(p.td) }

  lemma SetThenDumped(r: Replica, v: Datum, id: Id, td: TypeDef)
    requires Good(r, id, td) && Unflagged(r.p) && Kinded(r.p.td, ValueField, v) && v != Effective(r.p, ValueField)
    ensures var r1 := Set(r, ValueField, v);
      OnlyValueChanged(r1.p) && r1.dirty && !Dumped(r1).p.parent.changed && View(Dumped(r1).p).pending == {}
  {
    hide Effective;
    SetFieldOf(r, ValueField, v, id, td, ValueField);
    SettingIsLearning(r, ValueField, v, id, td);
    var p1 := Set(r, ValueField, v).p;
    assert p1 == WithField(r.p, ValueField, v) && p1.value.changed && OnlyValueChanged(p1) by { hide TypeChanged; }
    forall f
      ensures !Of(FlushedParam(p1, true), f).changed
    {
      FullWriteKeepsFields(p1, f);
      FieldIsSet(r.p, ValueField, v, f);
    }
  }

  lemma OneClientHears(n: Net) returns (n3: Net, n4: Net)
    requires |n.clients| == 1 && n.down == [[]] && n.server.dirty
    ensures CanStep(n, Step.ServerFlush) && n3 == After(n, Step.ServerFlush)
    ensures CanStep(n3, Step.ClientReceive(0)) && n4 == After(n3, Step.ClientReceive(0))
    ensures n3 == Net(Emptied(n.server), n.clients, [[Message(n.server.p)]], n.up)
    ensures n4 == Net(Emptied(n.server), [Hear(n.clients[0], Message(n.server.p))], [[]], n.up)
  {
    hide Emptied, Message, Hear, Brings, Kinded;
    var bytes := Message(n.server.p);
    n3 := After(n, Step.ServerFlush);
    assert n3.down[0] == [] + [bytes] == [bytes];
    assert n3.down == [[bytes]];
    n4 := After(n3, Step.ClientReceive(0));
    assert n4.clients == [Hear(n.clients[0], bytes)] && |n3.down[0][1..]| == 0 && n4.down == [[]];
  }

  // What the client makes of a flush that says nothing.
  lemma EmptyFlushIsHeard(r: Replica, q: Replica, id: Id, td: TypeDef)
    requires Good(r, id, td) && Good(q, id, td) && Settling.Settled(q) && !r.p.parent.changed
    requires View(r.p).pending == {} && View(q.p).pending == {}
    ensures var h := Hear(q, Message(r.p)); !h.dirty && View(h.p) == View(q.p)
    ensures var e := Emptied(r); !e.dirty && View(e.p) == View(r.p)
  {
    hide View, Hear, Message, Meaning, WellSent, Convergence.Learn;
    var bytes := Message(r.p);
    ItsMessageIsWellSent(r, id, td);
    Settling.MessageMovesNobody(r.p, id, td);
    Settling.HearStaysSettled(q, bytes, id, td);
    WellSentIsHeard(q, bytes, id, td);
    EmptyingIsCalm(r, id, td);
    Settling.DirtyIffFlagged(Hear(q, bytes), id, td);
    NothingToLearn(View(q.p));
    assert Convergence.Delta(View(r.p)) == map[];
  }

  lemma NothingToLearn<K, V>(s: Convergence.Site<K, V>)
    ensures Convergence.Learn(s, map[]) == s
  {
    assert s.values + map[] == s.values;
  }

  // Set, dumped and flushed: the server is done, and the client still has the old value.
  lemma StaleReplica(r: Replica, q: Replica, v: Datum, id: Id, td: TypeDef)
    requires Good(r, id, td) && Good(q, id, td) && Settling.Settled(q) && !q.dirty
    requires Effective(q.p, ValueField) == Effective(r.p, ValueField)
    requires Unflagged(r.p) && Kinded(r.p.td, ValueField, v) && v != Effective(r.p, ValueField)
    ensures var d := Dumped(Set(r, ValueField, v));
      var e, h := Emptied(d), Hear(q, Message(d.p));
      && d.dirty && !e.dirty && !h.dirty
      && Effective(e.p, ValueField) == v && Effective(h.p, ValueField) != v
  {
    var s := Set(r, ValueField, v);
    var d := Dumped(s);
    SetThenDumped(r, v, id, td);
    SettingIsLearning(r, ValueField, v, id, td);
    DumpKeepsPendingIff(s, id, td);
    QuietReplica(q, id, td);
    assert d.dirty;
    ViewAt(s.p, ValueField);
    ViewAt(d.p, ValueField);
    ViewAt(q.p, ValueField);
    ViewAt(Emptied(d).p, ValueField);
    ViewAt(Hear(q, Message(d.p)).p, ValueField);
    SetFieldOf(r, ValueField, v, id, td, ValueField);
    EmptyFlushIsHeard(d, q, id, td);
  }

  // A run that ends quiet, and in which the client has not heard of the value and never will.
  lemma AnAnswerLosesTheValue(n: Net, v: Datum, id: Id, td: TypeDef) returns (run: seq<Net>)
    requires GoodNet(n, id, td) && Settling.SettledNet(n) && Quiet(n) && InAgreement(n) && |n.clients| == 1
    requires Unflagged(n.server.p) && Kinded(n.server.p.td, ValueField, v) && v != Effective(n.server.p, ValueField)
    ensures run != [] && run[0] == n
    ensures IsLiveRun(run, [Act(Step.ServerSet(ValueField, v)), Answer, Act(Step.ServerFlush),
             Act(Step.ClientReceive(0))])
    ensures Quiet(run[4]) && !InAgreement(run[4])
  {
    hide *;
    var set1, d := Step.ServerSet(ValueField, v), Dumped(Set(n.server, ValueField, v));
    OneQuietClient(n, id, td);
    StaleReplica(n.server, n.clients[0], v, id, td);
    var n1, n2 := SetAndAnswer(n, v);
    var n3, n4 := OneClientHears(n2);
    run := [n, n1, n2, n3, n4];
    EndsStale(n4);
    LiveRunOfFour(run, set1, Step.ServerFlush, Step.ClientReceive(0));
  }

  lemma OneQuietClient(n: Net, id: Id, td: TypeDef)
    requires GoodNet(n, id, td) && Settling.SettledNet(n) && Quiet(n) && InAgreement(n) && |n.clients| == 1
    ensures n.down == [[]] && n.up == [[]]
    ensures Good(n.server, id, td) && Good(n.clients[0], id, td) && Settling.Settled(n.clients[0])
             && !n.clients[0].dirty
    ensures Effective(n.clients[0].p, ValueField) == Effective(n.server.p, ValueField)
  {
    hide Good, Settling.Settled, Effective, AllWellSent;
  }

  lemma SetAndAnswer(n: Net, v: Datum) returns (n1: Net, n2: Net)
    requires Kinded(n.server.p.td, ValueField, v)
    ensures CanStep(n, Step.ServerSet(ValueField, v)) && n1 == After(n, Step.ServerSet(ValueField, v))
    ensures CanHappen(n1, Answer) && n2 == Then(n1, Answer)
    ensures n2 == n.(server := Dumped(Set(n.server, ValueField, v)))
  {
    hide Kinded, Set, Dumped;
    n1 := After(n, Step.ServerSet(ValueField, v));
    n2 := Then(n1, Answer);
  }

  lemma EndsStale(n: Net)
    requires |n.clients| == 1 && n.down == [[]] && n.up == [[]] && !n.server.dirty && !n.clients[0].dirty
    requires Effective(n.clients[0].p, ValueField) != Effective(n.server.p, ValueField)
    ensures Quiet(n) && !InAgreement(n)
  {
    hide Effective;
  }

  lemma LiveRunOfFour(run: seq<Net>, a: Step, b: Step, c: Step)
    requires |run| == 5 && CanStep(run[0], a) && run[1] == After(run[0], a) && run[2] == Then(run[1], Answer)
    requires CanStep(run[2], b) && run[3] == After(run[2], b) && CanStep(run[3], c) && run[4] == After(run[3], c)
    ensures IsLiveRun(run, [Act(a), Answer, Act(b), Act(c)])
  {
    hide After, CanStep;
  }
}
