/** Moves to another group, beside everything else a run does: the parent link is sent, heard and
    echoed like a field, but only by replicas that know the group.  setParent and update() of
    src/rabbitControl/parameter_intern.h, with the flushes of parameterserver.cpp and
    parameterclient.cpp. */
module Moving {
  import opened Bytes
  import opened Streams
  import opened Options
  import opened TypeDefinitions
  import opened Forest
  import opened Parameters
  import opened ParameterDelta
  import opened Synchronisation
  import opened Network
  import Convergence

  type Step = Network.Step

  // ---------------------------------------------------------------- one link

  // addChild of another group: the parameter is moved, and entered in the dirty map.
  function Rehoused(r: Replica, g: Id): (r': Replica) {
    r.(p := Moved(r.p, Opt(true, g, false)), dirty := r.dirty || Moves(r.p, Opt(true, g, false)))
  }

  // A pending parent is a group that everybody knows; no parent is written as the root.
  predicate Homed(p: Param, known: set<Id>) {
    && (p.parent.changed ==> p.parent.has && p.parent.value in known)
    && (!p.parent.has ==> p.parent == Fresh(ROOT))
  }

  predicate Housed(r: Replica, known: set<Id>) {
    Homed(r.p, known) && known <= r.groups && ROOT !in known && (r.dirty || !r.p.parent.changed)
  }

  ghost predicate HomeSent(bytes: Text, id: Id, td: TypeDef, known: set<Id>) {
    exists p :: Proper(p, id, td) && Homed(p, known) && bytes == Message(p)
  }

  datatype Link = Parent

  // The link of one replica: where it hangs, and whether that is still to be sent.
  function Home(p: Param): (r: Convergence.Site<Link, Id>) {
    Convergence.Site(map[Parent := p.parent.value], if p.parent.changed then {Parent} else {})
  }

  // What a packet says about it, to whoever knows the groups.
  function Told(bytes: Text, known: set<Id>): (r: map<Link, Id>) {
    var x := Brings(known, bytes);
    if x.Some? && x.value.parent.has then map[Parent := x.value.parent.value] else map[]
  }

  // One flush heard: the replica hangs where the writer does, if it did before, or if the move
  // was pending and its group is known and not the root.
  lemma MoveArrivesIff(p: Param, q: Param, groups: set<Id>)
    requires q.id == p.id && (!p.parent.has ==> p.parent.value == ROOT) && (!q.parent.has ==> q.parent.value == ROOT)
    ensures Applied(q, Heard(p, groups)).parent.value == p.parent.value <==>
      q.parent.value == p.parent.value || (p.parent.changed && p.parent.value != ROOT && p.parent.value in groups)
  {
    hide Heard, SameKind, SetFrom, IsValueType;
    HeardParent(p, groups);
  }

  lemma HeardParent(p: Param, groups: set<Id>)
    requires !p.parent.has ==> p.parent.value == ROOT
    ensures Heard(p, groups).id == p.id
    ensures Heard(p, groups).parent.has <==> p.parent.changed && p.parent.value != ROOT && p.parent.value in groups
    ensures Heard(p, groups).parent.has ==> Heard(p, groups).parent.value == p.parent.value
  {
    hide ReceivedType, FreshType, TypeChanged, InitialValue;
  }

  lemma MessageTells(p: Param, id: Id, td: TypeDef, known: set<Id>)
    requires Proper(p, id, td) && Homed(p, known) && ROOT !in known
    ensures Told(Message(p), known) == Convergence.Delta(Home(p))
  {
    hide Message, Brings, Heard, Proper;
    MessageArrives(p, id, td, known);
    HeardParent(p, known);
  }

  // Hearing a flush is learning where the writer hangs.
  lemma HearingMoves(r: Replica, p: Param, id: Id, td: TypeDef, known: set<Id>)
    requires Good(r, id, td) && Housed(r, known) && Proper(p, id, td) && Homed(p, known)
    ensures Housed(Hear(r, Message(p)), known)
    ensures Told(Message(p), known).Keys <= {Parent}
    ensures Home(Hear(r, Message(p)).p) == Convergence.Learn(Home(r.p), Told(Message(p), known))
  {
    hide Message, Brings, Told;
    MessageTells(p, id, td, known);
    HearingKeepsGood(r, p, id, td);
    HeardParent(p, r.groups);
    var h := Heard(p, r.groups);
    assert Hear(r, Message(p)) == Learnt(r, h) && Updated(r.p, h).parent == r.p.parent && h.id == r.p.id;
    LearnOne(Home(r.p), Told(Message(p), known), Home(Learnt(r, h).p));
  }

  lemma LearnOne(s: Convergence.Site<Link, Id>, m: map<Link, Id>, s': Convergence.Site<Link, Id>)
    requires s.values.Keys == {Parent} && s'.values.Keys == {Parent} && s.pending <= {Parent} && s'.pending <= {Parent}
    requires m.Keys <= {Parent}
    requires s'.values[Parent] == if Parent in m then m[Parent] else s.values[Parent]
    requires Parent in s'.pending <==> Parent in s.pending || (Parent in m && m[Parent] != s.values[Parent])
    ensures s' == Convergence.Learn(s, m)
  {
    Convergence.LearnPointwise(s, m, s');
  }

  lemma FlushKeepsHome(r: Replica, id: Id, td: TypeDef, known: set<Id>)
    requires Housed(r, known)
    ensures Housed(Emptied(r), known) && Home(Emptied(r).p) == Convergence.Calm(Home(r.p))
  {
    hide FlushedType, TypeChanged;
  }

  lemma SetKeepsHome(r: Replica, f: Field, d: Datum, known: set<Id>)
    requires Kinded(r.p.td, f, d) && Housed(r, known)
    ensures Housed(Set(r, f, d), known) && Home(Set(r, f, d).p) == Home(r.p)
  {
    hide Kinded, Differs;
  }

  lemma RehousingIsLearning(r: Replica, g: Id, id: Id, td: TypeDef, known: set<Id>)
    requires Good(r, id, td) && Housed(r, known) && g in known
    ensures Good(Rehoused(r, g), id, td) && Housed(Rehoused(r, g), known) && View(Rehoused(r, g).p) == View(r.p)
    ensures Home(Rehoused(r, g).p) == Convergence.Learn(Home(r.p), map[Parent := g])
  {
    hide View, Of, Proper;
    MoveIsUnseen(r.p, Opt(true, g, false), id, td);
    LearnOne(Home(r.p), map[Parent := g], Home(Rehoused(r, g).p));
  }

  // ---------------------------------------------------------------- the whole net

  datatype Event = Act(step: Step) | ServerMove(g: Id) | ClientMove(i: nat, g: Id)

  ghost predicate CanHappen(n: Net, e: Event, known: set<Id>) {
    match e
    case Act(step) => CanStep(n, step)
    case ServerMove(g) => g in known
    case ClientMove(i, g) => i < |n.clients| && g in known
  }

  ghost function Following(n: Net, e: Event): (r: Net)
    requires e.Act? ==> CanStep(n, e.step)
    requires e.ClientMove? ==> e.i < |n.clients|
  {
    match e
    case Act(step) => After(n, step)
    case ServerMove(g) => n.(server := Rehoused(n.server, g))
    case ClientMove(i, g) => n.(clients := n.clients[i := Rehoused(n.clients[i], g)])
  }

  ghost predicate AllHomeSent(c: seq<Text>, id: Id, td: TypeDef, known: set<Id>) {
    forall j :: 0 <= j < |c| ==> HomeSent(c[j], id, td, known)
  }

  // Everybody knows the groups that moves are made among.
  ghost predicate HousedNet(n: Net, id: Id, td: TypeDef, known: set<Id>) {
    && Housed(n.server, known) && (forall i :: 0 <= i < |n.clients| ==> Housed(n.clients[i], known))
    && (forall i :: 0 <= i < |n.down| ==> AllHomeSent(n.down[i], id, td, known))
    && (forall i :: 0 <= i < |n.up| ==> AllHomeSent(n.up[i], id, td, known))
  }

  ghost function ToldBy(c: seq<Text>, known: set<Id>): (r: Convergence.Channel<Link, Id>) {
    seq(|c|, j requires 0 <= j < |c| => Told(c[j], known))
  }

  ghost function AllTold(cs: seq<seq<Text>>, known: set<Id>): (r: seq<Convergence.Channel<Link, Id>>) {
    seq(|cs|, i requires 0 <= i < |cs| => ToldBy(cs[i], known))
  }

  ghost function Homes(rs: seq<Replica>): (r: seq<Convergence.Site<Link, Id>>) {
    seq(|rs|, i requires 0 <= i < |rs| => Home(rs[i].p))
  }

  // What the net is to the parent link: the same protocol, with one field.
  ghost function Links(n: Net, known: set<Id>): (r: Convergence.System<Link, Id>) {
    Convergence.System(Home(n.server.p), Homes(n.clients), AllTold(n.down, known), AllTold(n.up, known))
  }

  function LinkStep(e: Event): (r: Option<Convergence.Step<Link, Id>>) {
    match e
    case ServerMove(g) => Some(Convergence.ServerSet(Parent, g))
    case ClientMove(i, g) => Some(Convergence.ClientSet(i, Parent, g))
    case Act(ServerFlush) => Some(Convergence.ServerFlush)
    case Act(ClientFlush(i)) => Some(Convergence.ClientFlush(i))
    case Act(ServerReceive(i)) => Some(Convergence.ServerReceive(i))
    case Act(ClientReceive(i)) => Some(Convergence.ClientReceive(i))
    case _ => None
  }

  lemma LinksAreShaped(n: Net, known: set<Id>)
    requires |n.down| == |n.clients| && |n.up| == |n.clients|
    ensures Convergence.Shaped(Links(n, known))
  {
    forall bytes
      ensures Told(bytes, known).Keys <= {Parent}
    {
    }
    hide Told;
  }

  lemma PushTold(cs: seq<seq<Text>>, bytes: Text, except: int, known: set<Id>)
    ensures AllTold(Convergence.SendToAll(cs, bytes, except), known)
             == Convergence.SendToAll(AllTold(cs, known), Told(bytes, known), except)
  {
    hide Told;
    forall i | 0 <= i < |cs|
      ensures ToldBy(cs[i] + [bytes], known) == ToldBy(cs[i], known) + [Told(bytes, known)]
    {
    }
  }

  lemma ReplaceTold(cs: seq<seq<Text>>, i: nat, c: seq<Text>, known: set<Id>)
    requires i < |cs|
    ensures AllTold(cs[i := c], known) == AllTold(cs, known)[i := ToldBy(c, known)]
    ensures AllTold(cs, known)[i] == ToldBy(cs[i], known)
    ensures cs[i] != [] ==>
             ToldBy(cs[i], known) != [] && ToldBy(cs[i], known)[0] == Told(cs[i][0], known)
             && ToldBy(cs[i][1..], known) == ToldBy(cs[i], known)[1..]
    ensures forall m :: ToldBy(cs[i] + [m], known) == ToldBy(cs[i], known) + [Told(m, known)]
  {
    hide Told;
  }

  lemma ReplaceHome(rs: seq<Replica>, i: nat, r: Replica)
    requires i < |rs|
    ensures Homes(rs[i := r]) == Homes(rs)[i := Home(r.p)] && Homes(rs)[i] == Home(rs[i].p)
  {
    hide Home;
  }

  lemma PushedIsHomeSent(cs: seq<seq<Text>>, bytes: Text, except: int, id: Id, td: TypeDef, known: set<Id>)
    requires HomeSent(bytes, id, td, known) && forall i :: 0 <= i < |cs| ==> AllHomeSent(cs[i], id, td, known)
    ensures forall i :: 0 <= i < |cs| ==> AllHomeSent(cs[i] + [bytes], id, td, known)
    ensures var r := Convergence.SendToAll(cs, bytes, except);
      forall i :: 0 <= i < |r| ==> AllHomeSent(r[i], id, td, known)
  {
    hide HomeSent;
    forall i | 0 <= i < |cs|
      ensures AllHomeSent(cs[i] + [bytes], id, td, known)
    {
    }
  }

  lemma ItsMessageIsHomeSent(r: Replica, id: Id, td: TypeDef, known: set<Id>)
    requires Good(r, id, td) && Housed(r, known)
    ensures HomeSent(Message(r.p), id, td, known) && Told(Message(r.p), known) == Convergence.Delta(Home(r.p))
    ensures Housed(Emptied(r), known) && Home(Emptied(r).p) == Convergence.Calm(Home(r.p))
  {
    hide Proper, Homed, Message, Told, Home, Emptied;
    MessageTells(r.p, id, td, known);
    FlushKeepsHome(r, id, td, known);
  }

  lemma HomeSentIsHeard(r: Replica, bytes: Text, id: Id, td: TypeDef, known: set<Id>)
    requires Good(r, id, td) && Housed(r, known) && HomeSent(bytes, id, td, known)
    ensures Brings(r.groups, bytes).Some? && Housed(Hear(r, bytes), known)
    ensures Told(bytes, known).Keys <= {Parent}
    ensures Home(Hear(r, bytes).p) == Convergence.Learn(Home(r.p), Told(bytes, known))
  {
    hide Message, Proper, Homed, Good, Housed, Hear, Home, Told, Brings;
    var p :| Proper(p, id, td) && Homed(p, known) && bytes == Message(p);
    MessageArrives(p, id, td, r.groups);
    HearingMoves(r, p, id, td, known);
  }

  // ---------------------------------------------------------------- every step

  // The step of the link that an event is, if it is one.
  ghost predicate Goes(s: Convergence.System<Link, Id>, step: Option<Convergence.Step<Link, Id>>,
      s': Convergence.System<Link, Id>) {
    && Convergence.Shaped(s)
    && if step.Some? then Convergence.Enabled(s, step.value) && s' == Convergence.Next(s, step.value) else s' == s
  }

  lemma LinkStepIsEnabled(n: Net, e: Event, known: set<Id>)
    requires |n.down| == |n.clients| && |n.up| == |n.clients| && CanHappen(n, e, known)
    ensures Convergence.Shaped(Links(n, known)) && |Links(n, known).clients| == |n.clients|
    ensures LinkStep(e).Some? ==> Convergence.Enabled(Links(n, known), LinkStep(e).value)
  {
    hide Told, Kinded;
    LinksAreShaped(n, known);
  }

  lemma ServerHoused(n: Net, r: Replica, id: Id, td: TypeDef, known: set<Id>)
    requires HousedNet(n, id, td, known) && Housed(r, known)
    ensures HousedNet(n.(server := r), id, td, known)
  {
    hide Housed, AllHomeSent;
  }

  lemma ClientHoused(n: Net, i: nat, r: Replica, id: Id, td: TypeDef, known: set<Id>)
    requires HousedNet(n, id, td, known) && i < |n.clients| && Housed(r, known)
    ensures HousedNet(n.(clients := n.clients[i := r]), id, td, known)
  {
    hide Housed, AllHomeSent;
  }

  lemma OneChannelHoused(cs: seq<seq<Text>>, i: nat, c: seq<Text>, id: Id, td: TypeDef, known: set<Id>)
    requires i < |cs| && AllHomeSent(c, id, td, known)
    requires forall j :: 0 <= j < |cs| ==> AllHomeSent(cs[j], id, td, known)
    ensures var r := cs[i := c]; forall j :: 0 <= j < |r| ==> AllHomeSent(r[j], id, td, known)
  {
    hide AllHomeSent;
  }

  lemma PoppedIsHomeSent(c: seq<Text>, id: Id, td: TypeDef, known: set<Id>)
    requires c != [] && AllHomeSent(c, id, td, known)
    ensures AllHomeSent(c[1..], id, td, known) && HomeSent(c[0], id, td, known)
  {
    hide HomeSent;
  }

  lemma ChannelsHoused(n: Net, down: seq<seq<Text>>, up: seq<seq<Text>>, id: Id, td: TypeDef, known: set<Id>)
    requires HousedNet(n, id, td, known)
    requires forall i :: 0 <= i < |down| ==> AllHomeSent(down[i], id, td, known)
    requires forall i :: 0 <= i < |up| ==> AllHomeSent(up[i], id, td, known)
    ensures HousedNet(n.(down := down, up := up), id, td, known)
  {
    hide Housed, AllHomeSent;
  }

  lemma FlushLinks(n: Net, id: Id, td: TypeDef, known: set<Id>)
    requires GoodNet(n, id, td) && HousedNet(n, id, td, known) && n.server.dirty
    ensures HousedNet(After(n, Step.ServerFlush), id, td, known)
    ensures Goes(Links(n, known), Some(Convergence.ServerFlush), Links(After(n, Step.ServerFlush), known))
  {
    hide Good, Housed, AllWellSent, AllHomeSent, HomeSent, Message, Emptied, Home, Told, Homes, AllTold, ToldBy,
         Convergence.Shaped, Convergence.Delta, Convergence.Calm, Convergence.SendToAll;
    var m := Message(n.server.p);
    var down := Convergence.SendToAll(n.down, m, -1);
    LinkStepIsEnabled(n, Act(Step.ServerFlush), known);
    ItsMessageIsHomeSent(n.server, id, td, known);
    PushTold(n.down, m, -1, known);
    PushedIsHomeSent(n.down, m, -1, id, td, known);
    ChannelsHoused(n, down, n.up, id, td, known);
    ServerHoused(n.(down := down), Emptied(n.server), id, td, known);
  }

  lemma ClientFlushLinks(n: Net, i: nat, id: Id, td: TypeDef, known: set<Id>)
    requires GoodNet(n, id, td) && HousedNet(n, id, td, known) && i < |n.clients| && n.clients[i].dirty
    ensures HousedNet(After(n, Step.ClientFlush(i)), id, td, known)
    ensures Goes(Links(n, known), Some(Convergence.ClientFlush(i)), Links(After(n, Step.ClientFlush(i)), known))
  {
    hide AllHomeSent, HomeSent, Message, Emptied, Home, Told, Homes, AllTold, ToldBy, Convergence.Shaped,
        Convergence.Delta;
    var r, m := Emptied(n.clients[i]), Message(n.clients[i].p);
    var up := n.up[i := n.up[i] + [m]];
    LinkStepIsEnabled(n, Act(Step.ClientFlush(i)), known);
    ItsMessageIsHomeSent(n.clients[i], id, td, known);
    ReplaceTold(n.up, i, n.up[i] + [m], known);
    ReplaceHome(n.clients, i, r);
    PushedIsHomeSent(n.up, m, -1, id, td, known);
    OneChannelHoused(n.up, i, n.up[i] + [m], id, td, known);
    ChannelsHoused(n, n.down, up, id, td, known);
    ClientHoused(n.(up := up), i, r, id, td, known);
    var t := Links(After(n, Step.ClientFlush(i)), known);
    var t' := Convergence.Next(Links(n, known), Convergence.ClientFlush(i));
    assert t.server == t'.server && t.down == t'.down;
    assert t.clients == t'.clients;
    assert t.up == t'.up;
  }

  lemma ReceiveLinks(n: Net, i: nat, id: Id, td: TypeDef, known: set<Id>)
    requires GoodNet(n, id, td) && HousedNet(n, id, td, known) && i < |n.up| && n.up[i] != []
    ensures HousedNet(After(n, Step.ServerReceive(i)), id, td, known)
    ensures Goes(Links(n, known), Some(Convergence.ServerReceive(i)), Links(After(n, Step.ServerReceive(i)), known))
  {
    hide AllHomeSent, Hear;
    var bytes := n.up[i][0];
    var down, up := Convergence.SendToAll(n.down, bytes, i), n.up[i := n.up[i][1..]];
    LinkStepIsEnabled(n, Act(Step.ServerReceive(i)), known);
    PoppedIsHomeSent(n.up[i], id, td, known);
    HomeSentIsHeard(n.server, bytes, id, td, known);
    ReplaceTold(n.up, i, n.up[i][1..], known);
    PushTold(n.down, bytes, i, known);
    PushedIsHomeSent(n.down, bytes, i, id, td, known);
    OneChannelHoused(n.up, i, n.up[i][1..], id, td, known);
    ChannelsHoused(n, down, up, id, td, known);
    ServerHoused(n.(down := down, up := up), Hear(n.server, bytes), id, td, known);
    var t := Links(After(n, Step.ServerReceive(i)), known);
    var t' := Convergence.Next(Links(n, known), Convergence.ServerReceive(i));
    assert t.server == t'.server && t.clients == t'.clients;
    assert t.down == t'.down;
    assert t.up == t'.up;
  }

  lemma HeardHoused(n: Net, i: nat, bytes: Text, down: seq<seq<Text>>, id: Id, td: TypeDef, known: set<Id>)
    requires GoodNet(n, id, td) && HousedNet(n, id, td, known) && i < |n.clients| && HomeSent(bytes, id, td, known)
    requires forall j :: 0 <= j < |down| ==> AllHomeSent(down[j], id, td, known)
    ensures HousedNet(n.(clients := n.clients[i := Hear(n.clients[i], bytes)], down := down), id, td, known)
  {
    hide Hear, Brings, Home, Told, Convergence.Learn;
    HomeSentIsHeard(n.clients[i], bytes, id, td, known);
    ChannelsHoused(n, down, n.up, id, td, known);
    ClientHoused(n.(down := down), i, Hear(n.clients[i], bytes), id, td, known);
  }

  lemma ClientReceiveLinks(n: Net, i: nat, id: Id, td: TypeDef, known: set<Id>)
    requires GoodNet(n, id, td) && HousedNet(n, id, td, known) && i < |n.down| && n.down[i] != []
    ensures HousedNet(After(n, Step.ClientReceive(i)), id, td, known)
    ensures Goes(Links(n, known), Some(Convergence.ClientReceive(i)), Links(After(n, Step.ClientReceive(i)), known))
  {
    hide AllHomeSent, Hear, Brings, Home;
    var bytes := n.down[i][0];
    var r, down := Hear(n.clients[i], bytes), n.down[i := n.down[i][1..]];
    LinkStepIsEnabled(n, Act(Step.ClientReceive(i)), known);
    PoppedIsHomeSent(n.down[i], id, td, known);
    OneChannelHoused(n.down, i, n.down[i][1..], id, td, known);
    HeardHoused(n, i, bytes, down, id, td, known);
    HomeSentIsHeard(n.clients[i], bytes, id, td, known);
    ReplaceTold(n.down, i, n.down[i][1..], known);
    ReplaceHome(n.clients, i, r);
    assert After(n, Step.ClientReceive(i)) == n.(clients := n.clients[i := r], down := down);
    var t := Links(n.(clients := n.clients[i := r], down := down), known);
    var t' := Convergence.Next(Links(n, known), Convergence.ClientReceive(i));
    assert t.server == t'.server && t.up == t'.up;
    assert t.clients == t'.clients;
    assert t.down == t'.down;
  }

  // A setter leaves the link alone.
  lemma SetLeavesLinks(n: Net, step: Step, id: Id, td: TypeDef, known: set<Id>)
    requires GoodNet(n, id, td) && HousedNet(n, id, td, known) && CanStep(n, step) && Convergence.IsSet(step)
    ensures HousedNet(After(n, step), id, td, known) && Goes(Links(n, known), None, Links(After(n, step), known))
  {
    hide Good, Kinded, Set, Home, Homes;
    LinksAreShaped(n, known);
    match step {
      case ServerSet(f, d) => SetKeepsHome(n.server, f, d, known);
      case ClientSet(i, f, d) =>
        SetKeepsHome(n.clients[i], f, d, known);
        ReplaceHome(n.clients, i, Set(n.clients[i], f, d));
    }
  }

  // A move is a set of the link, and leaves the fields alone.
  lemma ServerMoveLinks(n: Net, g: Id, id: Id, td: TypeDef, known: set<Id>)
    requires GoodNet(n, id, td) && HousedNet(n, id, td, known) && g in known
    ensures var n' := n.(server := Rehoused(n.server, g));
      && GoodNet(n', id, td) && HousedNet(n', id, td, known) && Abstract(n') == Abstract(n)
      && Goes(Links(n, known), Some(Convergence.ServerSet(Parent, g)), Links(n', known))
  {
    hide Rehoused, View, Views, AllMeanings, Home, Homes, AllTold, Convergence.Shaped, Convergence.Learn;
    var r := Rehoused(n.server, g);
    LinkStepIsEnabled(n, ServerMove(g), known);
    RehousingIsLearning(n.server, g, id, td, known);
    ServerHeard(n, r, n.down, n.up, id, td);
    ServerHoused(n, r, id, td, known);
    assert n.(down := n.down, up := n.up) == n && n.(server := r, down := n.down, up := n.up) == n.(server := r);
  }

  lemma ClientMoveLinks(n: Net, i: nat, g: Id, id: Id, td: TypeDef, known: set<Id>)
    requires GoodNet(n, id, td) && HousedNet(n, id, td, known) && i < |n.clients| && g in known
    ensures var n' := n.(clients := n.clients[i := Rehoused(n.clients[i], g)]);
      && GoodNet(n', id, td) && HousedNet(n', id, td, known) && Abstract(n') == Abstract(n)
      && Goes(Links(n, known), Some(Convergence.ClientSet(i, Parent, g)), Links(n', known))
  {
    hide Rehoused, View, Home, Homes, AllTold, Convergence.Shaped;
    var r := Rehoused(n.clients[i], g);
    LinkStepIsEnabled(n, ClientMove(i, g), known);
    RehousingIsLearning(n.clients[i], g, id, td, known);
    ReplaceHome(n.clients, i, r);
    ReplaceView(n.clients, i, r);
    ViewsAt(n.clients, i);
    ClientReplaced(n, i, r, id, td);
    ClientHoused(n, i, r, id, td, known);
  }

  lemma EventKeeps(n: Net, e: Event, id: Id, td: TypeDef, known: set<Id>)
    requires GoodNet(n, id, td) && HousedNet(n, id, td, known) && CanHappen(n, e, known)
    ensures GoodNet(Following(n, e), id, td) && HousedNet(Following(n, e), id, td, known)
    ensures Goes(Links(n, known), LinkStep(e), Links(Following(n, e), known))
    ensures !e.Act? ==> Abstract(Following(n, e)) == Abstract(n)
    ensures Convergence.Invariant(Abstract(n)) ==> Convergence.Invariant(Abstract(Following(n, e)))
  {
    hide Convergence.Shaped, Convergence.Enabled;
    hide GoodNet, HousedNet, After, Links, Abstract, Goes, Convergence.Next, Convergence.Invariant, Rehoused;
    match e {
      case Act(step) =>
        StepRefines(n, step, id, td);
        if Convergence.Invariant(Abstract(n)) { Convergence.InvariantIsKept(Abstract(n), step); }
        match step {
          case ServerFlush => FlushLinks(n, id, td, known);
          case ClientFlush(i) => ClientFlushLinks(n, i, id, td, known);
          case ServerReceive(i) => ReceiveLinks(n, i, id, td, known);
          case ClientReceive(i) => ClientReceiveLinks(n, i, id, td, known);
          case _ => SetLeavesLinks(n, step, id, td, known);
        }
      case ServerMove(g) => ServerMoveLinks(n, g, id, td, known);
      case ClientMove(i, g) => ClientMoveLinks(n, i, g, id, td, known);
    }
  }

  // ---------------------------------------------------------------- runs

  ghost predicate IsEventRun(run: seq<Net>, events: seq<Event>, known: set<Id>) {
    && |run| == |events| + 1
    && forall n :: 0 <= n < |events| ==>
       CanHappen(run[n], events[n], known) && run[n + 1] == Following(run[n], events[n])
  }

  lemma EventAt(run: seq<Net>, events: seq<Event>, n: nat, known: set<Id>)
    requires IsEventRun(run, events, known) && n + 1 < |run|
    ensures n < |events| && CanHappen(run[n], events[n], known) && run[n + 1] == Following(run[n], events[n])
  {
    hide CanHappen, Following;
  }

  ghost predicate Together(n: Net) {
    forall i :: 0 <= i < |n.clients| ==> n.clients[i].p.parent.value == n.server.p.parent.value
  }

  ghost predicate Sound(n: Net, id: Id, td: TypeDef, known: set<Id>) {
    && GoodNet(n, id, td) && HousedNet(n, id, td, known)
    && Convergence.Invariant(Abstract(n)) && Convergence.Invariant(Links(n, known))
  }

  lemma SoundGoesOn(n: Net, e: Event, id: Id, td: TypeDef, known: set<Id>)
    requires Sound(n, id, td, known) && CanHappen(n, e, known)
    ensures Sound(Following(n, e), id, td, known)
  {
    hide GoodNet, HousedNet, CanHappen, Following, Links, Abstract, LinkStep, Convergence.Invariant, Convergence.Next,
        Convergence.Enabled, Convergence.Shaped;
    EventKeeps(n, e, id, td, known);
    var step := LinkStep(e);
    if step.Some? { Convergence.InvariantIsKept(Links(n, known), step.value); }
  }

  lemma {:induction false} RunsStaySound(run: seq<Net>, events: seq<Event>, n: nat, id: Id, td: TypeDef,
      known: set<Id>)
    requires IsEventRun(run, events, known) && Sound(run[0], id, td, known) && n < |run|
    ensures Sound(run[n], id, td, known)
  {
    hide Sound, IsEventRun, CanHappen, Following;
    if n > 0 {
      EventAt(run, events, n - 1, known);
      RunsStaySound(run, events, n - 1, id, td, known);
      SoundGoesOn(run[n - 1], events[n - 1], id, td, known);
    }
  }

  lemma QuietLinks(n: Net, id: Id, td: TypeDef, known: set<Id>)
    requires GoodNet(n, id, td) && HousedNet(n, id, td, known) && Quiet(n)
    ensures Convergence.Shaped(Links(n, known)) && Convergence.Quiescent(Links(n, known))
    ensures Convergence.Agree(Links(n, known)) <==> Together(n)
  {
    hide Good, Told, Homed, AllHomeSent, AllWellSent;
    LinksAreShaped(n, known);
    assert forall i :: 0 <= i < |n.clients| ==> Links(n, known).clients[i] == Home(n.clients[i].p);
    forall p: Param, q: Param
      ensures Home(p).values == Home(q).values <==> p.parent.value == q.parent.value
    {
      assert Home(p).values[Parent] == p.parent.value && Home(q).values[Parent] == q.parent.value;
    }
  }

  lemma QuietStartIsSound(n: Net, id: Id, td: TypeDef, known: set<Id>)
    requires GoodNet(n, id, td) && HousedNet(n, id, td, known) && Quiet(n) && InAgreement(n) && Together(n)
    ensures Sound(n, id, td, known)
  {
    hide HousedNet, Quiet, InAgreement, Together, Abstract, Links, Convergence.Quiescent, Convergence.Agree,
        Convergence.Shaped, Convergence.Invariant;
    QuietLinks(n, id, td, known);
    QuietIsQuiescent(n, id, td);
    AgreementIsAgreement(n);
    AbstractIsShaped(n);
    Convergence.AgreedStart(Abstract(n));
    Convergence.AgreedStart(Links(n, known));
  }

  // Whatever is set, moved among groups that everybody knows, flushed, delivered and passed on:
  // whenever all is quiet again, all replicas agree, and hang in the same group.
  lemma EveryQuietNetHangsTogether(run: seq<Net>, events: seq<Event>, n: nat, id: Id, td: TypeDef, known: set<Id>)
    requires IsEventRun(run, events, known) && n < |run|
    requires GoodNet(run[0], id, td) && HousedNet(run[0], id, td, known)
    requires Quiet(run[0]) && InAgreement(run[0]) && Together(run[0]) && Quiet(run[n])
    ensures InAgreement(run[n]) && Together(run[n])
  {
    hide IsEventRun, GoodNet, HousedNet, Quiet, InAgreement, Together, Abstract, Links, Convergence.Quiescent,
        Convergence.Agree, Convergence.Invariant;
    QuietStartIsSound(run[0], id, td, known);
    RunsStaySound(run, events, n, id, td, known);
    QuietLinks(run[n], id, td, known);
    QuietIsQuiescent(run[n], id, td);
    AgreementIsAgreement(run[n]);
    Convergence.QuietMeansAgreed(Abstract(run[n]));
    Convergence.QuietMeansAgreed(Links(run[n], known));
  }

  // ---------------------------------------------------------------- a move without a rival

  function Mover(e: Event): (r: int) { if e.ClientMove? then e.i else -1 }

  lemma SpreadingGoesOn(n: Net, step: Step, g: Id, who: int, id: Id, td: TypeDef, known: set<Id>)
    requires Sound(n, id, td, known) && CanStep(n, step)
    requires Convergence.Spreading(Links(n, known), Parent, g, who)
    ensures Convergence.Spreading(Links(After(n, step), known), Parent, g, who)
  {
    hide After, Links, Convergence.Spreading, Convergence.Next, Convergence.Enabled, Convergence.Shaped;
    EventKeeps(n, Act(step), id, td, known);
    var link := LinkStep(Act(step));
    assert link.Some? ==> !Convergence.IsSet(link.value);
    if link.Some? { Convergence.SpreadingIsKept(Links(n, known), link.value, Parent, g, who); }
  }

  lemma MoveSpreads(n: Net, e: Event, id: Id, td: TypeDef, known: set<Id>)
    requires Sound(n, id, td, known) && CanHappen(n, e, known) && !e.Act?
    requires Convergence.Quiescent(Links(n, known))
    ensures Convergence.Spreading(Links(Following(n, e), known), Parent, e.g, Mover(e))
  {
    hide CanHappen, Following, Links, Convergence.Quiescent, Convergence.Spreading, Convergence.Next,
        Convergence.Enabled, Convergence.Shaped;
    EventKeeps(n, e, id, td, known);
    Convergence.SetSpreads(Links(n, known), LinkStep(e).value);
  }

  lemma {:induction false} MoveSpreadsInRuns(run: seq<Net>, events: seq<Event>, n: nat, id: Id, td: TypeDef,
      known: set<Id>)
    requires IsEventRun(run, events, known) && Sound(run[0], id, td, known) && 0 < n < |run| && !events[0].Act?
    requires Convergence.Quiescent(Links(run[0], known)) && forall m :: 0 < m < n ==> events[m].Act?
    ensures Convergence.Spreading(Links(run[n], known), Parent, events[0].g, Mover(events[0]))
  {
    hide Sound, CanStep, After, Links, Mover, Convergence.Spreading, Convergence.Quiescent;
    RunsStaySound(run, events, n - 1, id, td, known);
    EventAt(run, events, n - 1, known);
    assert |run| == |events| + 1;
    if n == 1 {
      MoveSpreads(run[0], events[0], id, td, known);
    } else {
      MoveSpreadsInRuns(run, events, n - 1, id, td, known);
      var g, who := events[0].g, Mover(events[0]);
      SpreadingGoesOn(run[n - 1], events[n - 1].step, g, who, id, td, known);
    }
  }

  // A move that no other move rivals is where all replicas hang once all is quiet, whatever
  // else was set meanwhile.
  lemma LoneMoveReachesAll(run: seq<Net>, events: seq<Event>, n: nat, id: Id, td: TypeDef, known: set<Id>)
    requires IsEventRun(run, events, known) && 0 < n < |run|
    requires GoodNet(run[0], id, td) && HousedNet(run[0], id, td, known)
    requires Quiet(run[0]) && InAgreement(run[0]) && Together(run[0]) && Quiet(run[n])
    requires !events[0].Act? && forall m :: 0 < m < n ==> events[m].Act?
    ensures run[n].server.p.parent.value == events[0].g
    ensures forall i :: 0 <= i < |run[n].clients| ==> run[n].clients[i].p.parent.value == events[0].g
  {
    hide GoodNet, HousedNet, Quiet, InAgreement, Sound, Convergence.Quiescent, Convergence.Carries;
    QuietStartIsSound(run[0], id, td, known);
    QuietLinks(run[0], id, td, known);
    MoveSpreadsInRuns(run, events, n, id, td, known);
    EveryQuietNetHangsTogether(run, events, n, id, td, known);
    var s := Links(run[n], known);
    assert s.server == Home(run[n].server.p)
        && forall i :: 0 <= i < |s.clients| ==> s.clients[i] == Home(run[n].clients[i].p);
    assert |s.clients| == |run[n].clients|;
    var who := Mover(events[0]);
    if who >= 0 { assert Convergence.Stands(s.clients[who], Parent, events[0].g, true); }
  }

  // Such a start: replicas of a parameter as it is made, which all know the groups.
  lemma FreshNetIsHoused(id: Id, td: TypeDef, known: set<Id>, count: nat)
    requires SendableType(td) && !td.Range? && ROOT !in known
    ensures var r := Replica(FreshParam(id, td), false, known);
      var n := Net(r, seq(count, _ => r), seq(count, _ => []), seq(count, _ => []));
      GoodNet(n, id, td) && HousedNet(n, id, td, known) && Quiet(n) && InAgreement(n) && Together(n)
  {
    hide SendableType, FreshType;
    FreshNetIsGood(id, td, count);
    assert FreshNet(id, td, count).server.p == FreshParam(id, td);
  }
}
