/** The synchronisation protocol by itself: one server, any number of clients, a FIFO channel
    each way, and deltas of the changed fields.  It is the one of
    src/rabbitControl/parameterserver.cpp and parameterclient.cpp: whoever receives a value that
    differs from its own flags it in turn, and the server also passes the packet on. */
module Convergence {
  import opened Bytes

  // The values of one replica, and which of them changed since its last flush.
  datatype Site<!K, V> = Site(values: map<K, V>, pending: set<K>)

  type Channel<!K, V> = seq<map<K, V>>

  datatype System<!K, V> = System(server: Site<K, V>, clients: seq<Site<K, V>>, down: seq<Channel<K, V>>,
      up: seq<Channel<K, V>>)

  datatype Step<K, V> =
    | ServerSet(k: K, v: V)
    | ClientSet(i: nat, k: K, v: V)
    | ServerFlush
    | ClientFlush(i: nat)
    | ServerReceive(i: nat)
    | ClientReceive(i: nat)

  // ---------------------------------------------------------------- one replica

  // Values from a packet, or from a setter: a different one is stored and flagged.
  function Learn<K, V(==)>(s: Site<K, V>, m: map<K, V>): (r: Site<K, V>)
    requires m.Keys <= s.values.Keys
  {
    Site(s.values + m, s.pending + set k | k in m && m[k] != s.values[k])
  }

  lemma LearnPointwise<K, V>(s: Site<K, V>, m: map<K, V>, s': Site<K, V>)
    requires m.Keys <= s.values.Keys && s'.values.Keys == s.values.Keys
    requires forall k :: k in s.values ==> s'.values[k] == if k in m then m[k] else s.values[k]
    requires forall k :: k in s'.pending <==> k in s.pending || (k in m && m[k] != s.values[k])
    ensures s' == Learn(s, m)
  {
  }

  function Delta<K, V>(s: Site<K, V>): (r: map<K, V>)
    requires s.pending <= s.values.Keys
  {
    map k | k in s.pending :: s.values[k]
  }

  function Calm<K, V>(s: Site<K, V>): (r: Site<K, V>) { s.(pending := {}) }

  // ---------------------------------------------------------------- the system

  ghost predicate Shaped<K, V>(s: System<K, V>) {
    && |s.down| == |s.clients| && |s.up| == |s.clients|
    && s.server.pending <= s.server.values.Keys
    && (forall i :: 0 <= i < |s.clients| ==>
       s.clients[i].values.Keys == s.server.values.Keys && s.clients[i].pending <= s.server.values.Keys)
    && (forall i, j :: 0 <= i < |s.down| && 0 <= j < |s.down[i]| ==> s.down[i][j].Keys <= s.server.values.Keys)
    && (forall i, j :: 0 <= i < |s.up| && 0 <= j < |s.up[i]| ==> s.up[i][j].Keys <= s.server.values.Keys)
  }

  // sendToAll, with or without a client to leave out
  function SendToAll<M>(down: seq<seq<M>>, m: M, except: int): (r: seq<seq<M>>)
    ensures |r| == |down|
    ensures forall i :: 0 <= i < |down| ==> r[i] == if i == except then down[i] else down[i] + [m]
  {
    seq(|down|, i requires 0 <= i < |down| => if i == except then down[i] else down[i] + [m])
  }

  ghost predicate Enabled<K, V>(s: System<K, V>, step: Step<K, V>) {
    match step
    case ServerSet(k, _) => k in s.server.values
    case ClientSet(i, k, _) => i < |s.clients| && k in s.server.values
    case ServerFlush => true
    case ClientFlush(i) => i < |s.clients|
    case ServerReceive(i) => i < |s.clients| && i < |s.up| && s.up[i] != []
    case ClientReceive(i) => i < |s.clients| && i < |s.down| && s.down[i] != []
  }

  ghost function Next<K, V>(s: System<K, V>, step: Step<K, V>): (r: System<K, V>)
    requires Shaped(s) && Enabled(s, step)
  {
    match step
    case ServerSet(k, v) => s.(server := Learn(s.server, map[k := v]))
    case ClientSet(i, k, v) => s.(clients := s.clients[i := Learn(s.clients[i], map[k := v])])
    case ServerFlush => s.(server := Calm(s.server), down := SendToAll(s.down, Delta(s.server), -1))
    case ClientFlush(i) => s.(clients := s.clients[i := Calm(s.clients[i])],
        up := s.up[i := s.up[i] + [Delta(s.clients[i])]])
    case ServerReceive(i) =>
      var m := s.up[i][0];
      s.(server := Learn(s.server, m), up := s.up[i := s.up[i][1..]], down := SendToAll(s.down, m, i))
    case ClientReceive(i) =>
      s.(clients := s.clients[i := Learn(s.clients[i], s.down[i][0])], down := s.down[i := s.down[i][1..]])
  }

  lemma NextIsShaped<K, V>(s: System<K, V>, step: Step<K, V>)
    requires Shaped(s) && Enabled(s, step)
    ensures Shaped(Next(s, step)) && Next(s, step).server.values.Keys == s.server.values.Keys
    ensures |Next(s, step).clients| == |s.clients|
  {
    match step
    case ServerSet(k, v) =>
    case ClientSet(i, k, v) =>
    case ServerFlush =>
    case ClientFlush(i) =>
    case ServerReceive(i) => assert forall j :: 0 <= j < |s.up[i][1..]| ==> s.up[i][1..][j] == s.up[i][j + 1];
    case ClientReceive(i) => assert forall j :: 0 <= j < |s.down[i][1..]| ==> s.down[i][1..][j] == s.down[i][j + 1];
  }

  // ---------------------------------------------------------------- the invariant

  // The last value for k on a channel.
  function Last<K, V>(c: Channel<K, V>, k: K): (r: Option<V>) {
    if c == [] then None else if k in c[|c| - 1] then Some(c[|c| - 1][k]) else Last(c[..|c| - 1], k)
  }

  lemma {:induction false} LastAfterPop<K, V>(c: Channel<K, V>, k: K)
    requires c != []
    ensures Last(c[1..], k).Some? ==> Last(c, k) == Last(c[1..], k)
    ensures Last(c[1..], k).None? ==> Last(c, k) == if k in c[0] then Some(c[0][k]) else None
  {
    if |c| > 1 {
      assert c[1..][..|c| - 2] == c[..|c| - 1][1..];
      LastAfterPop(c[..|c| - 1], k);
    }
  }

  lemma LastAfterPush<K, V>(c: Channel<K, V>, m: map<K, V>, k: K)
    ensures Last(c + [m], k) == if k in m then Some(m[k]) else Last(c, k)
  {
    assert (c + [m])[..|c|] == c;
  }

  // What holds for a field between the server and one client: an unflagged end stands by what
  // it sent last, and with nothing under way they agree.
  ghost predicate Bound<K, V>(server: Site<K, V>, client: Site<K, V>, down: Channel<K, V>, up: Channel<K, V>, k: K)
    requires k in server.values && k in client.values
  {
    && (k !in server.pending && Last(down, k).Some? ==> Last(down, k) == Some(server.values[k]))
    && (k !in client.pending && Last(up, k).Some? ==> Last(up, k) == Some(client.values[k]))
    && (k !in server.pending && k !in client.pending && Last(down, k).None? && Last(up, k).None? ==>
          server.values[k] == client.values[k])
  }

  ghost predicate Invariant<K, V>(s: System<K, V>) {
    && Shaped(s)
    && forall i, k :: 0 <= i < |s.clients| && k in s.server.values ==>
       Bound(s.server, s.clients[i], s.down[i], s.up[i], k)
  }

  lemma InvariantIsKept<K, V>(s: System<K, V>, step: Step<K, V>)
    requires Invariant(s) && Enabled(s, step)
    ensures Invariant(Next(s, step))
  {
    NextIsShaped(s, step);
    var s' := Next(s, step);
    forall j, k | 0 <= j < |s.clients| && k in s.server.values
      ensures Bound(s'.server, s'.clients[j], s'.down[j], s'.up[j], k)
    {
      assert Bound(s.server, s.clients[j], s.down[j], s.up[j], k);
      match step
      case ServerSet(_, _) =>
      case ClientSet(_, _, _) =>
      case ServerFlush => LastAfterPush(s.down[j], Delta(s.server), k);
      case ClientFlush(i) => LastAfterPush(s.up[i], Delta(s.clients[i]), k);
      case ServerReceive(i) =>
        LastAfterPop(s.up[i], k);
        LastAfterPush(s.down[j], s.up[i][0], k);
      case ClientReceive(i) => LastAfterPop(s.down[i], k);
    }
  }

  // ---------------------------------------------------------------- runs

  ghost predicate IsRun<K, V>(run: seq<System<K, V>>, steps: seq<Step<K, V>>) {
    && |run| == |steps| + 1
    && forall n :: 0 <= n < |steps| ==>
       Shaped(run[n]) && Enabled(run[n], steps[n]) && run[n + 1] == Next(run[n], steps[n])
  }

  // Nothing on any channel and nothing flagged anywhere.
  ghost predicate Quiescent<K, V>(s: System<K, V>) {
    && s.server.pending == {}
    && (forall i :: 0 <= i < |s.clients| ==> s.clients[i].pending == {})
    && (forall i :: 0 <= i < |s.down| ==> s.down[i] == [])
    && (forall i :: 0 <= i < |s.up| ==> s.up[i] == [])
  }

  ghost predicate Agree<K, V>(s: System<K, V>) {
    forall i :: 0 <= i < |s.clients| ==> s.clients[i].values == s.server.values
  }

  lemma {:induction false} InvariantHoldsInRuns<K, V>(run: seq<System<K, V>>, steps: seq<Step<K, V>>, n: nat)
    requires IsRun(run, steps) && Invariant(run[0]) && n < |run|
    ensures Invariant(run[n])
  {
    hide Invariant, Next, Enabled;
    if n > 0 {
      InvariantHoldsInRuns(run, steps, n - 1);
      assert run[n - 1 + 1] == Next(run[n - 1], steps[n - 1]);
      InvariantIsKept(run[n - 1], steps[n - 1]);
    }
  }

  lemma QuietMeansAgreed<K, V>(s: System<K, V>)
    requires Invariant(s) && Quiescent(s)
    ensures Agree(s)
  {
    forall i | 0 <= i < |s.clients|
      ensures s.clients[i].values == s.server.values
    {
      forall k | k in s.server.values
        ensures s.clients[i].values[k] == s.server.values[k]
      {
        assert Bound(s.server, s.clients[i], s.down[i], s.up[i], k);
      }
    }
  }

  // Whatever is set, flushed, delivered and passed on, in whatever order: from replicas that
  // agree, whenever everything is quiet they agree again.
  lemma EveryQuietStateAgrees<K, V>(run: seq<System<K, V>>, steps: seq<Step<K, V>>, n: nat)
    requires IsRun(run, steps) && n < |run|
    requires Shaped(run[0]) && Quiescent(run[0]) && Agree(run[0])
    requires Quiescent(run[n])
    ensures Agree(run[n])
  {
    AgreedStart(run[0]);
    InvariantHoldsInRuns(run, steps, n);
    QuietMeansAgreed(run[n]);
  }

  lemma AgreedStart<K, V>(s: System<K, V>)
    requires Shaped(s) && Quiescent(s) && Agree(s)
    ensures Invariant(s)
  {
  }

  // ---------------------------------------------------------------- a change without a rival

  ghost predicate IsSet<K, V>(step: Step<K, V>) { step.ServerSet? || step.ClientSet? }

  // Who a set step is about: -1 for the server.
  function Setter<K, V>(step: Step<K, V>): (r: int) { if step.ClientSet? then step.i else -1 }

  ghost predicate Carries<K, V>(c: Channel<K, V>, k: K, v: V) {
    forall j :: 0 <= j < |c| && k in c[j] ==> c[j][k] == v
  }

  ghost predicate Stands<K, V>(s: Site<K, V>, k: K, v: V, holder: bool) {
    k in s.values && (holder || k in s.pending ==> s.values[k] == v)
  }

  // Everything on its way for k is v, and the one who set it still has it.
  ghost predicate Spreading<K, V>(s: System<K, V>, k: K, v: V, who: int) {
    && Shaped(s) && -1 <= who < |s.clients|
    && Stands(s.server, k, v, who == -1)
    && forall i :: 0 <= i < |s.clients| ==>
       Stands(s.clients[i], k, v, who == i) && Carries(s.down[i], k, v) && Carries(s.up[i], k, v)
  }

  lemma CarriesAfterPop<K, V>(c: Channel<K, V>, k: K, v: V)
    requires c != [] && Carries(c, k, v)
    ensures Carries(c[1..], k, v) && (k in c[0] ==> c[0][k] == v)
  {
    forall j | 0 <= j < |c| - 1
      ensures c[1..][j] == c[j + 1]
    {
    }
  }

  lemma SpreadingIsKept<K, V>(s: System<K, V>, step: Step<K, V>, k: K, v: V, who: int)
    requires Spreading(s, k, v, who) && Enabled(s, step) && !(IsSet(step) && step.k == k)
    ensures Spreading(Next(s, step), k, v, who)
  {
    NextIsShaped(s, step);
    match step
    case ServerReceive(i) => CarriesAfterPop(s.up[i], k, v);
    case ClientReceive(i) => CarriesAfterPop(s.down[i], k, v);
    case _ =>
  }

  lemma {:induction false} SpreadingHoldsInRuns<K, V>(run: seq<System<K, V>>, steps: seq<Step<K, V>>, n: nat, k: K,
      v: V)
    requires IsRun(run, steps) && 0 < n < |run| && Quiescent(run[0])
    requires IsSet(steps[0]) && steps[0].k == k && steps[0].v == v
    requires forall m :: 0 < m < n && IsSet(steps[m]) ==> steps[m].k != k
    ensures Spreading(run[n], k, v, Setter(steps[0]))
  {
    hide Next, Enabled;
    hide Spreading;
    if n == 1 {
      assert run[0 + 1] == Next(run[0], steps[0]);
      SetSpreads(run[0], steps[0]);
    } else {
      SpreadingHoldsInRuns(run, steps, n - 1, k, v);
      assert run[n - 1 + 1] == Next(run[n - 1], steps[n - 1]);
      SpreadingIsKept(run[n - 1], steps[n - 1], k, v, Setter(steps[0]));
    }
  }

  lemma SetSpreads<K, V>(s: System<K, V>, step: Step<K, V>)
    requires Shaped(s) && Quiescent(s) && IsSet(step) && Enabled(s, step)
    ensures Spreading(Next(s, step), step.k, step.v, Setter(step))
  {
    NextIsShaped(s, step);
  }

  // One set that no other set of the field rivals reaches every replica: it is not undone by an
  // echo or by an older value.
  lemma LoneSetPrevails<K, V>(run: seq<System<K, V>>, steps: seq<Step<K, V>>, n: nat, k: K, v: V)
    requires IsRun(run, steps) && 0 < n < |run|
    requires Quiescent(run[0]) && Agree(run[0])
    requires IsSet(steps[0]) && steps[0].k == k && steps[0].v == v
    requires forall m :: 0 < m < n && IsSet(steps[m]) ==> steps[m].k != k
    requires Quiescent(run[n])
    ensures k in run[n].server.values && run[n].server.values[k] == v
    ensures forall i :: 0 <= i < |run[n].clients| ==> k in run[n].clients[i].values && run[n].clients[i].values[k] == v
  {
    hide Quiescent, IsSet;
    SpreadingHoldsInRuns(run, steps, n, k, v);
    EveryQuietStateAgrees(run, steps, n);
    var who := Setter(steps[0]);
    if who >= 0 { assert Stands(run[n].clients[who], k, v, true); }
  }
}
