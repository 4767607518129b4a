/** Two protocols of Convergence whose messages travel together are one: a replica holds the values
    of both, and every packet says what it says in either. */
module Sharing {
  import opened Convergence
  import ComingToRest

  datatype Either<A, B> = Left(left: A) | Right(right: B)

  function BothSets<K(==, !new), L(==, !new)>(a: set<K>, b: set<L>): (r: set<Either<K, L>>)
    ensures forall k :: Left(k) in r <==> k in a
    ensures forall l :: Right(l) in r <==> l in b
  {
    (set k | k in a :: Either<K, L>.Left(k)) + (set l | l in b :: Either<K, L>.Right(l))
  }

  function BothMaps<K(!new), V, L(!new), W>(m: map<K, V>, w: map<L, W>): (r: map<Either<K, L>, Either<V, W>>)
    ensures r.Keys == BothSets(m.Keys, w.Keys)
  {
    map x | x in BothSets(m.Keys, w.Keys) :: if x.Left? then Left(m[x.left]) else Right(w[x.right])
  }

  function BothSites<K(!new), V, L(!new), W>(s: Site<K, V>, t: Site<L, W>): (r: Site<Either<K, L>, Either<V, W>>) {
    Site(BothMaps(s.values, t.values), BothSets(s.pending, t.pending))
  }

  function BothChannels<K(!new), V, L(!new), W>(c: Channel<K, V>, d: Channel<L, W>)
      : (r: Channel<Either<K, L>, Either<V, W>>)
    requires |c| == |d|
    ensures |r| == |c|
  {
    seq(|c|, j requires 0 <= j < |c| => BothMaps(c[j], d[j]))
  }

  predicate InStep<K(!new), V, L(!new), W>(cs: seq<Channel<K, V>>, ds: seq<Channel<L, W>>) {
    |cs| == |ds| && forall i :: 0 <= i < |cs| ==> |cs[i]| == |ds[i]|
  }

  predicate SameShape<K(!new), V, L(!new), W>(s: System<K, V>, t: System<L, W>) {
    |s.clients| == |t.clients| && InStep(s.down, t.down) && InStep(s.up, t.up)
  }

  function Clients<K(!new), V, L(!new), W>(ss: seq<Site<K, V>>, ts: seq<Site<L, W>>)
      : (r: seq<Site<Either<K, L>, Either<V, W>>>)
    requires |ss| == |ts|
  {
    seq(|ss|, i requires 0 <= i < |ss| => BothSites(ss[i], ts[i]))
  }

  function AllChannels<K(!new), V, L(!new), W>(cs: seq<Channel<K, V>>, ds: seq<Channel<L, W>>)
      : (r: seq<Channel<Either<K, L>, Either<V, W>>>)
    requires InStep(cs, ds)
  {
    seq(|cs|, i requires 0 <= i < |cs| => BothChannels(cs[i], ds[i]))
  }

  function Both<K(!new), V, L(!new), W>(s: System<K, V>, t: System<L, W>): (r: System<Either<K, L>, Either<V, W>>)
    requires SameShape(s, t)
  {
    System(BothSites(s.server, t.server), Clients(s.clients, t.clients), AllChannels(s.down, t.down),
           AllChannels(s.up, t.up))
  }

  // ---------------------------------------------------------------- the parts

  lemma WithinBoth<K(!new), L(!new)>(a: set<K>, b: set<L>, a': set<K>, b': set<L>)
    requires a <= a' && b <= b'
    ensures BothSets(a, b) <= BothSets(a', b')
  {
  }

  lemma LearnBoth<K(!new), V, L(!new), W>(s: Site<K, V>, t: Site<L, W>, m: map<K, V>, w: map<L, W>)
    requires m.Keys <= s.values.Keys && w.Keys <= t.values.Keys
    ensures BothMaps(m, w).Keys <= BothSites(s, t).values.Keys
    ensures Learn(BothSites(s, t), BothMaps(m, w)) == BothSites(Learn(s, m), Learn(t, w))
  {
    hide BothSets;
    WithinBoth(m.Keys, w.Keys, s.values.Keys, t.values.Keys);
    var r, r', u := BothSites(s, t), BothSites(Learn(s, m), Learn(t, w)), BothMaps(m, w);
    assert Learn(s, m).values.Keys == s.values.Keys && Learn(t, w).values.Keys == t.values.Keys;
    forall x | x in r.values
      ensures r'.values[x] == if x in u then u[x] else r.values[x]
    {
      if x.Left? { assert x.left in s.values; } else { assert x.right in t.values; }
    }
    forall x
      ensures x in r'.pending <==> x in r.pending || (x in u && u[x] != r.values[x])
    {
      if x.Left? {
        assert Left(x.left) in r'.pending <==> x.left in Learn(s, m).pending;
      } else {
        assert Right(x.right) in r'.pending <==> x.right in Learn(t, w).pending;
      }
    }
    LearnPointwise(r, u, r');
  }

  lemma LearnNothing<K, V>(s: Site<K, V>)
    ensures Learn(s, map[]) == s
  {
  }

  lemma OnlyLeft<K(!new), V, L(!new), W>(k: K, v: V)
    ensures BothMaps<K, V, L, W>(map[k := v], map[]) == map[Left(k) := Left(v)]
  {
  }

  lemma OnlyRight<K(!new), V, L(!new), W>(l: L, w: W)
    ensures BothMaps<K, V, L, W>(map[], map[l := w]) == map[Right(l) := Right(w)]
  {
  }

  lemma FlushBoth<K(!new), V, L(!new), W>(s: Site<K, V>, t: Site<L, W>)
    requires s.pending <= s.values.Keys && t.pending <= t.values.Keys
    ensures BothSites(s, t).pending <= BothSites(s, t).values.Keys
    ensures Delta(BothSites(s, t)) == BothMaps(Delta(s), Delta(t))
    ensures Calm(BothSites(s, t)) == BothSites(Calm(s), Calm(t))
  {
    hide BothSets;
    WithinBoth(s.pending, t.pending, s.values.Keys, t.values.Keys);
    NothingInBoth<K, L>();
    assert Delta(s).Keys == s.pending && Delta(t).Keys == t.pending;
    forall x | x in BothSets(s.pending, t.pending)
      ensures BothSites(s, t).values[x] == BothMaps(Delta(s), Delta(t))[x]
    {
      if x.Left? { assert x.left in s.pending; } else { assert x.right in t.pending; }
    }
    assert Delta(BothSites(s, t)).Keys == BothMaps(Delta(s), Delta(t)).Keys;
  }

  lemma NothingInBoth<K(!new), L(!new)>()
    ensures BothSets<K, L>({}, {}) == {}
  {
  }

  lemma PushBoth<K(!new), V, L(!new), W>(c: Channel<K, V>, d: Channel<L, W>, m: map<K, V>, w: map<L, W>)
    requires |c| == |d|
    ensures BothChannels(c + [m], d + [w]) == BothChannels(c, d) + [BothMaps(m, w)]
    ensures c != [] ==>
             BothChannels(c, d)[0] == BothMaps(c[0], d[0]) && BothChannels(c[1..], d[1..]) == BothChannels(c, d)[1..]
  {
    hide BothMaps;
  }

  lemma SendBoth<K(!new), V, L(!new), W>(cs: seq<Channel<K, V>>, ds: seq<Channel<L, W>>, m: map<K, V>,
      w: map<L, W>, except: int)
    requires InStep(cs, ds)
    ensures InStep(SendToAll(cs, m, except), SendToAll(ds, w, except))
    ensures AllChannels(SendToAll(cs, m, except), SendToAll(ds, w, except))
         == SendToAll(AllChannels(cs, ds), BothMaps(m, w), except)
  {
    hide BothMaps, BothChannels;
    forall i | 0 <= i < |cs|
      ensures BothChannels(cs[i] + [m], ds[i] + [w]) == BothChannels(cs[i], ds[i]) + [BothMaps(m, w)]
    {
      PushBoth(cs[i], ds[i], m, w);
    }
  }

  lemma ChannelBoth<K(!new), V, L(!new), W>(cs: seq<Channel<K, V>>, ds: seq<Channel<L, W>>, i: nat, c: Channel<K, V>,
      d: Channel<L, W>)
    requires InStep(cs, ds) && i < |cs| && |c| == |d|
    ensures InStep(cs[i := c], ds[i := d])
    ensures AllChannels(cs[i := c], ds[i := d]) == AllChannels(cs, ds)[i := BothChannels(c, d)]
    ensures AllChannels(cs, ds)[i] == BothChannels(cs[i], ds[i])
  {
    hide BothChannels;
  }

  lemma ClientBoth<K(!new), V, L(!new), W>(ss: seq<Site<K, V>>, ts: seq<Site<L, W>>, i: nat, s: Site<K, V>,
      t: Site<L, W>)
    requires |ss| == |ts| && i < |ss|
    ensures Clients(ss[i := s], ts[i := t]) == Clients(ss, ts)[i := BothSites(s, t)]
    ensures Clients(ss, ts)[i] == BothSites(ss[i], ts[i])
  {
    hide BothSites;
  }

  lemma BothAreShaped<K(!new), V, L(!new), W>(s: System<K, V>, t: System<L, W>)
    requires Shaped(s) && Shaped(t) && SameShape(s, t)
    ensures Shaped(Both(s, t)) && |Both(s, t).clients| == |s.clients|
  {
    hide BothSets, BothMaps;
    var r := Both(s, t);
    WithinBoth(s.server.pending, t.server.pending, s.server.values.Keys, t.server.values.Keys);
    forall i | 0 <= i < |s.clients|
      ensures r.clients[i].values.Keys == r.server.values.Keys && r.clients[i].pending <= r.server.values.Keys
    {
      WithinBoth(s.clients[i].pending, t.clients[i].pending, s.server.values.Keys, t.server.values.Keys);
    }
    MessagesAreWithin(s.down, t.down, s.server.values.Keys, t.server.values.Keys);
    MessagesAreWithin(s.up, t.up, s.server.values.Keys, t.server.values.Keys);
  }

  lemma MessagesAreWithin<K(!new), V, L(!new), W>(cs: seq<Channel<K, V>>, ds: seq<Channel<L, W>>, a: set<K>, b: set<L>)
    requires InStep(cs, ds)
    requires forall i, j :: 0 <= i < |cs| && 0 <= j < |cs[i]| ==> cs[i][j].Keys <= a
    requires forall i, j :: 0 <= i < |ds| && 0 <= j < |ds[i]| ==> ds[i][j].Keys <= b
    ensures var r := AllChannels(cs, ds);
      forall i, j :: 0 <= i < |r| && 0 <= j < |r[i]| ==> r[i][j].Keys <= BothSets(a, b)
  {
    hide BothSets, BothMaps;
    forall i, j | 0 <= i < |cs| && 0 <= j < |cs[i]|
      ensures AllChannels(cs, ds)[i][j].Keys <= BothSets(a, b)
    {
      WithinBoth(cs[i][j].Keys, ds[i][j].Keys, a, b);
    }
  }

  // ---------------------------------------------------------------- the steps

  // What a step of one of them is to the two together.
  function LeftStep<K, V, L, W>(x: Step<K, V>): (r: Step<Either<K, L>, Either<V, W>>) {
    match x
    case ServerSet(k, v) => ServerSet(Left(k), Left(v))
    case ClientSet(i, k, v) => ClientSet(i, Left(k), Left(v))
    case ServerFlush => ServerFlush
    case ClientFlush(i) => ClientFlush(i)
    case ServerReceive(i) => ServerReceive(i)
    case ClientReceive(i) => ClientReceive(i)
  }

  function RightStep<K, V, L, W>(y: Step<L, W>): (r: Step<Either<K, L>, Either<V, W>>) {
    match y
    case ServerSet(l, w) => ServerSet(Right(l), Right(w))
    case ClientSet(i, l, w) => ClientSet(i, Right(l), Right(w))
    case ServerFlush => ServerFlush
    case ClientFlush(i) => ClientFlush(i)
    case ServerReceive(i) => ServerReceive(i)
    case ClientReceive(i) => ClientReceive(i)
  }

  // A flush or a delivery is the same step of both.
  ghost predicate Alike<K, V, L, W>(x: Step<K, V>, y: Step<L, W>) {
    !IsSet(x) && !IsSet(y) && LeftStep<K, V, L, W>(x) == RightStep<K, V, L, W>(y)
  }

  // Taking both steps is taking the one step of the two together.
  ghost predicate Follow<K(!new), V, L(!new), W>(s: System<K, V>, t: System<L, W>, s': System<K, V>, t': System<L, W>,
      z: Step<Either<K, L>, Either<V, W>>) {
    && SameShape(s, t) && SameShape(s', t') && Shaped(Both(s, t)) && Enabled(Both(s, t), z)
    && Both(s', t') == Next(Both(s, t), z)
  }

  lemma ServerFlushBoth<K(!new), V, L(!new), W>(s: System<K, V>, t: System<L, W>)
    requires Shaped(s) && Shaped(t) && SameShape(s, t)
    ensures Follow(s, t, Next(s, ServerFlush), Next(t, ServerFlush), ServerFlush)
  {
    hide BothSites, BothChannels, AllChannels, Clients, Delta, Calm, SendToAll;
    BothAreShaped(s, t);
    FlushBoth(s.server, t.server);
    SendBoth(s.down, t.down, Delta(s.server), Delta(t.server), -1);
  }

  lemma ClientFlushBoth<K(!new), V, L(!new), W>(s: System<K, V>, t: System<L, W>, i: nat)
    requires Shaped(s) && Shaped(t) && SameShape(s, t) && i < |s.clients|
    ensures Follow(s, t, Next(s, ClientFlush(i)), Next(t, ClientFlush(i)), ClientFlush(i))
  {
    hide BothSites, BothChannels, AllChannels, Clients, Delta, Calm;
    BothAreShaped(s, t);
    FlushBoth(s.clients[i], t.clients[i]);
    ClientBoth(s.clients, t.clients, i, Calm(s.clients[i]), Calm(t.clients[i]));
    var m, w := Delta(s.clients[i]), Delta(t.clients[i]);
    PushBoth(s.up[i], t.up[i], m, w);
    ChannelBoth(s.up, t.up, i, s.up[i] + [m], t.up[i] + [w]);
  }

  lemma ServerReceiveBoth<K(!new), V, L(!new), W>(s: System<K, V>, t: System<L, W>, i: nat)
    requires Shaped(s) && Shaped(t) && SameShape(s, t) && i < |s.clients| && s.up[i] != []
    ensures Follow(s, t, Next(s, ServerReceive(i)), Next(t, ServerReceive(i)), ServerReceive(i))
  {
    hide BothSites, BothMaps, BothChannels, AllChannels, Clients, Learn, SendToAll;
    BothAreShaped(s, t);
    var m, w := s.up[i][0], t.up[i][0];
    LearnBoth(s.server, t.server, m, w);
    PushBoth(s.up[i], t.up[i], m, w);
    ChannelBoth(s.up, t.up, i, s.up[i][1..], t.up[i][1..]);
    SendBoth(s.down, t.down, m, w, i);
  }

  lemma ClientReceiveBoth<K(!new), V, L(!new), W>(s: System<K, V>, t: System<L, W>, i: nat)
    requires Shaped(s) && Shaped(t) && SameShape(s, t) && i < |s.clients| && s.down[i] != []
    ensures Follow(s, t, Next(s, ClientReceive(i)), Next(t, ClientReceive(i)), ClientReceive(i))
  {
    hide BothSites, BothMaps, BothChannels, AllChannels, Clients, Learn;
    BothAreShaped(s, t);
    var m, w := s.down[i][0], t.down[i][0];
    LearnBoth(s.clients[i], t.clients[i], m, w);
    PushBoth(s.down[i], t.down[i], m, w);
    ClientBoth(s.clients, t.clients, i, Learn(s.clients[i], m), Learn(t.clients[i], w));
    ChannelBoth(s.down, t.down, i, s.down[i][1..], t.down[i][1..]);
  }

  lemma NextBoth<K(!new), V, L(!new), W>(s: System<K, V>, t: System<L, W>, x: Step<K, V>, y: Step<L, W>)
    requires Shaped(s) && Shaped(t) && SameShape(s, t) && Enabled(s, x) && Enabled(t, y) && Alike(x, y)
    ensures Follow(s, t, Next(s, x), Next(t, y), LeftStep(x))
  {
    hide Shaped, SameShape, Follow, Next;
    match x
    case ServerFlush => ServerFlushBoth(s, t);
    case ClientFlush(i) => ClientFlushBoth(s, t, i);
    case ServerReceive(i) => ServerReceiveBoth(s, t, i);
    case ClientReceive(i) => ClientReceiveBoth(s, t, i);
    case _ =>
  }

  // A set in one of them is a set of the two together, and leaves the other as it is.
  lemma NextLeft<K(!new), V, L(!new), W>(s: System<K, V>, t: System<L, W>, x: Step<K, V>)
    requires Shaped(s) && Shaped(t) && SameShape(s, t) && Enabled(s, x) && IsSet(x)
    ensures Follow(s, t, Next(s, x), t, LeftStep(x))
  {
    hide BothSites, BothMaps, BothSets, BothChannels, AllChannels, Clients, Learn;
    BothAreShaped(s, t);
    OnlyLeft<K, V, L, W>(x.k, x.v);
    match x
    case ServerSet(k, v) =>
      LearnBoth(s.server, t.server, map[k := v], map[]);
      LearnNothing(t.server);
    case ClientSet(i, k, v) =>
      LearnBoth(s.clients[i], t.clients[i], map[k := v], map[]);
      LearnNothing(t.clients[i]);
      ClientBoth(s.clients, t.clients, i, Learn(s.clients[i], map[k := v]), t.clients[i]);
      assert t.clients[i := t.clients[i]] == t.clients;
    case _ =>
  }

  lemma NextRight<K(!new), V, L(!new), W>(s: System<K, V>, t: System<L, W>, y: Step<L, W>)
    requires Shaped(s) && Shaped(t) && SameShape(s, t) && Enabled(t, y) && IsSet(y)
    ensures Follow(s, t, s, Next(t, y), RightStep(y))
  {
    hide BothSites, BothMaps, BothSets, BothChannels, AllChannels, Clients, Learn;
    BothAreShaped(s, t);
    OnlyRight<K, V, L, W>(y.k, y.v);
    match y
    case ServerSet(l, w) =>
      LearnBoth(s.server, t.server, map[], map[l := w]);
      LearnNothing(s.server);
    case ClientSet(i, l, w) =>
      LearnBoth(s.clients[i], t.clients[i], map[], map[l := w]);
      LearnNothing(s.clients[i]);
      ClientBoth(s.clients, t.clients, i, s.clients[i], Learn(t.clients[i], map[l := w]));
      assert s.clients[i := s.clients[i]] == s.clients;
    case _ =>
  }

  // ---------------------------------------------------------------- counting

  lemma SameInBoth<K(!new), L(!new)>(r: set<Either<K, L>>, a: set<K>, b: set<L>)
    requires forall k :: Left(k) in r <==> k in a
    requires forall l :: Right(l) in r <==> l in b
    ensures r == BothSets(a, b)
  {
    hide BothSets;
    forall x
      ensures x in r <==> x in BothSets(a, b)
    {
      if x.Left? { assert Left(x.left) in r <==> x.left in a; } else { assert Right(x.right) in r <==> x.right in b; }
    }
  }

  lemma {:induction false} BothCount<K(!new), L(!new)>(a: set<K>, b: set<L>)
    ensures |BothSets(a, b)| == |a| + |b|
  {
    hide BothSets;
    if k :| k in a {
      BothCount(a - {k}, b);
      SameInBoth(BothSets(a - {k}, b) + {Left(k)}, a, b);
    } else if l :| l in b {
      BothCount(a, b - {l});
      SameInBoth(BothSets(a, b - {l}) + {Right(l)}, a, b);
    } else {
      SameInBoth({}, a, b);
    }
  }

  // ---------------------------------------------------------------- rest and rivals

  lemma QuietBoth<K(!new), V, L(!new), W>(s: System<K, V>, t: System<L, W>)
    requires SameShape(s, t) && Quiescent(s) && Quiescent(t)
    ensures Quiescent(Both(s, t))
    ensures Agree(Both(s, t)) <==> Agree(s) && Agree(t)
  {
    hide BothSets, BothMaps;
    NothingInBoth<K, L>();
    var u := Both(s, t);
    forall i | 0 <= i < |s.clients|
      ensures u.clients[i].values == u.server.values
         <==> s.clients[i].values == s.server.values && t.clients[i].values == t.server.values
    {
      SameMaps(s.clients[i].values, t.clients[i].values, s.server.values, t.server.values);
    }
  }

  lemma SameMaps<K(!new), V, L(!new), W>(m: map<K, V>, w: map<L, W>, m': map<K, V>, w': map<L, W>)
    ensures BothMaps(m, w) == BothMaps(m', w') <==> m == m' && w == w'
  {
    hide BothSets;
    var r, r' := BothMaps(m, w), BothMaps(m', w');
    if r == r' {
      forall k
        ensures k in m <==> k in m'
        ensures k in m ==> m[k] == m'[k]
      {
        assert Left(k) in r <==> Left(k) in r';
        if k in m { assert r[Left(k)] == r'[Left(k)]; }
      }
      forall l
        ensures l in w <==> l in w'
        ensures l in w ==> w[l] == w'[l]
      {
        assert Right(l) in r <==> Right(l) in r';
        if l in w { assert r[Right(l)] == r'[Right(l)]; }
      }
    }
  }

  // Two sites have nothing different to send.
  ghost predicate Apart<K(!new), V>(s: Site<K, V>, t: Site<K, V>)
    requires s.pending <= s.values.Keys && t.pending <= t.values.Keys
  {
    forall k :: !ComingToRest.Rivals(s, t, k)
  }

  ghost predicate AllApart<K(!new), V>(s: System<K, V>)
    requires Shaped(s)
  {
    && (forall i :: 0 <= i < |s.clients| ==> Apart(s.server, s.clients[i]))
    && (forall i, j :: 0 <= i < |s.clients| && 0 <= j < |s.clients| ==> Apart(s.clients[i], s.clients[j]))
  }

  lemma UnrivalledIsApart<K(!new), V>(s: System<K, V>)
    requires Shaped(s)
    ensures ComingToRest.Unrivalled(s) <==> AllApart(s)
  {
    hide ComingToRest.Rivals;
  }

  lemma ApartInBoth<K(!new), V, L(!new), W>(s: Site<K, V>, t: Site<L, W>,
      s': Site<K, V>, t': Site<L, W>)
    requires s.pending <= s.values.Keys && s'.pending <= s'.values.Keys
    requires t.pending <= t.values.Keys && t'.pending <= t'.values.Keys
    ensures var b, b' := BothSites(s, t), BothSites(s', t');
      b.pending <= b.values.Keys && b'.pending <= b'.values.Keys && (Apart(b, b') <==> Apart(s, s') && Apart(t, t'))
  {
    hide BothSets;
    WithinBoth(s.pending, t.pending, s.values.Keys, t.values.Keys);
    WithinBoth(s'.pending, t'.pending, s'.values.Keys, t'.values.Keys);
    var b, b' := BothSites(s, t), BothSites(s', t');
    if x :| ComingToRest.Rivals(b, b', x) {
      if x.Left? { assert ComingToRest.Rivals(s, s', x.left); } else { assert ComingToRest.Rivals(t, t', x.right); }
    }
    if k :| ComingToRest.Rivals(s, s', k) {
      assert ComingToRest.Rivals(b, b', Left(k));
    }
    if l :| ComingToRest.Rivals(t, t', l) {
      assert ComingToRest.Rivals(b, b', Right(l));
    }
  }

  lemma UnrivalledBoth<K(!new), V, L(!new), W>(s: System<K, V>, t: System<L, W>)
    requires Shaped(s) && Shaped(t) && SameShape(s, t) && Shaped(Both(s, t))
    ensures ComingToRest.Unrivalled(Both(s, t)) <==> ComingToRest.Unrivalled(s) && ComingToRest.Unrivalled(t)
  {
    hide BothSites, BothChannels, Apart, ComingToRest.Unrivalled;
    var u := Both(s, t);
    UnrivalledIsApart(s);
    UnrivalledIsApart(t);
    UnrivalledIsApart(u);
    assert forall i :: 0 <= i < |s.clients| ==> u.clients[i] == BothSites(s.clients[i], t.clients[i]);
    forall i | 0 <= i < |s.clients|
      ensures Apart(u.server, u.clients[i]) <==> Apart(s.server, s.clients[i]) && Apart(t.server, t.clients[i])
    {
      ApartInBoth(s.server, t.server, s.clients[i], t.clients[i]);
    }
    forall i, j | 0 <= i < |s.clients| && 0 <= j < |s.clients|
      ensures Apart(u.clients[i], u.clients[j])
         <==> Apart(s.clients[i], s.clients[j]) && Apart(t.clients[i], t.clients[j])
    {
      ApartInBoth(s.clients[i], t.clients[i], s.clients[j], t.clients[j]);
    }
  }
}
