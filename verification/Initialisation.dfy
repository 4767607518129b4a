/** INITIALIZE: the server dumps its tree in pre-order, a full packet for each parameter, and a
    client without any parameter rebuilds it.  ParameterServer::_init and _sendParameterFull of
    src/rabbitControl/parameterserver.cpp; ParameterClient::_update and
    ParameterManager::_addParameter on the other side. */
module Initialisation {
  import opened Bytes
  import opened Streams
  import opened Options
  import opened TypeDefinitions
  import opened TypeCodec
  import opened Forest
  import opened Parameters
  import opened ParameterCodec
  import opened ParameterDelta
  import opened Packets
  import opened FullDump
  import opened ParameterManager

  // ---------------------------------------------------------------- the order

  function Ids(xs: seq<Id>): (r: set<Id>) { set x | x in xs }

  // _sendParameterFull: the parameter, then its children in ascending order
  ghost function Dump(n: Nodes, d: Depth, x: Id): (r: seq<Id>)
    requires IsForest(n, d) && x in n
    decreases |Subtree(n, d, x)|, 0
  {
    ChildrenAreFewer(n, d, x);
    [x] + DumpAll(n, d, Ascending(n[x].children))
  }

  ghost function DumpAll(n: Nodes, d: Depth, xs: seq<Id>): (r: seq<Id>)
    requires IsForest(n, d) && Ids(xs) <= n.Keys
    decreases |Subtrees(n, d, Ids(xs))|, |xs|
  {
    if xs == [] then [] else
      HeadAndTailAreWithin(n, d, xs);
      Dump(n, d, xs[0]) + DumpAll(n, d, xs[1..])
  }

  lemma ChildrenAreFewer(n: Nodes, d: Depth, x: Id)
    requires IsForest(n, d) && x in n
    ensures Ids(Ascending(n[x].children)) == n[x].children
    ensures |Subtrees(n, d, n[x].children)| < |Subtree(n, d, x)|
  {
    hide Subtree, Subtrees, Below;
    SubtreeSplits(n, d, x);
  }

  lemma HeadAndTailAreWithin(n: Nodes, d: Depth, xs: seq<Id>)
    requires IsForest(n, d) && xs != [] && Ids(xs) <= n.Keys
    ensures xs[0] in n && Ids(xs[1..]) <= n.Keys && Ids(xs) == {xs[0]} + Ids(xs[1..])
    ensures Subtrees(n, d, Ids(xs)) == Subtree(n, d, xs[0]) + Subtrees(n, d, Ids(xs[1..]))
    ensures |Subtree(n, d, xs[0])| <= |Subtrees(n, d, Ids(xs))|
             && |Subtrees(n, d, Ids(xs[1..]))| <= |Subtrees(n, d, Ids(xs))|
  {
    assert Ids(xs) == Ids(xs[1..]) + {xs[0]};
    OneMoreSubtree(n, d, Ids(xs[1..]), xs[0]);
    Smaller(Subtree(n, d, xs[0]), Subtrees(n, d, Ids(xs)));
    Smaller(Subtrees(n, d, Ids(xs[1..])), Subtrees(n, d, Ids(xs)));
  }

  // Everything at or below the tops, once, each after its parent.
  ghost predicate IsDump(n: Nodes, d: Depth, tops: set<Id>, l: seq<Id>)
    requires IsForest(n, d)
  {
    && (forall y :: y in l <==> y in Subtrees(n, d, tops))
    && (forall i, j :: 0 <= i < j < |l| ==> l[i] != l[j])
    && (forall j :: 0 <= j < |l| ==> AfterParent(n, tops, l, j))
  }

  ghost predicate AfterParent(n: Nodes, tops: set<Id>, l: seq<Id>, j: nat)
    requires j < |l|
  {
    l[j] in tops || (l[j] in n && n[l[j]].parent.Some? && n[l[j]].parent.value in l[..j])
  }

  lemma DumpsJoin(n: Nodes, d: Depth, a: set<Id>, l: seq<Id>, b: set<Id>, m: seq<Id>)
    requires IsForest(n, d) && IsDump(n, d, a, l) && IsDump(n, d, b, m)
    requires Subtrees(n, d, a) !! Subtrees(n, d, b)
    requires Subtrees(n, d, a + b) == Subtrees(n, d, a) + Subtrees(n, d, b)
    ensures IsDump(n, d, a + b, l + m)
  {
    hide IsForest, Subtrees;
    forall i, j | 0 <= i < j < |l + m|
      ensures (l + m)[i] != (l + m)[j]
    {
      if i < |l| <= j { assert l[i] in l && m[j - |l|] in m; }
    }
    forall j | 0 <= j < |l + m|
      ensures AfterParent(n, a + b, l + m, j)
    {
      if j < |l| {
        assert AfterParent(n, a, l, j);
        assert (l + m)[..j] == l[..j];
      } else {
        assert AfterParent(n, b, m, j - |l|);
        assert (l + m)[..j] == l + m[..j - |l|];
      }
    }
  }

  lemma DumpAfterItsTop(n: Nodes, d: Depth, x: Id, l: seq<Id>)
    requires IsForest(n, d) && x in n && IsDump(n, d, n[x].children, l)
    ensures IsDump(n, d, {x}, [x] + l)
  {
    hide Subtree, Subtrees, Below, AfterParent, IsForest;
    SubtreeSplits(n, d, x);
    OneSubtree(n, d, x);
    assert x !in l;
    forall j | 0 <= j < |[x] + l|
      ensures AfterParent(n, {x}, [x] + l, j)
    {
      if j > 0 { assert AfterParent(n, n[x].children, l, j - 1); }
      AfterItsTop(n, d, x, l, j);
    }
    OnceAfterItsTop(x, l);
  }

  lemma AfterItsTop(n: Nodes, d: Depth, x: Id, l: seq<Id>, j: nat)
    requires IsForest(n, d) && x in n && j <= |l| && (j > 0 ==> AfterParent(n, n[x].children, l, j - 1))
    ensures AfterParent(n, {x}, [x] + l, j)
  {
    if j > 0 { assert ([x] + l)[..j] == [x] + l[..j - 1]; }
  }

  lemma OnceAfterItsTop(x: Id, l: seq<Id>)
    requires x !in l && forall i, j :: 0 <= i < j < |l| ==> l[i] != l[j]
    ensures forall i, j :: 0 <= i < j < |[x] + l| ==> ([x] + l)[i] != ([x] + l)[j]
  {
  }

  // The subtrees of the listed nodes have nothing in common.
  ghost predicate Apart(n: Nodes, d: Depth, xs: seq<Id>)
    requires IsForest(n, d)
  {
    forall i, j :: 0 <= i < j < |xs| ==> Subtree(n, d, xs[i]) !! Subtree(n, d, xs[j])
  }

  lemma ApartFromTheRest(n: Nodes, d: Depth, xs: seq<Id>)
    requires IsForest(n, d) && xs != [] && Apart(n, d, xs)
    ensures Subtree(n, d, xs[0]) !! Subtrees(n, d, Ids(xs[1..])) && Apart(n, d, xs[1..])
  {
    hide Below;
    forall y, x | x in xs[1..] && y in n && Below(n, d, y, x)
      ensures y !in Subtree(n, d, xs[0])
    {
      var j :| 0 <= j < |xs| - 1 && xs[1..][j] == x;
      assert xs[j + 1] == x;
      assert y in Subtree(n, d, x);
    }
    forall i, j | 0 <= i < j < |xs| - 1
      ensures Subtree(n, d, xs[1..][i]) !! Subtree(n, d, xs[1..][j])
    {
      assert xs[1..][i] == xs[i + 1] && xs[1..][j] == xs[j + 1];
    }
  }

  lemma ChildrenAreApart(n: Nodes, d: Depth, x: Id)
    requires IsForest(n, d) && x in n
    ensures Apart(n, d, Ascending(n[x].children))
  {
    var xs := Ascending(n[x].children);
    forall i, j | 0 <= i < j < |xs|
      ensures Subtree(n, d, xs[i]) !! Subtree(n, d, xs[j])
    {
      assert xs[i] in xs && xs[j] in xs;
      SiblingsAreApart(n, d, x, xs[i], xs[j]);
    }
  }

  lemma {:induction false} DumpIsDump(n: Nodes, d: Depth, x: Id)
    requires IsForest(n, d) && x in n
    ensures IsDump(n, d, {x}, Dump(n, d, x))
    decreases |Subtree(n, d, x)|, 0
  {
    hide IsDump, Subtree, Subtrees, Below;
    ChildrenAreFewer(n, d, x);
    ChildrenAreApart(n, d, x);
    DumpAllIsDump(n, d, Ascending(n[x].children));
    DumpAfterItsTop(n, d, x, DumpAll(n, d, Ascending(n[x].children)));
  }

  lemma {:induction false} DumpAllIsDump(n: Nodes, d: Depth, xs: seq<Id>)
    requires IsForest(n, d) && Ids(xs) <= n.Keys && Apart(n, d, xs)
    ensures IsDump(n, d, Ids(xs), DumpAll(n, d, xs))
    decreases |Subtrees(n, d, Ids(xs))|, |xs|
  {
    if xs == [] {
      assert Ids(xs) == {};
      EmptyDump(n, d);
    } else {
      HeadAndTailAreWithin(n, d, xs);
      ApartFromTheRest(n, d, xs);
      OneSubtree(n, d, xs[0]);
      assert DumpAll(n, d, xs) == Dump(n, d, xs[0]) + DumpAll(n, d, xs[1..]);
      hide IsDump, Subtree, Subtrees, Below, Dump, DumpAll, Ids, Apart, IsForest;
      DumpIsDump(n, d, xs[0]);
      DumpAllIsDump(n, d, xs[1..]);
      DumpsJoin(n, d, {xs[0]}, Dump(n, d, xs[0]), Ids(xs[1..]), DumpAll(n, d, xs[1..]));
    }
  }

  lemma EmptyDump(n: Nodes, d: Depth)
    requires IsForest(n, d)
    ensures IsDump(n, d, {}, [])
  {
  }

  // ---------------------------------------------------------------- the server's side

  predicate IsGroup(td: TypeDef) { td == NoOptions(GROUP) }

  // A parameter as the server holds it: only ever touched by setters, in agreement with its
  // node, and not in the state in which its value is its only pending change.
  ghost predicate Ready(p: Param, id: Id, node: Node) {
    && p.id == id && Sendable(p) && SetterOnlyType(p.td) && SetterOnlyFields(p) && !OnlyValueChanged(p)
    && (IsGroup(p.td) <==> node.group)
    && (p.parent.has <==> node.parent.Some?) && (p.parent.has ==> p.parent.value == node.parent.value)
  }

  ghost predicate Dumpable(n: Nodes, d: Depth, cache: map<Id, Param>) {
    && IsForest(n, d) && ROOT in n && n[ROOT].parent.None?
    && cache.Keys == n.Keys - {ROOT}
    && forall id :: id in cache ==> Ready(cache[id], id, n[id])
  }

  // The ids that _init sends, in order, and their packets.
  ghost function InitOrder(n: Nodes, d: Depth): (r: seq<Id>)
    requires IsForest(n, d) && ROOT in n
  {
    ChildrenAreFewer(n, d, ROOT);
    DumpAll(n, d, Ascending(n[ROOT].children))
  }

  function FullPacket(p: Param): (r: Text) { PacketBytes(UpdateOf(p), true) }

  function FullPackets(cache: map<Id, Param>, l: seq<Id>): (r: seq<Text>)
    requires forall id :: id in l ==> id in cache
  {
    seq(|l|, i requires 0 <= i < |l| => FullPacket(cache[l[i]]))
  }

  lemma InitOrderIsADump(n: Nodes, d: Depth)
    requires IsForest(n, d) && ROOT in n
    ensures IsDump(n, d, n[ROOT].children, InitOrder(n, d))
    ensures Ids(InitOrder(n, d)) == Subtree(n, d, ROOT) - {ROOT}
  {
    hide Subtree, Subtrees, Below, DumpAll;
    ChildrenAreFewer(n, d, ROOT);
    ChildrenAreApart(n, d, ROOT);
    SubtreeSplits(n, d, ROOT);
    DumpAllIsDump(n, d, Ascending(n[ROOT].children));
  }

  // ---------------------------------------------------------------- the client's side

  datatype Client = Client(params: map<Id, Param>, nodes: Nodes)

  function Groups(c: Client): (r: set<Id>) { set id | id in c.params && IsGroup(c.params[id].td) }

  // received() of an update: a parameter not in the cache is added, under its parent if it
  // has one; a known one is updated.  (A known one that changes its parent is moved by
  // ParameterManager.Manager.AddChild.)
  function Receive(c: Client, bytes: Text): (r: Client) {
    match ParsePacket(Groups(c), In(bytes))
    case Accepted(k, _) =>
      if (k.command == UPDATE || k.command == UPDATEVALUE) && k.data.Some? && k.data.value.ParamPayload? then
        var x := k.data.value.p;
        if x.id in c.params then c.(params := c.params[x.id := Applied(c.params[x.id], x)])
        else Client(c.params[x.id := x], Added(c.nodes, x.id, IsGroup(x.td), ParentIn(c.nodes, x)))
      else c
    case _ => c
  }

  function ParentIn(n: Nodes, x: Param): (r: Option<Id>)
    ensures r.Some? ==> r.value in n && r.value != x.id
  {
    if x.parent.has && x.parent.value in n && x.parent.value != x.id then Some(x.parent.value) else None
  }

  function ReceiveAll(c: Client, packets: seq<Text>): (r: Client)
    decreases |packets|
  {
    if packets == [] then c else Receive(ReceiveAll(c, packets[..|packets| - 1]), packets[|packets| - 1])
  }

  const NEW_CLIENT := Client(map[], map[])

  // ---------------------------------------------------------------- the replay

  // The client's copy: no pending change, and the root as no parent.
  function Copy(p: Param): (r: Param) {
    LowerParam(p).(parent := if p.parent.has && p.parent.value != ROOT then Lower(p.parent) else Fresh(ROOT))
  }

  function CopyNode(node: Node, seen: set<Id>): (r: Node) {
    Node(node.group, if node.parent == Some(ROOT) then None else node.parent, node.children * seen)
  }

  ghost predicate Copied(c: Client, n: Nodes, cache: map<Id, Param>, seen: set<Id>)
    requires seen <= cache.Keys && seen <= n.Keys
  {
    && c.params.Keys == seen && (forall id :: id in seen ==> c.params[id] == Copy(cache[id]))
    && c.nodes.Keys == seen && (forall id :: id in seen ==> c.nodes[id] == CopyNode(n[id], seen))
  }

  lemma FullPacketIsRead(p: Param, id: Id, node: Node, c: Client)
    requires Ready(p, id, node) && (p.parent.has && p.parent.value != ROOT ==> p.parent.value in Groups(c))
    ensures ParsePacket(Groups(c), In(FullPacket(p))) == Accepted(UpdateOf(Copy(p)), In([]))
    ensures Copy(p).id == id && (IsGroup(Copy(p).td) <==> node.group)
  {
    hide ParsePacket, PacketBytes, SetterOnlyFields, Proxy, LowerType, Groups;
    DumpArrivesIff(p, Groups(c));
    FullWriteIsTheParameter(p, Groups(c));
    CopyKeepsGroups(p);
    hide Sendable, SetterOnlyType, OnlyValueChanged;
  }

  // What one full packet is to a client that knows the parameter's group.
  lemma FullPacketIsTheCopy(p: Param, id: Id, node: Node, c: Client)
    requires Ready(p, id, node) && id !in c.params
    requires p.parent.has && p.parent.value != ROOT ==> p.parent.value in Groups(c)
    ensures Receive(c, FullPacket(p))
             == Client(c.params[id := Copy(p)], Added(c.nodes, id, node.group, ParentIn(c.nodes, Copy(p))))
  {
    hide ParsePacket, Ready, Copy, Groups, Added, FullPacket;
    FullPacketIsRead(p, id, node, c);
  }

  // Where the next parameter of a dump stands: its group was seen before, its children were not.
  lemma NextInTheDump(n: Nodes, d: Depth, l: seq<Id>, k: nat)
    requires IsForest(n, d) && ROOT in n && n[ROOT].parent.None? && IsDump(n, d, n[ROOT].children, l) && k < |l|
    ensures l[k] in n && l[k] != ROOT && l[k] !in Ids(l[..k]) && Ids(l[..k + 1]) == Ids(l[..k]) + {l[k]}
    ensures n[l[k]].parent.Some? && (n[l[k]].parent.value == ROOT || n[l[k]].parent.value in Ids(l[..k]))
    ensures n[l[k]].children * Ids(l[..k + 1]) == {}
    ensures forall g :: g in n && l[k] in n[g].children ==> n[l[k]].parent == Some(g)
  {
    hide Subtree, Subtrees, Below;
    SubtreeSplits(n, d, ROOT);
    var id := l[k];
    assert id in l;
    assert AfterParent(n, n[ROOT].children, l, k);
    assert l[..k + 1] == l[..k] + [id];
    forall j | 0 <= j < k + 1
      ensures l[j] !in n[id].children
    {
      assert AfterParent(n, n[ROOT].children, l, j);
    }
  }

  lemma NodesGrow(m: Nodes, n: Nodes, seen: set<Id>, id: Id, parent: Option<Id>)
    requires seen <= n.Keys && id in n && id !in seen && m.Keys == seen
    requires forall y :: y in seen ==> m[y] == CopyNode(n[y], seen)
    requires parent == if n[id].parent == Some(ROOT) then None else n[id].parent
    requires parent.Some? ==> parent.value in seen && id in n[parent.value].children
    requires n[id].children * (seen + {id}) == {}
    requires forall g :: g in n && id in n[g].children ==> n[id].parent == Some(g)
    requires ROOT !in seen
    ensures var m' := Added(m, id, n[id].group, parent); var seen' := seen + {id};
      m'.Keys == seen' && forall y :: y in seen' ==> m'[y] == CopyNode(n[y], seen')
  {
    var seen' := seen + {id};
    var m' := Added(m, id, n[id].group, parent);
    forall y | y in seen'
      ensures m'[y] == CopyNode(n[y], seen')
    {
      if y == id {
        assert n[id].children * seen' == {};
      } else if parent == Some(y) {
        assert n[y].children * seen' == n[y].children * seen + {id};
      } else {
        assert id !in n[y].children;
        assert n[y].children * seen' == n[y].children * seen;
      }
    }
  }

  lemma CopyKeepsGroups(p: Param)
    ensures IsGroup(Copy(p).td) <==> IsGroup(p.td)
  {
  }

  // The client knows the group of the next parameter.
  lemma ParentIsKnown(c: Client, n: Nodes, d: Depth, cache: map<Id, Param>, seen: set<Id>, id: Id)
    requires Dumpable(n, d, cache) && seen <= cache.Keys && Copied(c, n, cache, seen) && id in cache && id !in seen
    requires n[id].parent.Some? && (n[id].parent.value == ROOT || n[id].parent.value in seen)
    ensures Ready(cache[id], id, n[id])
    ensures n[id].parent.value != ROOT ==> n[id].parent.value in Groups(c)
    ensures ParentIn(c.nodes, Copy(cache[id])) == if n[id].parent == Some(ROOT) then None else n[id].parent
    ensures n[id].parent.value != ROOT ==> id in n[n[id].parent.value].children
  {
    hide Sendable, SetterOnlyType, SetterOnlyFields, OnlyValueChanged, LowerType;
    assert Ready(cache[id], id, n[id]);
    var g := n[id].parent.value;
    if g != ROOT {
      CopyKeepsGroups(cache[g]);
      assert c.params[g] == Copy(cache[g]) && Ready(cache[g], g, n[g]);
    }
  }

  lemma CopiedGrows(c: Client, n: Nodes, cache: map<Id, Param>, seen: set<Id>, id: Id, m: Nodes, seen': set<Id>)
    requires seen <= cache.Keys && seen <= n.Keys && Copied(c, n, cache, seen)
    requires id in cache && id in n && id !in seen && seen' == seen + {id}
    requires m.Keys == seen' && forall y :: y in seen' ==> m[y] == CopyNode(n[y], seen')
    ensures Copied(Client(c.params[id := Copy(cache[id])], m), n, cache, seen')
  {
    hide Copy, CopyNode;
  }

  // The next parameter of a dump, and the client's tree with it.
  lemma NextIsACopy(c: Client, n: Nodes, d: Depth, cache: map<Id, Param>, l: seq<Id>, k: nat)
    requires Dumpable(n, d, cache) && IsDump(n, d, n[ROOT].children, l) && k < |l| && Ids(l) <= cache.Keys
    requires Ids(l[..k]) <= cache.Keys && Copied(c, n, cache, Ids(l[..k]))
    ensures l[k] in cache && l[k] in n && l[k] !in c.params && Ready(cache[l[k]], l[k], n[l[k]])
    ensures Ids(l[..k + 1]) == Ids(l[..k]) + {l[k]} <= n.Keys && l[k] !in Ids(l[..k])
    ensures cache[l[k]].parent.has && cache[l[k]].parent.value != ROOT ==> cache[l[k]].parent.value in Groups(c)
    ensures var parent := ParentIn(c.nodes, Copy(cache[l[k]]));
      (parent.Some? ==> parent.value in c.nodes && parent.value != l[k])
    ensures var parent := ParentIn(c.nodes, Copy(cache[l[k]])); var m := Added(c.nodes, l[k], n[l[k]].group, parent);
      m.Keys == Ids(l[..k + 1]) && forall y :: y in m ==> m[y] == CopyNode(n[y], m.Keys)
  {
    hide IsForest, Subtree, AfterParent, Copy, CopyNode, Groups, Added;
    NextInTheDump(n, d, l, k);
    var id, seen := l[k], Ids(l[..k]);
    assert id in cache by { assert id in l; assert id in Ids(l); }
    var parent := if n[id].parent == Some(ROOT) then None else n[id].parent;
    ParentIsKnown(c, n, d, cache, seen, id);
    assert cache[id].parent.has ==> cache[id].parent.value == n[id].parent.value;
    assert ROOT !in seen && c.params.Keys == seen;
    NodesGrow(c.nodes, n, seen, id, parent);
  }

  lemma CopyStep(c: Client, n: Nodes, d: Depth, cache: map<Id, Param>, l: seq<Id>, k: nat)
    requires Dumpable(n, d, cache) && IsDump(n, d, n[ROOT].children, l) && k < |l| && Ids(l) <= cache.Keys
    requires Ids(l[..k]) <= cache.Keys && Copied(c, n, cache, Ids(l[..k]))
    ensures l[k] in cache && Ids(l[..k + 1]) <= cache.Keys
    ensures Copied(Receive(c, FullPacket(cache[l[k]])), n, cache, Ids(l[..k + 1]))
  {
    hide *;
    NextIsACopy(c, n, d, cache, l, k);
    var id := l[k];
    FullPacketIsTheCopy(cache[id], id, n[id], c);
    var m := Added(c.nodes, id, n[id].group, ParentIn(c.nodes, Copy(cache[id])));
    CopiedGrows(c, n, cache, Ids(l[..k]), id, m, Ids(l[..k + 1]));
  }

  lemma OneReceivedMore(cache: map<Id, Param>, l: seq<Id>, k: nat)
    requires 0 < k <= |l| && (forall id :: id in l ==> id in cache) && l[k - 1] in cache
    ensures ReceiveAll(NEW_CLIENT, FullPackets(cache, l)[..k])
         == Receive(ReceiveAll(NEW_CLIENT, FullPackets(cache, l)[..k - 1]), FullPacket(cache[l[k - 1]]))
  {
    hide Receive, FullPacket;
    var packets := FullPackets(cache, l)[..k];
    assert packets[..k - 1] == FullPackets(cache, l)[..k - 1] && packets[k - 1] == FullPacket(cache[l[k - 1]]);
  }

  lemma {:induction false} ReplayCopies(n: Nodes, d: Depth, cache: map<Id, Param>, l: seq<Id>, k: nat)
    requires Dumpable(n, d, cache) && IsDump(n, d, n[ROOT].children, l) && k <= |l| && Ids(l) <= cache.Keys
    requires forall id :: id in l ==> id in cache
    ensures Ids(l[..k]) <= cache.Keys
             && Copied(ReceiveAll(NEW_CLIENT, FullPackets(cache, l)[..k]), n, cache, Ids(l[..k]))
  {
    hide Dumpable, IsDump, IsForest, Subtree, FullPacket, Receive;
    if k == 0 {
      assert Ids(l[..0]) == {};
    } else {
      ReplayCopies(n, d, cache, l, k - 1);
      assert l[k - 1] in l;
      OneReceivedMore(cache, l, k);
      CopyStep(ReceiveAll(NEW_CLIENT, FullPackets(cache, l)[..k - 1]), n, d, cache, l, k - 1);
    }
  }

  // A client without parameters that applies the packets of INITIALIZE in order ends with every
  // parameter below the root: same ids, same options and values, same groups and children, the
  // same parent except that the root is no parent on the wire.
  lemma InitialiseRebuildsTheTree(n: Nodes, d: Depth, cache: map<Id, Param>)
    requires Dumpable(n, d, cache)
    ensures forall id :: id in InitOrder(n, d) ==> id in cache
    ensures var c := ReceiveAll(NEW_CLIENT, FullPackets(cache, InitOrder(n, d)));
      && c.params.Keys == c.nodes.Keys == Subtree(n, d, ROOT) - {ROOT}
      && (forall id :: id in c.params ==> c.params[id] == Copy(cache[id]))
      && (forall id :: id in c.nodes ==>
            c.nodes[id] == Node(n[id].group, if n[id].parent == Some(ROOT) then None else n[id].parent, n[id].children))
  {
    hide Receive, ReceiveAll, InitOrder, Subtree, Copy, IsDump;
    InitOrderIsADump(n, d);
    var l := InitOrder(n, d);
    assert forall id :: id in l <==> id in Ids(l);
    ReplayCopies(n, d, cache, l, |l|);
    assert l[..|l|] == l && FullPackets(cache, l)[..|l|] == FullPackets(cache, l);
    forall id | id in Ids(l)
      ensures n[id].children * Ids(l) == n[id].children
    {
      ChildrenBelowRoot(n, d, id);
    }
  }

  lemma ChildrenBelowRoot(n: Nodes, d: Depth, id: Id)
    requires IsForest(n, d) && ROOT in n && n[ROOT].parent.None? && id in Subtree(n, d, ROOT)
    ensures n[id].children <= Subtree(n, d, ROOT) - {ROOT}
  {
    forall y | y in n[id].children
      ensures Below(n, d, y, ROOT) && y != ROOT
    {
    }
  }

  // Every parameter that hangs in the tree is dumped, once, each group before its children.
  lemma InitialiseListsTheTree(n: Nodes, d: Depth)
    requires IsForest(n, d) && ROOT in n && n[ROOT].parent.None?
    ensures var l := InitOrder(n, d);
      && (forall y :: y in l <==> y in Subtree(n, d, ROOT) && y != ROOT)
      && (forall i, j :: 0 <= i < j < |l| ==> l[i] != l[j])
      && forall j :: 0 <= j < |l| ==>
           l[j] in n && n[l[j]].parent.Some? && (n[l[j]].parent.value == ROOT || n[l[j]].parent.value in l[..j])
  {
    hide InitOrder, Subtree, Subtrees, IsForest;
    InitOrderIsADump(n, d);
    var l := InitOrder(n, d);
    forall y
      ensures y in l <==> y in Ids(l)
    {
    }
    forall j | 0 <= j < |l|
      ensures l[j] in n && n[l[j]].parent.Some? && (n[l[j]].parent.value == ROOT || n[l[j]].parent.value in l[..j])
    {
      NextInTheDump(n, d, l, j);
    }
  }
}
