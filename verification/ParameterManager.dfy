/** The parameter manager: src/rabbitControl/parametermanager.cpp, with the group operations of
    src/rabbitControl/parameter_group.cpp as they act on the manager's parameters.

    The objects are the `nodes`, by id; `params` and `ids` are the manager's own two records of
    which of them it holds.  The dirty and removed maps keep ids: their values are the objects. */
module ParameterManager {
  import opened Bytes
  import opened Forest

  // static_cast<short> of an unsigned short
  function Short(i: nat): (r: Id)
    requires i < 0x1_0000
  {
    if i < 0x8000 then i else i - 0x1_0000
  }

  const LAST_ID: nat := 65534

  ghost function ShortsUpTo(n: nat): (r: set<Id>)
    requires n <= LAST_ID
  {
    set i: nat | 1 <= i <= n :: Short(i)
  }

  lemma {:induction false} CountOfShorts(n: nat)
    requires n <= LAST_ID
    ensures |ShortsUpTo(n)| == n
  {
    if n == 0 {
      assert ShortsUpTo(0) == {};
    } else {
      CountOfShorts(n - 1);
      assert ShortsUpTo(n) == ShortsUpTo(n - 1) + {Short(n)};
    }
  }

  // The k-th candidate of getNextId is the one it takes.
  ghost predicate LeastFree(ids: set<Id>, k: nat)
  {
    1 <= k <= LAST_ID && Short(k) !in ids && forall j :: 1 <= j < k ==> Short(j) in ids
  }

  // In the order of the ids read as unsigned, the candidate is the first that is not in use.
  lemma FirstFree(ids: set<Id>, k: nat)
    requires LeastFree(ids, k)
    ensures var id: int := Short(k);
      && id !in ids && id != 0 && 1 <= (if id >= 0 then id else id + 0x1_0000) <= 65534
      && forall x: Id ::
           1 <= (if x >= 0 then x else x + 0x1_0000) < (if id >= 0 then id else id + 0x1_0000) ==> x in ids
  {
    var id: int := Short(k);
    forall x: Id | 1 <= (if x >= 0 then x else x + 0x1_0000) < (if id >= 0 then id else id + 0x1_0000)
      ensures x in ids
    {
      var j := if x >= 0 then x else x + 0x1_0000;
      assert Short(j) == x;
    }
  }

  lemma NoneFree(ids: set<Id>)
    requires forall k :: 1 <= k <= LAST_ID ==> Short(k) in ids
    ensures forall x: Id :: 1 <= (if x >= 0 then x else x + 0x1_0000) <= 65534 ==> x in ids
  {
    forall x: Id | 1 <= (if x >= 0 then x else x + 0x1_0000) <= 65534
      ensures x in ids
    {
      var j := if x >= 0 then x else x + 0x1_0000;
      assert Short(j) == x;
    }
  }

  // With fewer than 65534 ids taken there is a free one.
  lemma SomeIdIsFree(ids: set<Id>)
    requires |ids| < LAST_ID
    ensures exists k :: 1 <= k <= LAST_ID && Short(k) !in ids
  {
    if forall k :: 1 <= k <= LAST_ID ==> Short(k) in ids {
      assert ShortsUpTo(LAST_ID) <= ids;
      CountOfShorts(LAST_ID);
      Smaller(ShortsUpTo(LAST_ID), ids);
    }
  }

  lemma Smaller(a: set<Id>, b: set<Id>)
    requires a <= b
    ensures |a| <= |b|
  {
    assert b == a + (b - a);
  }

  lemma SameGroup(n: Nodes, d: Depth, x: Id, g: Id)
    requires IsForest(n, d) && x in n && g in n && n[x].parent == Some(g)
    ensures n[g := n[g].(children := n[g].children + {x})] == n
  {
    assert n[g].children + {x} == n[g].children;
  }

  lemma GroupIsAbove(n: Nodes, d: Depth, x: Id, g: Id)
    requires IsForest(n, d) && x in n && n[x].parent == Some(g)
    ensures g !in Subtree(n, d, x)
  {
    if Below(n, d, g, x) { BelowIsDeeper(n, d, g, x); }
  }

  // The depths after addChild.
  ghost function DepthAfter(n: Nodes, d: Depth, x: Id, g: Id): (r: Depth)
    requires IsForest(n, d) && x in n && g in n
  {
    if n[x].parent == Some(g) || g in Subtree(n, d, x) then d else Lowered(d, Subtree(n, d, x), d[g] + 1)
  }

  // The tree after addChild.
  function ChildAdded(n: Nodes, x: Id, g: Id): (r: Nodes)
    requires x in n && g in n && (n[x].parent.Some? ==> n[x].parent.value in n && n[x].parent.value != x)
  {
    if n[x].parent == Some(g) then n else Attach(n, x, g)
  }

  // The records after addChild, and whether they are a tree.
  lemma AddingKeepsRecords(n: Nodes, d: Depth, params: set<Id>, x: Id, g: Id)
    requires IsForest(n, d) && n.Keys == params + {ROOT} && ROOT !in params && n[ROOT].group && n[ROOT].parent.None?
    requires x in params && g in n && n[g].group
    ensures n[x].parent.Some? ==> n[x].parent.value in n && n[x].parent.value != x && x in n[n[x].parent.value].children
    ensures n[x].parent == Some(g) ==> n[g := n[g].(children := n[g].children + {x})] == n
    ensures n[x].parent != Some(g) ==>
      ChildAdded(n, x, g) == Rehung(n[g := n[g].(children := n[g].children + {x})], x, g)
    ensures n[x].parent == Some(g) ==> ChildAdded(n, x, g) == n
    ensures var n' := ChildAdded(n, x, g); n'.Keys == n.Keys && n'[ROOT].group && n'[ROOT].parent.None?
    ensures g !in Subtree(n, d, x) ==> IsForest(ChildAdded(n, x, g), DepthAfter(n, d, x, g))
    ensures g in Subtree(n, d, x) ==> NoForest(ChildAdded(n, x, g))
  {
    if n[x].parent == Some(g) {
      SameGroup(n, d, x, g);
      GroupIsAbove(n, d, x, g);
    } else {
      AttachKeeps(n, d, x, g);
      AttachIsForestIff(n, d, x, g);
      if g !in Subtree(n, d, x) { AttachIsForest(n, d, x, g); }
    }
  }

  // What the server's flush puts on the wire, in order.
  datatype Change = Remove(id: Id) | Update(id: Id)

  // std::map iterates its keys in ascending order.
  ghost predicate IsLeast(r: Id, s: set<Id>) { r in s && forall x :: x in s ==> r <= x }

  function Least(s: set<Id>): (r: Id)
    requires s != {}
    ensures IsLeast(r, s)
  {
    HasLeast(s);
    var r :| r in s && forall x :: x in s ==> r <= x;
    r
  }

  lemma {:induction false} HasLeast(s: set<Id>)
    requires s != {}
    ensures exists r :: IsLeast(r, s)
    ensures exists r :: r in s && forall x :: x in s ==> r <= x
    decreases |s|
  {
    var a :| a in s;
    var r := a;
    if s != {a} {
      HasLeast(s - {a});
      var b :| IsLeast(b, s - {a});
      r := if a <= b then a else b;
    }
    forall x | x in s
      ensures r <= x
    {
      if x != a { assert x in s - {a}; }
    }
    assert IsLeast(r, s);
  }

  function Ascending(s: set<Id>): (r: seq<Id>)
    ensures forall x :: x in r <==> x in s
    ensures forall i, j :: 0 <= i < j < |r| ==> r[i] < r[j]
    decreases |s|
  {
    if s == {} then [] else [Least(s)] + Ascending(s - {Least(s)})
  }

  function Removes(ids: seq<Id>): (r: seq<Change>) {
    seq(|ids|, i requires 0 <= i < |ids| => Remove(ids[i]))
  }

  function Updates(ids: seq<Id>): (r: seq<Change>) {
    seq(|ids|, i requires 0 <= i < |ids| => Update(ids[i]))
  }

  // A parameter that came in from the other side, under its parent or by itself.
  function Added(n: Nodes, id: Id, isGroup: bool, parent: Option<Id>): (r: Nodes)
    requires parent.Some? ==> parent.value in n && parent.value != id
  {
    if parent.Some? then Leaf(n, id, isGroup, parent.value) else n[id := Node(isGroup, None, {})]
  }

  ghost function AddedDepth(d: Depth, id: Id, parent: Option<Id>): (r: Depth)
    requires parent.Some? ==> parent.value in d
  {
    d[id := if parent.Some? then d[parent.value] + 1 else 0]
  }

  lemma AddedIsForest(n: Nodes, d: Depth, id: Id, isGroup: bool, parent: Option<Id>)
    requires IsForest(n, d) && id !in n && (parent.Some? ==> parent.value in n && n[parent.value].group)
    ensures parent.Some? ==> parent.value in d
    ensures IsForest(Added(n, id, isGroup, parent), AddedDepth(d, id, parent))
  {
    if parent.Some? { LeafIsForest(n, d, id, isGroup, parent.value); }
  }

  // The two ends of a link can be cut in either order.
  lemma CutEitherWay(n: Nodes, d: Depth, g: Id, x: Id)
    requires IsForest(n, d) && g in n && x in n && x in n[g].children
    ensures n[x].parent == Some(g) && g != x && IsForest(Cut(n, x), d) && Cut(n, x).Keys == n.Keys
    ensures var n' := n[x := n[x].(parent := None)]; n'[g := n'[g].(children := n'[g].children - {x})] == Cut(n, x)
  {
    assert n[x].parent == Some(g);
    CutIsForest(n, d, x);
  }

  // A leaf and its records.
  lemma LeafKeepsRecords(n: Nodes, d: Depth, params: set<Id>, x: Id, isGroup: bool, g: Id)
    requires IsForest(n, d) && n.Keys == params + {ROOT} && ROOT !in params && n[ROOT].group && n[ROOT].parent.None?
    requires x !in n && g in n && n[g].group
    ensures g in d && g != x && IsForest(Leaf(n, x, isGroup, g), d[x := d[g] + 1])
    ensures var n' := n[x := Node(isGroup, Some(g), {})];
      n'[g := n'[g].(children := n'[g].children + {x})] == Leaf(n, x, isGroup, g)
    ensures var n' := Leaf(n, x, isGroup, g);
      n'.Keys == params + {x} + {ROOT} && n'[ROOT].group && n'[ROOT].parent.None?
  {
    hide IsForest;
    LeafIsForest(n, d, x, isGroup, g);
  }

  lemma AddedKeepsRoot(n: Nodes, id: Id, isGroup: bool, parent: Option<Id>)
    requires parent.Some? ==> parent.value in n && parent.value != id
    requires ROOT in n && id != ROOT
    ensures var n' := Added(n, id, isGroup, parent);
      n'.Keys == n.Keys + {id} && n'[ROOT].group == n[ROOT].group && n'[ROOT].parent == n[ROOT].parent
  {
  }

  // A node and then what lies below it.
  lemma Tally(params: set<Id>, dirty: set<Id>, removed: set<Id>, sub: set<Id>, id: Id, hung: bool)
    requires id in sub
    ensures params - {id} - (sub - {id}) == params - sub
    ensures (if hung && id !in removed then dirty + {id} else dirty) + (sub - {id} - removed) ==
            dirty + (sub - {id} + (if hung then {id} else {}) - removed)
  {
  }

  class Manager {
    var ids: set<Id>
    var params: set<Id>
    var nodes: Nodes
    var dirty: set<Id>
    var removed: set<Id>
    ghost var depth: Depth

    // What holds between any two calls.
    ghost predicate Valid()
      reads this
    {
      && Consistent()
      && nodes.Keys == params + {ROOT}
      && nodes[ROOT].group && nodes[ROOT].parent.None?
    }

    // What holds even while a subtree is being taken down.
    ghost predicate Consistent()
      reads this
    {
      && IsForest(nodes, depth)
      && ids == params && ROOT !in params && params <= nodes.Keys
      && dirty !! removed
    }

    constructor ()
      ensures Valid() && params == {} && dirty == {} && removed == {}
    {
      ids, params, dirty, removed := {}, {}, {}, {};
      nodes := map[ROOT := Node(true, None, {})];
      depth := map[ROOT := 0];
    }

    method GetNextId() returns (id: Id)
      modifies this`ids
      ensures (exists k :: LeastFree(old(ids), k) && id == Short(k) && ids == old(ids) + {id} && id !in old(ids))
           || (id == 0 && ids == old(ids) && forall k :: 1 <= k <= LAST_ID ==> Short(k) in ids)
      ensures id == 0 ==> |old(ids)| >= LAST_ID
      ensures id == 0 <==> forall x: Id :: 1 <= (if x >= 0 then x else x + 0x1_0000) <= 65534 ==> x in old(ids)
      ensures id != 0 ==> id !in old(ids) && 1 <= (if id >= 0 then id else id + 0x1_0000) <= 65534
      ensures id != 0 ==> forall x: Id ::
                1 <= (if x >= 0 then x else x + 0x1_0000) < (if id >= 0 then id else id + 0x1_0000) ==> x in old(ids)
    {
      var i: nat := 1;
      while i <= LAST_ID
        invariant 1 <= i <= LAST_ID + 1 && ids == old(ids)
        invariant forall j :: 1 <= j < i ==> Short(j) in ids
      {
        if Short(i) !in ids {
          assert LeastFree(ids, i);
          FirstFree(ids, i);
          id := Short(i);
          ids := ids + {id};
          return;
        }
        i := i + 1;
      }
      if |ids| < LAST_ID { SomeIdIsFree(ids); }
      NoneFree(ids);
      id := 0;
    }

    method SetParameterDirty(id: Id)
      modifies this`dirty
      ensures dirty == if id in removed then old(dirty) else old(dirty) + {id}
    {
      if id in removed {
        return;
      }
      dirty := dirty + {id};
    }

    method SetParameterRemoved(id: Id)
      modifies this`dirty, this`removed
      ensures dirty == old(dirty) - {id} && removed == old(removed) + {id}
    {
      dirty := dirty - {id};
      removed := removed + {id};
    }

    // GroupParameter::removeChild with Parameter::clearParent
    method RemoveChild(group: Id, child: Id)
      requires IsForest(nodes, depth) && dirty !! removed && group in nodes && child in nodes
      modifies this`nodes, this`dirty
      ensures IsForest(nodes, depth) && dirty !! removed && nodes.Keys == old(nodes.Keys)
      ensures child in old(nodes[group].children) ==>
                && old(nodes[child].parent) == Some(group) && group != child
                && nodes == Cut(old(nodes), child)
                && dirty == if child in removed then old(dirty) else old(dirty) + {child}
      ensures child !in old(nodes[group].children) ==> nodes == old(nodes) && dirty == old(dirty)
    {
      hide IsForest, Cut;
      if child in nodes[group].children {
        CutEitherWay(nodes, depth, group, child);
        nodes := nodes[child := nodes[child].(parent := None)];
        SetParameterDirty(child);
        nodes := nodes[group := nodes[group].(children := nodes[group].children - {child})];
      }
    }

    // Parameter::setParent
    method SetParent(child: Id, group: Id)
      requires child in nodes
      requires nodes[child].parent.Some? ==> nodes[child].parent.value in nodes && nodes[child].parent.value != child
      requires nodes[child].parent.Some? ==> child in nodes[nodes[child].parent.value].children
      modifies this`nodes, this`dirty
      ensures old(nodes[child].parent) == Some(group) ==> nodes == old(nodes) && dirty == old(dirty)
      ensures old(nodes[child].parent) != Some(group) ==>
                && nodes == Rehung(old(nodes), child, group)
                && dirty == if child in removed then old(dirty) else old(dirty) + {child}
    {
      if nodes[child].parent == Some(group) {
        return;
      }
      if nodes[child].parent.Some? {
        var p := nodes[child].parent.value;
        if child in nodes[p].children {
          nodes := nodes[p := nodes[p].(children := nodes[p].children - {child})];
          nodes := nodes[child := nodes[child].(parent := None)];
          SetParameterDirty(child);
        }
      }
      nodes := nodes[child := nodes[child].(parent := Some(group))];
      SetParameterDirty(child);
    }

    // GroupParameter::addChild.  Nothing stops a group from being hung at or below itself: what
    // the records are then is no tree any more.
    method AddChild(group: Id, child: Id)
      requires Valid() && group in nodes && nodes[group].group && child in params
      modifies this`nodes, this`dirty, this`depth
      ensures nodes == ChildAdded(old(nodes), child, group)
      ensures group !in Subtree(old(nodes), old(depth), child) ==> Valid()
      ensures group in Subtree(old(nodes), old(depth), child) ==> NoForest(nodes)
      ensures old(nodes[child].parent) == Some(group) ==> dirty == old(dirty)
      ensures old(nodes[child].parent) != Some(group) ==> dirty == if child in removed then old(dirty)
               else old(dirty) + {child}
    {
      hide Subtree, Below, IsForest, NoForest, DepthAfter, Rehung, ChildAdded;
      ghost var n, d := nodes, depth;
      AddingKeepsRecords(n, d, params, child, group);
      nodes := nodes[group := nodes[group].(children := nodes[group].children + {child})];
      SetParent(child, group);
      assert nodes == ChildAdded(n, child, group);
      depth := DepthAfter(n, d, child, group);
    }

    // _addParameterDirect, for an id that is reserved but not yet in use
    method AddParameterDirect(id: Id, isGroup: bool, group: Id)
      requires IsForest(nodes, depth) && nodes.Keys == params + {ROOT} && nodes[ROOT].group && nodes[ROOT].parent.None?
      requires ids == params + {id} && ROOT !in params && id !in nodes && dirty !! removed
      requires group in nodes && nodes[group].group
      modifies this`params, this`nodes, this`dirty, this`depth
      ensures Valid() && params == old(params) + {id} && nodes == Leaf(old(nodes), id, isGroup, group)
      ensures dirty == if id in removed then old(dirty) else old(dirty) + {id}
    {
      hide IsForest, Leaf;
      LeafKeepsRecords(nodes, depth, params, id, isGroup, group);
      SetParameterDirty(id);
      nodes := nodes[id := Node(isGroup, Some(group), {})];
      nodes := nodes[group := nodes[group].(children := nodes[group].children + {id})];
      depth := depth[id := depth[group] + 1];
      SetParameterDirty(id);
      params := params + {id};
    }

    // create...Parameter; None is the exception for a full id space.
    method Create(isGroup: bool, group: Id) returns (r: Option<Id>)
      requires Valid() && group in nodes && nodes[group].group
      modifies this`ids, this`params, this`nodes, this`dirty, this`depth
      ensures Valid()
      ensures r.None? ==> params == old(params) && nodes == old(nodes) && dirty == old(dirty) && |params| >= LAST_ID
      ensures r.Some? ==>
                && (exists k :: LeastFree(old(params), k) && r.value == Short(k))
                && r.value !in old(params) && params == old(params) + {r.value} && r.value != group
                && nodes == Leaf(old(nodes), r.value, isGroup, group)
                && dirty == if r.value in removed then old(dirty) else old(dirty) + {r.value}
      ensures r.None? <==> forall x: Id :: 1 <= (if x >= 0 then x else x + 0x1_0000) <= 65534 ==> x in old(params)
      ensures r.Some? ==>
                && 1 <= (if r.value >= 0 then r.value else r.value + 0x1_0000) <= 65534
                && var u := if r.value >= 0 then r.value else r.value + 0x1_0000;
                   forall x: Id :: 1 <= (if x >= 0 then x else x + 0x1_0000) < u ==> x in old(params)
    {
      var id := GetNextId();
      if id == 0 {
        return None;
      }
      AddParameterDirect(id, isGroup, group);
      r := Some(id);
    }

    // _addParameter of a parsed parameter, called by the client; its parent is one of ours.  The
    // parameter already has that parent, so nothing is marked dirty.
    method AddParameter(id: Id, isGroup: bool, parent: Option<Id>)
      requires Valid() && id != ROOT
      requires parent.Some? ==> parent.value in params && nodes[parent.value].group && parent.value != id
      modifies this`ids, this`params, this`nodes, this`depth
      ensures Valid() && params == old(params) + {id}
      ensures nodes == if id in old(params) then old(nodes) else Added(old(nodes), id, isGroup, parent)
    {
      hide IsForest, Added, AddedDepth;
      if id in params {
        return;
      }
      AddedIsForest(nodes, depth, id, isGroup, parent);
      AddedKeepsRoot(nodes, id, isGroup, parent);
      ids := ids + {id};
      PutNode(id, isGroup, parent);
      params := params + {id};
    }

    // into the tree, among the children of its parent
    method PutNode(id: Id, isGroup: bool, parent: Option<Id>)
      requires parent.Some? ==> parent.value in nodes && parent.value in depth && parent.value != id
      modifies this`nodes, this`depth
      ensures nodes == Added(old(nodes), id, isGroup, parent)
      ensures depth == AddedDepth(old(depth), id, parent)
    {
      nodes := nodes[id := Node(isGroup, parent, {})];
      if parent.Some? {
        nodes := nodes[parent.value := nodes[parent.value].(children := nodes[parent.value].children + {id})];
        depth := depth[id := depth[parent.value] + 1];
      } else {
        depth := depth[id := 0];
      }
    }

    method RemoveParameter(id: Id)
      requires Valid()
      modifies this
      ensures Valid() && depth == old(depth)
      ensures id !in old(params) ==>
               params == old(params) && nodes == old(nodes) && dirty == old(dirty) && removed == old(removed)
      ensures id in old(params) ==>
                var gone := Subtree(old(nodes), old(depth), id);
                && params == old(params) - gone
                && nodes == WithoutSubtree(old(nodes), old(depth), id)
                && removed == old(removed) + {id}
                && dirty == old(dirty) - {id} + (Hanging(old(nodes), old(depth), id) - removed)
    {
      if id == ROOT {
        return;
      }
      if id !in params {
        return;
      }
      SetParameterRemoved(id);
      RootIsNotBelow(nodes, depth, id);
      RemoveParameterDirect(id);
    }

    // removeParameterDirect, with the parameter held by a copy of the pointer
    method RemoveParameterDirect(id: Id)
      requires Consistent() && id in params && Subtree(nodes, depth, id) <= params
      modifies this`ids, this`params, this`nodes, this`dirty
      ensures Consistent()
      ensures params == old(params) - Subtree(old(nodes), depth, id)
      ensures nodes == WithoutSubtree(old(nodes), depth, id)
      ensures dirty == old(dirty) + (Hanging(old(nodes), depth, id) - removed)
      decreases |params|, 0, 1
    {
      hide Pruned, Subtree, Below, Subtrees, Hanging, IsForest;
      Removal(nodes, depth, id);
      ghost var sub, hung := Subtree(nodes, depth, id), nodes[id].parent.Some?;
      assert Hanging(nodes, depth, id) == sub - {id} + if hung then {id} else {};
      Tally(params, dirty, removed, sub, id, hung);
      TakeDown(id, sub - {id});
    }

    // the node, then its children, then the object itself
    method TakeDown(id: Id, ghost below: set<Id>)
      requires Consistent() && id in params && below <= params - {id}
      requires nodes[id].parent.Some? ==> nodes[id].parent.value in nodes && nodes[id].parent.value != id
      requires nodes[id].parent.Some? ==> id in nodes[nodes[id].parent.value].children
      requires var n := Detached(nodes, id);
        IsForest(n, depth) && n.Keys == nodes.Keys && below == Subtrees(n, depth, n[id].children)
        && IsForest(Pruned(n, depth, id, n[id].children) - {id}, depth)
        && nodes.Keys - {id} - below <= (Pruned(n, depth, id, n[id].children) - {id}).Keys
      modifies this`ids, this`params, this`nodes, this`dirty
      ensures Consistent() && params == old(params) - {id} - below
      ensures var n := Detached(old(nodes), id);
        IsForest(n, depth) && id in n && nodes == Pruned(n, depth, id, n[id].children) - {id}
      ensures dirty == (if old(nodes[id].parent).Some? && id !in removed then old(dirty) + {id}
               else old(dirty)) + (below - removed)
      decreases |params|, 0, 0
    {
      hide Detached, Pruned, Subtrees, IsForest;
      Unlink(id);
      RemoveChildrenDirect(id, below);
      nodes := nodes - {id};
    }

    // out of the manager's records and out of its parent
    method Unlink(id: Id)
      requires Consistent() && id in params
      requires nodes[id].parent.Some? ==> nodes[id].parent.value in nodes && nodes[id].parent.value != id
      requires nodes[id].parent.Some? ==> id in nodes[nodes[id].parent.value].children
      modifies this`ids, this`params, this`nodes, this`dirty
      ensures Consistent() && params == old(params) - {id} && nodes == Detached(old(nodes), id)
      ensures dirty == if old(nodes[id].parent).Some? && id !in removed then old(dirty) + {id} else old(dirty)
    {
      hide Cut, IsForest;
      ids := ids - {id};
      if nodes[id].parent.Some? {
        RemoveChild(nodes[id].parent.value, id);
      }
      params := params - {id};
    }

    // the loop of removeParameterDirect over a snapshot of the children
    method RemoveChildrenDirect(id: Id, ghost below: set<Id>)
      requires Consistent() && id in nodes && below == Subtrees(nodes, depth, nodes[id].children) <= params
      modifies this`ids, this`params, this`nodes, this`dirty
      ensures Consistent() && params == old(params) - below && dirty == old(dirty) + (below - removed)
      ensures nodes == Pruned(old(nodes), depth, id, old(nodes[id].children))
      decreases |params|, 1, 0
    {
      hide Subtree, Below, Subtrees, Hanging, IsForest, WithoutSubtree;
      ghost var n, dirty0, params0 := nodes, dirty, params;
      var children := nodes[id].children;
      PruneNone(nodes, depth, id);
      assert children - children == {};
      var pending := children;
      while pending != {}
        invariant Consistent() && pending <= children && Subtrees(n, depth, children) <= params0
        invariant nodes == Pruned(n, depth, id, children - pending)
        invariant params == params0 - Subtrees(n, depth, children - pending)
        invariant dirty == dirty0 + (Subtrees(n, depth, children - pending) - removed)
        decreases pending
      {
        var child := Least(pending);
        ghost var gone := children - pending;
        PruneOneMore(n, depth, id, gone, child);
        OneMoreSubtree(n, depth, gone, child);
        OneMoreSubtree(n, depth, children - {child}, child);
        assert children - {child} + {child} == children;
        assert child in Subtree(n, depth, child) && Subtree(n, depth, child) <= params;
        Smaller(params, params0);
        RemoveParameterDirect(child);
        pending := pending - {child};
        assert children - pending == gone + {child};
      }
      assert children - pending == children;
    }

    // ParameterServer::update on the manager's maps: first the removals, then the updates.
    method Flush() returns (changes: seq<Change>)
      requires Valid()
      modifies this`dirty, this`removed
      ensures Valid() && dirty == {} && removed == {}
      ensures changes == Removes(Ascending(old(removed))) + Updates(Ascending(old(dirty)))
    {
      changes := [];
      var rs := Ascending(removed);
      var i := 0;
      while i < |rs|
        invariant 0 <= i <= |rs| && changes == Removes(rs[..i])
      {
        changes := changes + [Remove(rs[i])];
        i := i + 1;
      }
      assert rs[..i] == rs;
      removed := {};
      var us := Ascending(dirty);
      i := 0;
      while i < |us|
        invariant 0 <= i <= |us| && changes == Removes(rs) + Updates(us[..i])
      {
        changes := changes + [Update(us[i])];
        i := i + 1;
      }
      assert us[..i] == us;
      dirty := {};
    }
  }

  lemma {:induction false} RootIsNotBelow(n: Nodes, d: Depth, x: Id)
    requires IsForest(n, d) && ROOT in n && n[ROOT].parent.None? && x != ROOT
    ensures ROOT !in Subtree(n, d, x)
  {
  }

  // ---------------------------------------------------------------- what a flush sends

  lemma ChangesOf(ids: seq<Id>, id: Id)
    ensures (Remove(id) in Removes(ids) <==> id in ids) && Update(id) !in Removes(ids)
    ensures (Update(id) in Updates(ids) <==> id in ids) && Remove(id) !in Updates(ids)
  {
    if id in ids {
      var i :| 0 <= i < |ids| && ids[i] == id;
      assert Removes(ids)[i] == Remove(id) && Updates(ids)[i] == Update(id);
    }
  }

  lemma RemovesComeFirst(rs: seq<Id>, us: seq<Id>, i: nat, j: nat)
    requires forall a, b :: 0 <= a < b < |rs| ==> rs[a] < rs[b]
    requires forall a, b :: 0 <= a < b < |us| ==> us[a] < us[b]
    requires i < j < |rs| + |us|
    ensures var c := Removes(rs) + Updates(us); c[i] != c[j] && !(c[i].Update? && c[j].Remove?)
  {
    var c := Removes(rs) + Updates(us);
    assert c[i] == if i < |rs| then Remove(rs[i]) else Update(us[i - |rs|]);
    assert c[j] == if j < |rs| then Remove(rs[j]) else Update(us[j - |rs|]);
  }

  // One REMOVE for each removed id, before any update; one update for each dirty id; no update
  // for an id that the same flush removes.
  lemma {:induction false} FlushOrder(removed: set<Id>, dirty: set<Id>)
    requires dirty !! removed
    ensures var c := Removes(Ascending(removed)) + Updates(Ascending(dirty));
      && (forall id :: Remove(id) in c <==> id in removed)
      && (forall id :: Update(id) in c <==> id in dirty)
      && (forall i, j :: 0 <= i < j < |c| ==> c[i] != c[j] && !(c[i].Update? && c[j].Remove?))
      && (forall id :: id in removed ==> Update(id) !in c)
  {
    hide Ascending;
    var rs, us := Ascending(removed), Ascending(dirty);
    assert |Removes(rs)| == |rs| && |Updates(us)| == |us|;
    assert forall x :: x in rs <==> x in removed;
    assert forall x :: x in us <==> x in dirty;
    forall i, j | 0 <= i < j < |rs| + |us|
      ensures var c := Removes(rs) + Updates(us); c[i] != c[j] && !(c[i].Update? && c[j].Remove?)
    {
      RemovesComeFirst(rs, us, i, j);
    }
    forall id
      ensures Remove(id) in Removes(rs) + Updates(us) <==> id in removed
      ensures Update(id) in Removes(rs) + Updates(us) <==> id in dirty
    {
      ChangesOf(rs, id);
      ChangesOf(us, id);
    }
  }

  // What RemoveParameter leaves in the dirty map of the parameters it took down: everything
  // below the removed one, although none of it is held any more.  So a removal is followed by
  // updates of the removed parameters unless there was nothing below.
  lemma RemovalLeavesOrphans(n: Nodes, d: Depth, id: Id, dirty: set<Id>, removed: set<Id>)
    requires IsForest(n, d) && id in n && removed !! Subtree(n, d, id)
    ensures var gone := Subtree(n, d, id);
      var removed' := removed + {id};
      var dirty' := dirty - {id} + (Hanging(n, d, id) - removed');
      && dirty' * gone == gone - {id}
      && (dirty' * gone == {} <==> n[id].children == {})
  {
    hide Below, Linked;
    HangingSplits(n, d, id);
    SubtreeSplits(n, d, id);
    var gone := Subtree(n, d, id);
    assert (dirty - {id} + (Hanging(n, d, id) - (removed + {id}))) * gone == gone - {id};
    assert gone - {id} == Subtrees(n, d, n[id].children);
    RootsBelow(n, d, id);
  }

  lemma RootsBelow(n: Nodes, d: Depth, id: Id)
    requires IsForest(n, d) && id in n
    ensures Subtrees(n, d, n[id].children) == {} <==> n[id].children == {}
  {
    hide Subtrees;
    RootsAreInside(n, d, n[id].children);
    if n[id].children == {} { PruneNone(n, d, id); }
    if n[id].children != {} {
      var c :| c in n[id].children;
      assert c in Subtrees(n, d, n[id].children);
    }
  }
}
