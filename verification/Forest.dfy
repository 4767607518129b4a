/** The tree of parameters: which group holds which child, as kept by
    src/rabbitControl/parameter_group.cpp and by Parameter::setParent / clearParent.

    A node is what one parameter object knows about the tree; `Nodes` are the objects of one
    server or client by id.  Id 0 is the root group. */
module Forest {
  import opened Bytes

  // int16_t
  type Id = x: int | -0x8000 <= x < 0x8000

  const ROOT: Id := 0

  datatype Node = Node(group: bool, parent: Option<Id>, children: set<Id>)

  type Nodes = map<Id, Node>

  // A distance from the top that grows along every parent link: there is no cycle.
  type Depth = map<Id, nat>

  ghost predicate Linked(n: Nodes) {
    && (forall c :: c in n && n[c].parent.Some? ==>
          n[c].parent.value in n && n[n[c].parent.value].group && c in n[n[c].parent.value].children)
    && (forall g :: g in n ==> n[g].children <= n.Keys)
    && (forall g, c :: g in n && c in n[g].children ==> n[c].parent == Some(g))
  }

  ghost predicate IsForest(n: Nodes, d: Depth) {
    && Linked(n)
    && n.Keys <= d.Keys
    && forall c :: c in n && n[c].parent.Some? ==> d[n[c].parent.value] < d[c]
  }

  // The parent links run in a circle, or disagree with the children.
  ghost predicate NoForest(n: Nodes) { forall d :: !IsForest(n, d) }

  // `y` is `x` or lies below it.
  ghost predicate Below(n: Nodes, d: Depth, y: Id, x: Id)
    requires IsForest(n, d) && y in n
    decreases d[y]
  {
    y == x || (n[y].parent.Some? && Below(n, d, n[y].parent.value, x))
  }

  ghost function Subtree(n: Nodes, d: Depth, x: Id): (r: set<Id>)
    requires IsForest(n, d)
    ensures r <= n.Keys && (x in n ==> x in r)
  {
    set y | y in n && Below(n, d, y, x)
  }

  ghost function Subtrees(n: Nodes, d: Depth, xs: set<Id>): (r: set<Id>)
    requires IsForest(n, d)
    ensures r <= n.Keys
  {
    set y | y in n && exists x :: x in xs && Below(n, d, y, x)
  }

  lemma {:induction false} BelowIsDeeper(n: Nodes, d: Depth, y: Id, x: Id)
    requires IsForest(n, d) && y in n && Below(n, d, y, x)
    ensures x in n && d[x] <= d[y] && (d[x] == d[y] ==> x == y)
    decreases d[y]
  {
    if y != x { BelowIsDeeper(n, d, n[y].parent.value, x); }
  }

  lemma {:induction false} BelowTransitive(n: Nodes, d: Depth, z: Id, y: Id, x: Id)
    requires IsForest(n, d) && z in n && Below(n, d, z, y) && y in n && Below(n, d, y, x)
    ensures Below(n, d, z, x)
    decreases d[z]
  {
    if z != y { BelowTransitive(n, d, n[z].parent.value, y, x); }
  }

  // Going up from one node is a single path.
  lemma {:induction false} AncestorsAreLinear(n: Nodes, d: Depth, z: Id, a: Id, b: Id)
    requires IsForest(n, d) && z in n && a in n && b in n && Below(n, d, z, a) && Below(n, d, z, b)
    ensures Below(n, d, a, b) || Below(n, d, b, a)
    decreases d[z]
  {
    if z != a && z != b { AncestorsAreLinear(n, d, n[z].parent.value, a, b); }
  }

  // Below is fixed by the parent links of the nodes strictly below.
  lemma {:induction false} BelowFrame(n: Nodes, d: Depth, n': Nodes, d': Depth, y: Id, x: Id)
    requires IsForest(n, d) && IsForest(n', d') && y in n && Below(n, d, y, x) && x in n'
    requires forall z :: z in n && z != x && Below(n, d, z, x) ==> z in n' && n'[z].parent == n[z].parent
    ensures y in n' && Below(n', d', y, x)
    decreases d[y]
  {
    if y != x { BelowFrame(n, d, n', d', n[y].parent.value, x); }
  }

  // A node lies below x exactly when it is x or lies below one child of x.
  lemma {:induction false} BelowAChild(n: Nodes, d: Depth, y: Id, x: Id)
    requires IsForest(n, d) && y in n && x in n
    ensures Below(n, d, y, x) <==> y == x || exists c :: c in n[x].children && Below(n, d, y, c)
    decreases d[y]
  {
    if y != x {
      if Below(n, d, y, x) {
        var p := n[y].parent.value;
        BelowAChild(n, d, p, x);
        if p == x {
          assert y in n[x].children && Below(n, d, y, y);
        } else {
          var c :| c in n[x].children && Below(n, d, p, c);
          assert Below(n, d, y, c);
        }
      }
      if c :| c in n[x].children && Below(n, d, y, c) {
        assert Below(n, d, c, x) by { assert Below(n, d, x, x); }
        BelowTransitive(n, d, y, c, x);
      }
    }
  }

  lemma NotBelowItsChild(n: Nodes, d: Depth, x: Id)
    requires IsForest(n, d) && x in n
    ensures x !in Subtrees(n, d, n[x].children)
  {
    forall c | c in n[x].children
      ensures !Below(n, d, x, c)
    {
      if Below(n, d, x, c) { BelowIsDeeper(n, d, x, c); }
    }
  }

  lemma SubtreeSplits(n: Nodes, d: Depth, x: Id)
    requires IsForest(n, d) && x in n
    ensures Subtree(n, d, x) == {x} + Subtrees(n, d, n[x].children)
    ensures x !in Subtrees(n, d, n[x].children)
  {
    NotBelowItsChild(n, d, x);
    forall y | y in n
      ensures Below(n, d, y, x) <==> y == x || exists c :: c in n[x].children && Below(n, d, y, c)
    {
      BelowAChild(n, d, y, x);
    }
  }

  // The subtrees of two children of one group have nothing in common.
  lemma SiblingsAreApart(n: Nodes, d: Depth, x: Id, a: Id, b: Id)
    requires IsForest(n, d) && x in n && a in n[x].children && b in n[x].children && a != b
    ensures Subtree(n, d, a) !! Subtree(n, d, b)
  {
    forall y | y in n && Below(n, d, y, a) && Below(n, d, y, b)
      ensures false
    {
      AncestorsAreLinear(n, d, y, a, b);
      if Below(n, d, a, b) { BelowIsDeeper(n, d, x, b); } else { BelowIsDeeper(n, d, x, a); }
    }
  }

  // ---------------------------------------------------------------- edits of the tree

  // GroupParameter::removeChild when the child is found: both ends of the link are cut.
  function Cut(n: Nodes, x: Id): (r: Nodes)
    requires x in n && n[x].parent.Some? && n[x].parent.value in n && n[x].parent.value != x
  {
    var p := n[x].parent.value;
    n[p := n[p].(children := n[p].children - {x})][x := n[x].(parent := None)]
  }

  lemma CutIsForest(n: Nodes, d: Depth, x: Id)
    requires IsForest(n, d) && x in n && n[x].parent.Some?
    ensures n[x].parent.value != x && IsForest(Cut(n, x), d)
    ensures forall y :: y in n ==> y in Cut(n, x) && (y != x ==> Cut(n, x)[y].parent == n[y].parent)
  {
  }

  // Cutting x off leaves what lies below x, and what lies below anything not above x.
  lemma CutKeepsSubtree(n: Nodes, d: Depth, x: Id, z: Id)
    requires IsForest(n, d) && x in n && n[x].parent.Some? && z in n && Below(n, d, z, x)
    ensures n[x].parent.value != x && IsForest(Cut(n, x), d)
    ensures Subtree(Cut(n, x), d, z) == Subtree(n, d, z)
  {
    CutIsForest(n, d, x);
    var n' := Cut(n, x);
    forall y | y in n
      ensures Below(n, d, y, z) <==> Below(n', d, y, z)
    {
      if Below(n, d, y, z) {
        forall w | w in n && w != z && Below(n, d, w, z)
          ensures n'[w].parent == n[w].parent
        {
          BelowIsDeeper(n, d, w, z);
          BelowIsDeeper(n, d, z, x);
        }
        BelowFrame(n, d, n', d, y, z);
      }
      if Below(n', d, y, z) {
        forall w | w in n' && w != z && Below(n', d, w, z)
          ensures w in n && n[w].parent == n'[w].parent
        {
          BelowIsDeeper(n', d, w, z);
          BelowIsDeeper(n, d, z, x);
        }
        BelowFrame(n', d, n, d, y, z);
      }
    }
  }

  // A group loses some of its children together with everything below them.
  ghost function Pruned(n: Nodes, d: Depth, x: Id, gone: set<Id>): (r: Nodes)
    requires IsForest(n, d) && x in n
  {
    map y | y in n.Keys - Subtrees(n, d, gone) :: if y == x then n[x].(children := n[x].children - gone) else n[y]
  }

  lemma ClosedDownward(n: Nodes, d: Depth, xs: set<Id>, c: Id)
    requires IsForest(n, d) && c in n && n[c].parent.Some?
    ensures n[c].parent.value in Subtrees(n, d, xs) ==> c in Subtrees(n, d, xs)
    ensures c in Subtrees(n, d, xs) && c !in xs ==> n[c].parent.value in Subtrees(n, d, xs)
  {
    if x :| x in xs && Below(n, d, n[c].parent.value, x) {
      assert Below(n, d, c, x);
    }
  }

  lemma RootsAreInside(n: Nodes, d: Depth, xs: set<Id>)
    requires IsForest(n, d) && xs <= n.Keys
    ensures xs <= Subtrees(n, d, xs)
  {
    forall x | x in xs
      ensures x in Subtrees(n, d, xs)
    {
      assert Below(n, d, x, x);
    }
  }

  lemma PrunedIsForest(n: Nodes, d: Depth, x: Id, gone: set<Id>)
    requires IsForest(n, d) && x in n && gone <= n[x].children
    ensures IsForest(Pruned(n, d, x, gone), d) && x in Pruned(n, d, x, gone)
  {
    hide Below, Subtrees;
    var n' := Pruned(n, d, x, gone);
    PrunedKeepsX(n, d, x, gone);
    RootsAreInside(n, d, gone);
    forall c | c in n' && n'[c].parent.Some?
      ensures n'[c].parent.value in n' && n'[n'[c].parent.value].group && c in n'[n'[c].parent.value].children
    {
      ClosedDownward(n, d, gone, c);
    }
    forall g, c | g in n' && c in n'[g].children
      ensures c in n'
    {
      ClosedDownward(n, d, gone, c);
    }
  }

  lemma PruneNone(n: Nodes, d: Depth, x: Id)
    requires IsForest(n, d) && x in n
    ensures Subtrees(n, d, {}) == {} && Pruned(n, d, x, {}) == n
  {
    assert n[x].children - {} == n[x].children;
  }

  lemma PrunedKeepsX(n: Nodes, d: Depth, x: Id, gone: set<Id>)
    requires IsForest(n, d) && x in n && gone <= n[x].children
    ensures x !in Subtrees(n, d, gone)
  {
    NotBelowItsChild(n, d, x);
  }

  lemma ApartFromGone(n: Nodes, d: Depth, x: Id, gone: set<Id>, c: Id)
    requires IsForest(n, d) && x in n && gone <= n[x].children && c in n[x].children - gone
    ensures Subtree(n, d, c) !! Subtrees(n, d, gone)
  {
    forall k | k in gone
      ensures Subtree(n, d, c) !! Subtree(n, d, k)
    {
      SiblingsAreApart(n, d, x, c, k);
    }
    forall y, k | k in gone && y in n && Below(n, d, y, k)
      ensures y !in Subtree(n, d, c)
    {
      assert y in Subtree(n, d, k);
    }
  }

  // The children that stay keep their subtrees.
  lemma PrunedKeepsSubtree(n: Nodes, d: Depth, x: Id, gone: set<Id>, c: Id)
    requires IsForest(n, d) && x in n && gone <= n[x].children && c in n[x].children - gone
    ensures IsForest(Pruned(n, d, x, gone), d) && Subtree(Pruned(n, d, x, gone), d, c) == Subtree(n, d, c)
  {
    var n' := Pruned(n, d, x, gone);
    PrunedIsForest(n, d, x, gone);
    ApartFromGone(n, d, x, gone, c);
    forall y | y in n && Below(n, d, y, c)
      ensures y in n' && n'[y].parent == n[y].parent
    {
      assert y in Subtree(n, d, c);
    }
    forall y | y in n
      ensures y in Subtree(n', d, c) <==> y in Subtree(n, d, c)
    {
      if Below(n, d, y, c) { BelowFrame(n, d, n', d, y, c); }
      if y in n' && Below(n', d, y, c) { BelowFrame(n', d, n, d, y, c); }
    }
  }

  // ---------------------------------------------------------------- removal of a whole subtree

  ghost function WithoutSubtree(n: Nodes, d: Depth, x: Id): (r: Nodes)
    requires IsForest(n, d)
  {
    map y | y in n.Keys - Subtree(n, d, x) :: n[y].(children := n[y].children - {x})
  }

  // The nodes of the subtree that hang on a parent link.
  ghost function Hanging(n: Nodes, d: Depth, x: Id): (r: set<Id>)
    requires IsForest(n, d)
  {
    set y | y in Subtree(n, d, x) && n[y].parent.Some?
  }

  lemma OneSubtree(n: Nodes, d: Depth, x: Id)
    requires IsForest(n, d)
    ensures Subtrees(n, d, {x}) == Subtree(n, d, x)
  {
    forall y | y in n && Below(n, d, y, x)
      ensures exists k :: k in {x} && Below(n, d, y, k)
    {
      assert x in {x};
    }
  }

  lemma WithoutIsForest(n: Nodes, d: Depth, x: Id)
    requires IsForest(n, d) && x in n
    ensures IsForest(WithoutSubtree(n, d, x), d)
  {
    hide Below, Subtree, Subtrees;
    OneSubtree(n, d, x);
    forall c | c in n && n[c].parent.Some?
      ensures n[c].parent.value in Subtree(n, d, x) ==> c in Subtree(n, d, x)
      ensures c in Subtree(n, d, x) && c != x ==> n[c].parent.value in Subtree(n, d, x)
    {
      ClosedDownward(n, d, {x}, c);
    }
    PrunedStaysLinked(n, WithoutSubtree(n, d, x), Subtree(n, d, x), x);
  }

  // Taking out a set that is closed under children, and closed under parents but for its top.
  lemma PrunedStaysLinked(n: Nodes, n': Nodes, sub: set<Id>, x: Id)
    requires Linked(n) && x in sub && n'.Keys == n.Keys - sub
    requires forall c :: c in n && n[c].parent.Some? && n[c].parent.value in sub ==> c in sub
    requires forall c :: c in n && n[c].parent.Some? && c in sub && c != x ==> n[c].parent.value in sub
    requires forall y :: y in n' ==> n'[y] == n[y].(children := n[y].children - {x})
    ensures Linked(n')
  {
    forall g, c | g in n' && c in n'[g].children
      ensures c in n' && n'[c].parent == Some(g)
    {
      assert n[c].parent == Some(g);
    }
  }

  lemma OneMoreSubtree(n: Nodes, d: Depth, gone: set<Id>, c: Id)
    requires IsForest(n, d)
    ensures Subtrees(n, d, gone + {c}) == Subtrees(n, d, gone) + Subtree(n, d, c)
  {
    forall y | y in n
      ensures y in Subtrees(n, d, gone + {c}) <==> y in Subtrees(n, d, gone) + Subtree(n, d, c)
    {
      if Below(n, d, y, c) { assert c in gone + {c}; }
    }
  }

  lemma ChildSubtreeHangs(n: Nodes, d: Depth, x: Id, c: Id)
    requires IsForest(n, d) && x in n && c in n[x].children
    ensures Hanging(n, d, c) == Subtree(n, d, c) && x !in Subtree(n, d, c) && c in Subtree(n, d, c)
  {
    NotBelowItsChild(n, d, x);
    assert Below(n, d, c, c);
    forall y | y in Subtree(n, d, c)
      ensures n[y].parent.Some?
    {
    }
  }

  // Removing the subtree of one more child prunes one more child.
  lemma PruneOneMore(n: Nodes, d: Depth, x: Id, gone: set<Id>, c: Id)
    requires IsForest(n, d) && x in n && gone <= n[x].children && c in n[x].children - gone
    ensures var p := Pruned(n, d, x, gone);
      && IsForest(p, d) && c in p
      && Subtree(p, d, c) == Subtree(n, d, c)
      && WithoutSubtree(p, d, c) == Pruned(n, d, x, gone + {c})
      && Hanging(p, d, c) == Subtree(n, d, c)
      && Subtree(n, d, c) !! Subtrees(n, d, gone) && c in Subtree(n, d, c)
  {
    hide Below, Subtrees, Subtree;
    var p := Pruned(n, d, x, gone);
    PrunedKeepsSubtree(n, d, x, gone, c);
    PrunedKeepsX(n, d, x, gone);
    ApartFromGone(n, d, x, gone, c);
    OneMoreSubtree(n, d, gone, c);
    ChildSubtreeHangs(n, d, x, c);
    assert c in p && c in p[x].children;
    ChildSubtreeHangs(p, d, x, c);
    var a, b := WithoutSubtree(p, d, c), Pruned(n, d, x, gone + {c});
    assert a.Keys == b.Keys;
    forall y | y in b
      ensures a[y] == b[y]
    {
      if y == x {
        assert p[x].children - {c} == n[x].children - (gone + {c});
      } else {
        assert c !in n[y].children;
        assert n[y].children - {c} == n[y].children;
      }
    }
  }

  // The node cut from its parent, if it has one.
  function Detached(n: Nodes, x: Id): (r: Nodes)
    requires x in n && (n[x].parent.Some? ==> n[x].parent.value in n && n[x].parent.value != x)
  {
    if n[x].parent.Some? then Cut(n, x) else n
  }

  lemma DetachedKeeps(n: Nodes, d: Depth, x: Id)
    requires IsForest(n, d) && x in n
    ensures n[x].parent.Some? ==> n[x].parent.value in n && n[x].parent.value != x
    ensures var n1 := Detached(n, x);
      && IsForest(n1, d) && n1.Keys == n.Keys && n1[x].children == n[x].children
      && Subtree(n1, d, x) == Subtree(n, d, x)
      && forall y :: y in n && y != x ==> n1[y] == n[y].(children := n[y].children - {x})
  {
    hide Below, Subtree;
    if n[x].parent.Some? {
      CutKeepsSubtree(n, d, x, x);
    }
    forall y | y in n && y != x
      ensures Detached(n, x)[y] == n[y].(children := n[y].children - {x})
    {
      if n[x].parent != Some(y) {
        assert x !in n[y].children;
        assert n[y].children - {x} == n[y].children;
      }
    }
  }

  lemma HangingSplits(n: Nodes, d: Depth, x: Id)
    requires IsForest(n, d) && x in n
    ensures Hanging(n, d, x) == Subtree(n, d, x) - {x} + if n[x].parent.Some? then {x} else {}
  {
    forall y | y in Subtree(n, d, x) && y != x
      ensures n[y].parent.Some?
    {
    }
    assert Below(n, d, x, x);
  }

  // The node detached, all its children pruned, and itself dropped: its subtree is gone.
  lemma PruneAll(n: Nodes, d: Depth, x: Id)
    requires IsForest(n, d) && x in n
    ensures n[x].parent.Some? ==> n[x].parent.value in n && n[x].parent.value != x
    ensures var n1 := Detached(n, x);
      && IsForest(n1, d) && n1[x].children == n[x].children
      && Subtrees(n1, d, n[x].children) == Subtree(n, d, x) - {x}
      && Pruned(n1, d, x, n[x].children) - {x} == WithoutSubtree(n, d, x)
  {
    hide Detached, Below, Subtrees, Subtree, Linked;
    DetachedKeeps(n, d, x);
    var n1 := Detached(n, x);
    SubtreeSplits(n1, d, x);
    assert Subtrees(n1, d, n1[x].children) == Subtree(n, d, x) - {x};
    var a, b := Pruned(n1, d, x, n[x].children) - {x}, WithoutSubtree(n, d, x);
    assert x in Subtree(n, d, x);
    assert a.Keys == b.Keys;
  }

  // What taking a node down rests on.
  lemma Removal(n: Nodes, d: Depth, x: Id)
    requires IsForest(n, d) && x in n
    ensures n[x].parent.Some? ==> n[x].parent.value in n && n[x].parent.value != x && x in n[n[x].parent.value].children
    ensures var n1 := Detached(n, x);
      && n1 == (if n[x].parent.Some? then Cut(n, x) else n)
      && IsForest(n1, d) && n1.Keys == n.Keys
      && Subtrees(n1, d, n1[x].children) == Subtree(n, d, x) - {x}
      && Pruned(n1, d, x, n1[x].children) - {x} == WithoutSubtree(n, d, x)
      && IsForest(WithoutSubtree(n, d, x), d)
      && x in Subtree(n, d, x)
      && Hanging(n, d, x) == Subtree(n, d, x) - {x} + if n[x].parent.Some? then {x} else {}
  {
    PruneAll(n, d, x);
    DetachedKeeps(n, d, x);
    HangingSplits(n, d, x);
    WithoutIsForest(n, d, x);
    assert Below(n, d, x, x);
  }

  // ---------------------------------------------------------------- adding and moving

  // Parameter::setParent: cut from the old group, given the new one.
  function Rehung(n: Nodes, x: Id, g: Id): (r: Nodes)
    requires x in n && (n[x].parent.Some? ==> n[x].parent.value in n && n[x].parent.value != x)
  {
    var n' := if n[x].parent.Some? then Cut(n, x) else n;
    n'[x := n'[x].(parent := Some(g))]
  }

  // GroupParameter::addChild of a child from elsewhere: entered among the children first.
  function Attach(n: Nodes, x: Id, g: Id): (r: Nodes)
    requires x in n && g in n && (n[x].parent.Some? ==> n[x].parent.value in n && n[x].parent.value != x)
  {
    Rehung(n[g := n[g].(children := n[g].children + {x})], x, g)
  }

  ghost function Lowered(d: Depth, sub: set<Id>, levels: nat): (r: Depth) {
    map z | z in d :: if z in sub then d[z] + levels else d[z]
  }

  // What a move changes, node by node.
  lemma AttachShape(n: Nodes, d: Depth, x: Id, g: Id)
    requires IsForest(n, d) && x in n && g in n && n[x].parent != Some(g) && g != x
    ensures n[x].parent.Some? ==> n[x].parent.value in n && n[x].parent.value != x
    ensures var n' := Attach(n, x, g);
      && n'.Keys == n.Keys
      && n'[x] == n[x].(parent := Some(g))
      && n'[g] == n[g].(children := n[g].children + {x})
      && forall y :: y in n && y != x && y != g ==> n'[y] == n[y].(children := n[y].children - {x})
  {
    forall y | y in n && n[x].parent != Some(y)
      ensures n[y].children - {x} == n[y].children
    {
      assert x !in n[y].children;
    }
  }

  // Hanging a subtree under a group that is not inside it keeps the forest.
  lemma AttachIsForest(n: Nodes, d: Depth, x: Id, g: Id)
    requires IsForest(n, d) && x in n && g in n && n[g].group && n[x].parent != Some(g)
    requires g !in Subtree(n, d, x)
    ensures g != x
    ensures n[x].parent.Some? ==> n[x].parent.value in n && n[x].parent.value != x && x in n[n[x].parent.value].children
    ensures IsForest(Attach(n, x, g), Lowered(d, Subtree(n, d, x), d[g] + 1))
    ensures Attach(n, x, g).Keys == n.Keys && Attach(n, x, g)[x].parent == Some(g) && g in d
    ensures forall y :: y in n && y != x ==>
             Attach(n, x, g)[y].group == n[y].group && Attach(n, x, g)[y].parent == n[y].parent
  {
    hide Attach, Below;
    assert Below(n, d, x, x);
    AttachShape(n, d, x, g);
    var sub := Subtree(n, d, x);
    OneSubtree(n, d, x);
    forall c | c in n && n[c].parent.Some?
      ensures n[c].parent.value in sub ==> c in sub
      ensures c in sub && c != x ==> n[c].parent.value in sub
    {
      ClosedDownward(n, d, {x}, c);
    }
    LinkedAfter(n, d, Attach(n, x, g), x, g);
  }

  lemma {:induction false} PathKeepsItsOrder(n: Nodes, d: Depth, n': Nodes, d': Depth, y: Id, x: Id)
    requires IsForest(n, d) && y in n && Below(n, d, y, x) && IsForest(n', d') && n'.Keys == n.Keys
    requires forall z :: z in n && z != x ==> n'[z].parent == n[z].parent
    ensures x in d' && y in d' && d'[x] <= d'[y]
    decreases d[y]
  {
    if y != x { PathKeepsItsOrder(n, d, n', d', n[y].parent.value, x); }
  }

  // Nothing in the code stops a group from being hung below itself.  The tree survives a move
  // exactly when the new group is not at or below the moved parameter.
  lemma {:induction false} AttachIsForestIff(n: Nodes, d: Depth, x: Id, g: Id)
    requires IsForest(n, d) && x in n && g in n && n[g].group && n[x].parent != Some(g)
    ensures n[x].parent.Some? ==> n[x].parent.value in n && n[x].parent.value != x
    ensures (exists d' :: IsForest(Attach(n, x, g), d')) <==> g !in Subtree(n, d, x)
  {
    if g == x {
      assert Below(n, d, x, x) && Attach(n, x, x)[x].parent == Some(x);
    } else {
      AttachShape(n, d, x, g);
      var n' := Attach(n, x, g);
      if g !in Subtree(n, d, x) {
        AttachIsForest(n, d, x, g);
      } else if d' :| IsForest(n', d') {
        PathKeepsItsOrder(n, d, n', d', g, x);
      }
    }
  }

  // Moving to another group, whichever it is, keeps everybody else's parent and every kind.
  lemma AttachKeeps(n: Nodes, d: Depth, x: Id, g: Id)
    requires IsForest(n, d) && x in n && g in n && n[x].parent != Some(g)
    ensures n[x].parent.Some? ==> n[x].parent.value in n && n[x].parent.value != x && x in n[n[x].parent.value].children
    ensures var n' := Attach(n, x, g);
      && n'.Keys == n.Keys && n'[x].parent == Some(g)
      && forall y :: y in n ==> n'[y].group == n[y].group && (y != x ==> n'[y].parent == n[y].parent)
  {
  }

  lemma LinkedAfter(n: Nodes, d: Depth, n': Nodes, x: Id, g: Id)
    requires IsForest(n, d) && x in n && g in n && n[g].group && n[x].parent != Some(g) && g != x
    requires n'.Keys == n.Keys
    requires n'[x] == n[x].(parent := Some(g))
    requires n'[g] == n[g].(children := n[g].children + {x})
    requires forall y :: y in n && y != x && y != g ==> n'[y] == n[y].(children := n[y].children - {x})
    ensures Linked(n')
  {
    assert x !in n[x].children;
    ParentsAfter(n, n', x, g);
    forall k, c | k in n' && c in n'[k].children
      ensures c in n' && n'[c].parent == Some(k)
    {
      ChildAfter(n, n', x, g, k, c);
    }
  }

  // How a move looks, node by node.
  ghost predicate MovedTo(n: Nodes, n': Nodes, x: Id, g: Id) {
    && Linked(n) && x in n && g in n && n[g].group && n[x].parent != Some(g) && g != x && x !in n[x].children
    && n'.Keys == n.Keys
    && n'[x] == n[x].(parent := Some(g))
    && n'[g] == n[g].(children := n[g].children + {x})
    && forall y :: y in n && y != x && y != g ==> n'[y] == n[y].(children := n[y].children - {x})
  }

  lemma ParentsAfter(n: Nodes, n': Nodes, x: Id, g: Id)
    requires MovedTo(n, n', x, g)
    ensures forall c :: c in n' && n'[c].parent.Some? ==>
      n'[c].parent.value in n' && n'[n'[c].parent.value].group && c in n'[n'[c].parent.value].children
  {
    forall c | c in n' && n'[c].parent.Some?
      ensures n'[c].parent.value in n' && n'[n'[c].parent.value].group && c in n'[n'[c].parent.value].children
    {
      if c != x { assert n'[c].parent == n[c].parent && c in n[n[c].parent.value].children; }
    }
  }

  lemma ChildAfter(n: Nodes, n': Nodes, x: Id, g: Id, k: Id, c: Id)
    requires MovedTo(n, n', x, g) && k in n' && c in n'[k].children
    ensures c in n' && n'[c].parent == Some(k)
  {
    if c != x { assert c in n[k].children && n[c].parent == Some(k); }
  }

  // A new node without children, hung under a group.
  function Leaf(n: Nodes, x: Id, group: bool, g: Id): (r: Nodes)
    requires g in n && x != g
  {
    var n1 := n[x := Node(group, Some(g), {})];
    n1[g := n1[g].(children := n1[g].children + {x})]
  }

  lemma LeafIsForest(n: Nodes, d: Depth, x: Id, group: bool, g: Id)
    requires IsForest(n, d) && x !in n && g in n && n[g].group
    ensures IsForest(Leaf(n, x, group, g), d[x := d[g] + 1])
  {
  }
}
