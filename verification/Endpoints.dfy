/** The server and the client as objects: their flushes, the dump, and what they do with a
    packet.  src/rabbitControl/parameterserver.cpp and parameterclient.cpp.

    `cache` holds every parameter object by id, those still referred to from the dirty map after
    a removal included; the tree, the dirty map and the removed map are the manager's. */
module Endpoints {
  import opened Bytes
  import opened Streams
  import opened Options
  import opened TypeDefinitions
  import opened TypeCodec
  import opened Forest
  import opened Parameters
  import opened ParameterCodec
  import opened ParameterDelta
  import opened Packets
  import opened ParameterManager
  import opened Initialisation
  import opened Synchronisation
  import Wire

  // A parameter object agrees with its node.
  predicate Matches(p: Param, node: Node) {
    && (IsGroup(p.td) <==> node.group)
    && (p.parent.has <==> node.parent.Some?) && (p.parent.has ==> p.parent.value == node.parent.value)
  }

  // The objects of a cache: every id that is in use, dirty or removed has one, and those in use
  // agree with the tree.
  ghost predicate Held(cache: map<Id, Param>, params: set<Id>, dirty: set<Id>, removed: set<Id>, n: Nodes) {
    && params + dirty + removed <= cache.Keys && params <= n.Keys
    && (forall id :: id in cache ==> cache[id].id == id)
    && (forall id :: id in params ==> Matches(cache[id], n[id]))
  }

  function RemovePacket(id: Id): (r: Text) { PacketBytes(Packet(REMOVE, None, Some(IdPayload(id))), false) }

  function ChangePacket(c: Change, cache: map<Id, Param>): (r: Text)
    requires c.Update? ==> c.id in cache
  {
    if c.Remove? then RemovePacket(c.id) else Message(cache[c.id])
  }

  ghost predicate Covers(cache: map<Id, Param>, changes: seq<Change>) {
    forall i :: 0 <= i < |changes| && changes[i].Update? ==> changes[i].id in cache
  }

  ghost function ChangePackets(changes: seq<Change>, cache: map<Id, Param>): (r: seq<Text>)
    requires Covers(cache, changes)
  {
    seq(|changes|, i requires 0 <= i < |changes| => ChangePacket(changes[i], cache))
  }

  // The flags of the parameters in `ids` after they were written.
  function FlushedCache(cache: map<Id, Param>, ids: set<Id>, all: bool): (r: map<Id, Param>)
    ensures r.Keys == cache.Keys
  {
    map id | id in cache :: if id in ids then FlushedParam(cache[id], all) else cache[id]
  }

  // clearParent
  function Orphaned(p: Param): (r: Param)
    ensures !r.parent.has && r == p.(parent := r.parent)
    ensures r.parent.changed <==> p.parent.has || p.parent.changed
  {
    if p.parent.has then p.(parent := Opt(false, ROOT, true)) else p
  }

  function OrphanedCache(cache: map<Id, Param>, gone: set<Id>): (r: map<Id, Param>)
    ensures r.Keys == cache.Keys
  {
    map id | id in cache :: if id in gone then Orphaned(cache[id]) else cache[id]
  }

  lemma FlushInTwo(cache: map<Id, Param>, a: set<Id>, b: set<Id>, all: bool)
    requires a !! b
    ensures FlushedCache(FlushedCache(cache, a, all), b, all) == FlushedCache(cache, a + b, all)
    ensures forall id :: id in b && id in cache ==> FlushedCache(cache, a, all)[id] == cache[id]
  {
    hide FlushedParam;
  }

  lemma FlushKeepsMatch(p: Param, all: bool)
    ensures var q := FlushedParam(p, all);
      q.id == p.id && (IsGroup(q.td) <==> IsGroup(p.td)) && q.parent.has == p.parent.has
          && q.parent.value == p.parent.value
  {
    hide TypeChanged, AnyOptionChanged;
  }

  function UpdatedIds(changes: seq<Change>): (r: set<Id>) { set c | c in changes && c.Update? :: c.id }

  lemma OneChangeMore(changes: seq<Change>, i: nat)
    requires i < |changes|
    ensures UpdatedIds(changes[..i + 1]) == UpdatedIds(changes[..i]) + if changes[i].Update? then {changes[i].id}
             else {}
  {
    assert changes[..i + 1] == changes[..i] + [changes[i]];
  }

  lemma FlushOneMore(cache: map<Id, Param>, ids: set<Id>, id: Id, all: bool)
    requires id in cache && id !in ids
    ensures FlushedCache(cache, ids, all)[id] == cache[id]
    ensures FlushedCache(cache, ids, all)[id := FlushedParam(cache[id], all)] == FlushedCache(cache, ids + {id}, all)
  {
    hide FlushedParam;
  }

  lemma Difference(params: set<Id>, gone: set<Id>)
    requires gone <= params
    ensures params - (params - gone) == gone
  {
  }

  lemma HeldAfterRemoval(cache: map<Id, Param>, params: set<Id>, dirty: set<Id>, removed: set<Id>, n: Nodes, d: Depth,
      id: Id, dirty': set<Id>)
    requires Held(cache, params, dirty, removed, n) && IsForest(n, d) && id in params
    requires dirty' <= dirty + Subtree(n, d, id) && Subtree(n, d, id) <= params
    ensures Held(OrphanedCache(cache, Subtree(n, d, id)), params - Subtree(n, d, id), dirty', removed + {id},
             WithoutSubtree(n, d, id))
  {
    hide Subtree, IsForest, IsGroup;
  }

  // A new parameter's fields: its label, and a parent that nobody was told of.
  function NewParam(id: Id, td: TypeDef, text: Text, group: Id): (r: Param) {
    var p := FreshParam(id, td);
    p.(title := p.title.(main := Assign(p.title.main, text)), parent := Opt(true, group, true))
  }

  lemma HeldAfterCreation(cache: map<Id, Param>, params: set<Id>, dirty: set<Id>, removed: set<Id>, n: Nodes,
                          id: Id, td: TypeDef, text: Text, group: Id, dirty': set<Id>)
    requires Held(cache, params, dirty, removed, n) && id !in params && group in n && id != group
    requires dirty' <= dirty + {id}
    ensures Held(cache[id := NewParam(id, td, text, group)], params + {id}, dirty', removed,
             Leaf(n, id, IsGroup(td), group))
  {
    hide IsGroup;
  }

  lemma HeldAfterFlush(cache: map<Id, Param>, params: set<Id>, dirty: set<Id>, removed: set<Id>, n: Nodes, ids: set<Id>,
      all: bool)
    requires Held(cache, params, dirty, removed, n)
    ensures Held(FlushedCache(cache, ids, all), params, dirty, removed, n)
    ensures Held(FlushedCache(cache, ids, all), params, {}, {}, n)
  {
    hide FlushedCache, Matches;
    FlushedCacheMatches(cache, ids, all);
  }

  // What ParameterServer and ParameterClient are made of.
  class Endpoint {
    const manager: Manager
    const application: Text
    var cache: map<Id, Param>

    ghost predicate Valid()
      reads this, manager
    {
      manager.Valid() && Held(cache, manager.params, manager.dirty, manager.removed, manager.nodes)
    }

    constructor (application: Text)
      ensures Valid() && fresh(manager) && manager.params == {} && cache == map[]
    {
      this.application := application;
      manager := new Manager();
      cache := map[];
    }

    // create...Parameter: labelled, dirty, and a child of its group
    method Create(td: TypeDef, text: Text, group: Id) returns (r: Option<Id>)
      requires Valid() && group in manager.nodes && manager.nodes[group].group && FreshType(td) == td
      modifies this`cache, manager
      ensures Valid() && manager.removed == old(manager.removed)
      ensures r.None? ==>
               cache == old(cache) && manager.params == old(manager.params) && manager.nodes == old(manager.nodes)
      ensures manager.dirty == if r.Some? && r.value !in manager.removed then old(manager.dirty) + {r.value}
               else old(manager.dirty)
      ensures r.Some? ==>
        && r.value !in old(manager.params) && manager.params == old(manager.params) + {r.value}
        && manager.nodes == Leaf(old(manager.nodes), r.value, IsGroup(td), group)
        && cache == old(cache)[r.value := NewParam(r.value, td, text, group)]
        && var p := cache[r.value];
           p.id == r.value && p.td == td && p.title == Labelled(Opt(true, text, text != []), map[])
           && p.parent == Opt(true, group, true) && !p.value.has && !p.value.changed
           && SetterOnlyFields(p) && !p.tags.has && !p.order.has && !p.userid.has && !p.readonly.has
    {
      hide IsForest, Leaf, Held, NewParam, LeastFree, SetterOnlyFields;
      ghost var n, params0, dirty0 := manager.nodes, manager.params, manager.dirty;
      r := manager.Create(IsGroup(td), group);
      if r.Some? {
        HeldAfterCreation(cache, params0, dirty0, manager.removed, n, r.value, td, text, group, manager.dirty);
        NewParamHolds(r.value, td, text, group);
        cache := cache[r.value := NewParam(r.value, td, text, group)];
      }
    }

    // removeParameter: whatever is taken down loses its parent and is flagged for it.
    method Remove(id: Id)
      requires Valid()
      modifies this`cache, manager
      ensures Valid()
      ensures id !in old(manager.params) ==>
        && manager.params == old(manager.params) && manager.nodes == old(manager.nodes) && cache == old(cache)
        && manager.dirty == old(manager.dirty) && manager.removed == old(manager.removed)
      ensures id in old(manager.params) ==>
        var gone := Subtree(old(manager.nodes), old(manager.depth), id);
        && manager.params == old(manager.params) - gone
        && manager.nodes == WithoutSubtree(old(manager.nodes), old(manager.depth), id)
        && cache == OrphanedCache(old(cache), gone)
        && manager.removed == old(manager.removed) + {id}
        && manager.dirty == old(manager.dirty) - {id}
           + (Hanging(old(manager.nodes), old(manager.depth), id) - manager.removed)
    {
      hide Subtree, Hanging, Below, IsForest, WithoutSubtree, OrphanedCache, Held;
      if id !in manager.params {
        return;
      }
      ghost var n, d, dirty0, removed0 := manager.nodes, manager.depth, manager.dirty, manager.removed;
      RootIsNotBelow(n, d, id);
      HangingSplits(n, d, id);
      var before := manager.params;
      ghost var gone := Subtree(n, d, id);
      Difference(before, gone);
      manager.RemoveParameter(id);
      HeldAfterRemoval(cache, before, dirty0, removed0, n, d, id, manager.dirty);
      cache := OrphanedCache(cache, before - manager.params);
    }

    // ParameterServer::update: one packet for each removed and each dirty parameter.  On a
    // client, where nothing is ever recorded as removed, this is ParameterClient::update.
    method Update() returns (packets: seq<Text>)
      requires Valid()
      modifies this`cache, manager
      ensures Valid() && manager.dirty == {} && manager.removed == {}
      ensures manager.params == old(manager.params) && manager.nodes == old(manager.nodes)
      ensures cache == FlushedCache(old(cache), old(manager.dirty), false)
      ensures var changes := Removes(Ascending(old(manager.removed))) + Updates(Ascending(old(manager.dirty)));
        Covers(old(cache), changes) && packets == ChangePackets(changes, old(cache))
    {
      hide Ascending, Removes, Updates, UpdatedIds, ChangePackets, FlushedCache, IsForest;
      FlushOrder(manager.removed, manager.dirty);
      HeldAfterFlush(cache, manager.params, manager.dirty, manager.removed, manager.nodes, manager.dirty, false);
      ghost var dirty0 := manager.dirty;
      var changes := manager.Flush();
      UpdatesAreTheDirty(changes, dirty0);
      assert Covers(cache, changes);
      packets := SendChanges(changes);
    }

    // the two loops: each packet is written from its parameter and clears its flags
    method SendChanges(changes: seq<Change>) returns (packets: seq<Text>)
      requires Covers(cache, changes) && forall i, j :: 0 <= i < j < |changes| ==> changes[i] != changes[j]
      modifies this`cache
      ensures packets == ChangePackets(changes, old(cache))
      ensures cache == FlushedCache(old(cache), UpdatedIds(changes), false)
    {
      ghost var cache0 := cache;
      packets := [];
      assert UpdatedIds([]) == {};
      FlushNone(cache);
      var i := 0;
      while i < |changes|
        invariant 0 <= i <= |changes|
        invariant packets == ChangePackets(changes, cache0)[..i]
        invariant cache == FlushedCache(cache0, UpdatedIds(changes[..i]), false)
      {
        OneChangeMore(changes, i);
        OnceOnly(changes, i);
        OnePacketMore(changes, cache0, i);
        hide UpdatedIds, FlushedCache, FlushedParam, Message, RemovePacket, ChangePackets;
        if changes[i].Remove? {
          packets := packets + [RemovePacket(changes[i].id)];
          NothingMore(UpdatedIds(changes[..i]));
        } else {
          var id := changes[i].id;
          FlushOneMore(cache0, UpdatedIds(changes[..i]), id, false);
          packets := packets + [Message(cache[id])];
          cache := cache[id := FlushedParam(cache[id], false)];
        }
        i := i + 1;
      }
      assert changes[..i] == changes;
    }

    // _sendParameterFull
    method SendParameterFull(id: Id) returns (packets: seq<Text>)
      requires Valid() && id in manager.params
      modifies this`cache
      ensures Valid() && cache == FlushedCache(old(cache), Subtree(manager.nodes, manager.depth, id), true)
      ensures forall y :: y in Dump(manager.nodes, manager.depth, id) ==> y in old(cache)
      ensures packets == FullPackets(old(cache), Dump(manager.nodes, manager.depth, id))
      decreases |Subtree(manager.nodes, manager.depth, id)|, 0
    {
      hide Subtree, Subtrees, Below, IsForest, Held, FlushedCache, FullPackets, FullPacket, Dump, DumpAll, Apart,
          Ascending, Ids;
      TopOfADump(cache, manager.params, manager.dirty, manager.removed, manager.nodes, manager.depth, id);
      packets := [FullPacket(cache[id])];
      cache := cache[id := FlushedParam(cache[id], true)];
      var rest := SendChildren(Ascending(manager.nodes[id].children));
      packets := packets + rest;
    }

    // the loop over the children
    method SendChildren(xs: seq<Id>) returns (packets: seq<Text>)
      requires Valid() && Ids(xs) <= manager.params && Apart(manager.nodes, manager.depth, xs)
      modifies this`cache
      ensures Valid() && cache == FlushedCache(old(cache), Subtrees(manager.nodes, manager.depth, Ids(xs)), true)
      ensures forall y :: y in DumpAll(manager.nodes, manager.depth, xs) ==> y in old(cache)
      ensures packets == FullPackets(old(cache), DumpAll(manager.nodes, manager.depth, xs))
      decreases |Subtrees(manager.nodes, manager.depth, Ids(xs))|, |xs| + 1
    {
      hide Subtree, Subtrees, Below, FlushedCache, FullPackets, IsForest;
      ghost var n, d, cache0 := manager.nodes, manager.depth, cache;
      ghost var done: set<Id> := {};
      packets := [];
      var i := 0;
      MidwayAtFirst(cache, manager.params, n, d, xs);
      assert xs[0..] == xs;
      while i < |xs|
        invariant 0 <= i <= |xs|
        invariant Valid() && Midway(cache0, cache, n, d, xs, xs[i..], done, packets)
      {
        Suffix(xs, i);
        MidwayNext(cache0, cache, n, d, xs, xs[i..], done, packets);
        ghost var cache1 := cache;
        var p := SendParameterFull(xs[i]);
        MidwayTurn(cache0, cache1, n, d, xs, xs[i..], done, packets, cache, p);
        packets := packets + p;
        done := done + Subtree(n, d, xs[i]);
        i := i + 1;
      }
      MidwayAtLast(cache0, cache, n, d, xs, done, packets);
    }

    // _init: the children of the root, each with what is below it
    method Init() returns (packets: seq<Text>)
      requires Valid()
      modifies this`cache
      ensures Valid() && cache == FlushedCache(old(cache), Subtree(manager.nodes, manager.depth, ROOT) - {ROOT}, true)
      ensures forall y :: y in InitOrder(manager.nodes, manager.depth) ==> y in old(cache)
      ensures packets == FullPackets(old(cache), InitOrder(manager.nodes, manager.depth))
    {
      hide Subtree, Subtrees, Below, Held, FlushedCache, FullPackets, DumpAll, Apart, Ascending, Ids, Linked;
      ghost var n, d := manager.nodes, manager.depth;
      ChildrenAreFewer(n, d, ROOT);
      ChildrenAreApart(n, d, ROOT);
      SubtreeSplits(n, d, ROOT);
      RootsChildren(n, d, manager.params);
      packets := SendChildren(Ascending(manager.nodes[ROOT].children));
    }

    // setValue, setLabel, ... of a parameter in use, with any value of the field's type
    method SetField(id: Id, f: Field, v: Datum)
      requires Valid() && id in manager.params && Typed(cache[id].td, f, v)
      modifies this`cache, manager`dirty
      ensures Valid() && cache == old(cache)[id := WithField(old(cache)[id], f, v)]
      ensures FieldIsStored(old(cache)[id], f, v, cache[id])
      ensures manager.dirty ==
        if Of(old(cache)[id], f).value != v && id !in manager.removed then old(manager.dirty) + {id}
        else old(manager.dirty)
    {
      hide IsForest, Differs, FieldIsStored, WithField;
      var p := WithField(cache[id], f, v);
      StoresTheField(cache[id], f, v);
      HeldAfterSetting(cache, manager.params, manager.dirty, manager.removed, manager.nodes, id, p);
      if Differs(p, cache[id]) {
        manager.SetParameterDirty(id);
      }
      cache := cache[id := p];
    }

    // update() of a parameter in use: its fields, and its parent if the packet names a group,
    // which nothing keeps from lying below the parameter.
    method Apply(x: Param)
      requires Valid() && x.id in manager.params
      requires x.parent.has ==> x.parent.value in manager.nodes && manager.nodes[x.parent.value].group
      modifies this`cache, manager
      ensures manager.params == old(manager.params) && manager.removed == old(manager.removed)
      ensures cache == old(cache)[x.id := Applied(old(cache)[x.id], x)]
      ensures Linked(old(manager.nodes)) && manager.nodes == NodesAfter(old(manager.nodes), old(cache)[x.id], x)
      ensures manager.dirty == DirtyAfter(old(manager.dirty), manager.removed, old(cache)[x.id], x)
      ensures StaysATree(x, old(manager.nodes), old(manager.depth)) ==> Valid()
      ensures !StaysATree(x, old(manager.nodes), old(manager.depth)) ==> NoForest(manager.nodes)
    {
      hide Held, IsForest, Differs, Subtree, Below, Updated, NoForest, Applied, Moved, Moves, Touches, NodesAfter,
          ChildAdded;
      ghost var n, d, dirty0 := manager.nodes, manager.depth, manager.dirty;
      HeldAfterUpdate(cache, manager.params, manager.dirty, manager.removed, n, d, x);
      var p := cache[x.id];
      var q := Updated(p, x);
      if Differs(q, p) || x.userdata != [] {
        manager.SetParameterDirty(x.id);
      }
      if x.parent.has {
        manager.AddChild(x.parent.value, x.id);
      }
      cache := cache[x.id := Moved(q, x.parent)];
      assert manager.dirty == DirtyAfter(dirty0, manager.removed, p, x);
      assert manager.nodes == NodesAfter(n, p, x);
    }

    // ParameterServer::received.  `forward`: the packet goes to all other clients as it came.
    method ServerReceived(bytes: Text) returns (reply: seq<Text>, forward: bool)
      requires Valid()
      modifies this`cache, manager
      ensures manager.params == old(manager.params) && manager.removed == old(manager.removed)
      ensures var n, d := old(manager.nodes), old(manager.depth);
        var k := ParsePacket(GroupIds(manager.params, n), In(bytes));
        var x := Brings(GroupIds(manager.params, n), bytes);
        && Linked(n) && ROOT in n && ParentIsIn(x, n) && (forall y :: y in InitOrder(n, d) ==> y in old(cache))
        && (forward <==> x.Some?)
        && (Valid() || (x.Some? && x.value.id in manager.params && !StaysATree(x.value, n, d)))
        && (if x.Some? && x.value.id in manager.params then
              && cache == old(cache)[x.value.id := Applied(old(cache)[x.value.id], x.value)]
              && manager.nodes == NodesAfter(n, old(cache)[x.value.id], x.value)
              && manager.dirty == DirtyAfter(old(manager.dirty), manager.removed, old(cache)[x.value.id], x.value)
            else
              && cache == (if Commands(k, INITIALIZE) then FlushedCache(old(cache), Subtree(n, d, ROOT) - {ROOT}, true)
                 else old(cache))
              && manager.nodes == n && manager.dirty == old(manager.dirty))
        && reply ==
            if Commands(k, INITIALIZE) then FullPackets(old(cache), InitOrder(n, d))
            else if Commands(k, INFO) && k.packet.data.None? then [VersionPacket(application),
                PacketBytes(Packet(INFO, None, None), false)]
            else []
      ensures bytes == [1, 0] && |application| <= 127 ==>
                && |reply| == 2 && !forward
                && reply[0] == [1, 18, 5, 48, 46, 49, 46, 48]
                   + (if application == [] then [] else [26, |application|] + application) + [0, 0]
                && reply[1] == [1, 0]
                && (forall groups, t :: ParsePacket(groups, In(reply[0] + t))
                      == Accepted(Packet(1, None, Some(InfoPayload([48, 46, 49, 46, 48], application))), In(t)))
                && (forall groups, t :: ParsePacket(groups, In(reply[1] + t)) == Accepted(Packet(1, None, None), In(t)))
    {
      hide ParsePacket, Held, Subtree, Below, InitOrder, FullPackets, Attach, PacketBytes, Applied, Touches, Moves,
          FlushedCache, NoForest, VersionPacket, NodesAfter, DirtyAfter, StaysATree;
      InfoIsAsked(GroupIds(manager.params, manager.nodes), application);
      reply, forward := [], false;
      DumpIsThere(cache, manager.params, manager.dirty, manager.removed, manager.nodes, manager.depth);
      var groups := GroupIds(manager.params, manager.nodes);
      BroughtParentIsKnown(groups, bytes);
      var k := ParsePacket(groups, In(bytes));
      if k.Accepted? {
        var command := k.packet.command;
        if command == INITIALIZE {
          reply := Init();
        } else if command == UPDATE || command == UPDATEVALUE {
          if k.packet.data.Some? && k.packet.data.value.ParamPayload? {
            var x := k.packet.data.value.p;
            if x.id in manager.params {
              Apply(x);
            }
            forward := true;
          }
        } else if command == INFO && k.packet.data.None? {
          reply := [VersionPacket(application), PacketBytes(Packet(INFO, None, None), false)];
        }
      }
    }

    // ParameterClient::received
    method ClientReceived(bytes: Text) returns (reply: seq<Text>)
      requires Valid()
      requires var x := Brings(GroupIds(manager.params, manager.nodes), bytes); x.Some? ==> x.value.id != ROOT
      modifies this`cache, manager
      ensures manager.removed == old(manager.removed)
      ensures var n, d := old(manager.nodes), old(manager.depth);
        var k := ParsePacket(GroupIds(old(manager.params), n), In(bytes));
        var x := Brings(GroupIds(old(manager.params), n), bytes);
        && Linked(n) && ParentIsIn(x, n)
        && (Valid() || (x.Some? && x.value.id in old(manager.params) && !StaysATree(x.value, n, d)))
        && (if x.Some? && x.value.id in old(manager.params) then
              && manager.params == old(manager.params)
              && cache == old(cache)[x.value.id := Applied(old(cache)[x.value.id], x.value)]
              && manager.nodes == NodesAfter(n, old(cache)[x.value.id], x.value)
              && manager.dirty == DirtyAfter(old(manager.dirty), manager.removed, old(cache)[x.value.id], x.value)
            else if x.Some? then
              && manager.params == old(manager.params) + {x.value.id}
              && cache == old(cache)[x.value.id := x.value]
              && manager.nodes == Added(n, x.value.id, IsGroup(x.value.td), ParentIn(n, x.value))
              && manager.dirty == old(manager.dirty)
            else if Names(k, REMOVE) && k.packet.data.value.id in old(manager.params) then
              var gone := Subtree(n, d, k.packet.data.value.id);
              && manager.params == old(manager.params) - gone && cache == OrphanedCache(old(cache), gone)
              && manager.nodes == WithoutSubtree(n, d, k.packet.data.value.id)
              && manager.dirty == old(manager.dirty) + (Hanging(n, d, k.packet.data.value.id) - manager.removed)
            else
              && manager.params == old(manager.params) && cache == old(cache)
              && manager.nodes == n && manager.dirty == old(manager.dirty))
        && reply == if Commands(k, INFO) && k.packet.data.None? then [VersionPacket(application)] else []
      ensures bytes == [1, 0] && |application| <= 127 ==>
                && |reply| == 1
                && reply[0] == [1, 18, 5, 48, 46, 49, 46, 48]
                   + (if application == [] then [] else [26, |application|] + application) + [0, 0]
                && forall groups, t :: ParsePacket(groups, In(reply[0] + t))
                     == Accepted(Packet(1, None, Some(InfoPayload([48, 46, 49, 46, 48], application))), In(t))
    {
      hide ParsePacket, Held, Subtree, Below, Attach, PacketBytes, Applied, Touches, Moves, OrphanedCache, Added,
          WithoutSubtree, Hanging, NoForest, VersionPacket, NodesAfter, DirtyAfter, StaysATree;
      InfoIsAsked(GroupIds(manager.params, manager.nodes), application);
      reply := [];
      var groups := GroupIds(manager.params, manager.nodes);
      BroughtParentIsKnown(groups, bytes);
      var k := ParsePacket(groups, In(bytes));
      if !k.Accepted? {
        return;
      }
      var command := k.packet.command;
      if (command == UPDATE || command == UPDATEVALUE) && k.packet.data.Some? && k.packet.data.value.ParamPayload? {
        var x := k.packet.data.value.p;
        if x.id in manager.params { Apply(x); } else { Add(x); }
      } else if command == REMOVE && k.packet.data.Some? && k.packet.data.value.IdPayload? {
        if k.packet.data.value.id in manager.params { Drop(k.packet.data.value.id); }
      } else if command == INFO && k.packet.data.None? {
        reply := [VersionPacket(application)];
      }
    }

    // a parameter that is not in the cache is added
    method Add(x: Param)
      requires Valid() && x.id !in manager.params && x.id != ROOT
      requires x.parent.has ==> x.parent.value in manager.params && manager.nodes[x.parent.value].group
      modifies this`cache, manager
      ensures Valid() && manager.params == old(manager.params) + {x.id} && cache == old(cache)[x.id := x]
      ensures manager.nodes == Added(old(manager.nodes), x.id, IsGroup(x.td), ParentIn(old(manager.nodes), x))
      ensures manager.dirty == old(manager.dirty) && manager.removed == old(manager.removed)
    {
      hide Held, IsForest, Linked, Added;
      HeldAfterAddition(cache, manager.params, manager.dirty, manager.removed, manager.nodes, x);
      manager.AddParameter(x.id, IsGroup(x.td), if x.parent.has then Some(x.parent.value) else None);
      cache := cache[x.id := x];
    }

    // removeParameterDirect, on the client
    method Drop(id: Id)
      requires Valid() && id in manager.params
      modifies this`cache, manager
      ensures Valid() && manager.removed == old(manager.removed)
      ensures var gone := Subtree(old(manager.nodes), old(manager.depth), id);
        && manager.params == old(manager.params) - gone && cache == OrphanedCache(old(cache), gone)
        && manager.nodes == WithoutSubtree(old(manager.nodes), old(manager.depth), id)
        && manager.dirty == old(manager.dirty) + (Hanging(old(manager.nodes), old(manager.depth), id) - manager.removed)
    {
      hide Subtree, Hanging, Below, IsForest, Linked, WithoutSubtree, OrphanedCache, Held;
      ghost var n, d, dirty0 := manager.nodes, manager.depth, manager.dirty;
      RootIsNotBelow(n, d, id);
      HangingSplits(n, d, id);
      var before := manager.params;
      ghost var gone := Subtree(n, d, id);
      Difference(before, gone);
      RootStays(n, d, id);
      manager.RemoveParameterDirect(id);
      HeldAfterDrop(cache, before, dirty0, manager.removed, n, d, id, manager.dirty);
      cache := OrphanedCache(cache, before - manager.params);
    }
  }

  // "0.1.0"
  const VERSION: Text := [48, 46, 49, 46, 48]

  function GroupIds(params: set<Id>, n: Nodes): (r: set<Id>) { set id | id in params && id in n && n[id].group }

  function VersionPacket(application: Text): (r: Text) {
    PacketBytes(Packet(INFO, None, Some(InfoPayload(VERSION, application))), false)
  }

  // The request for the version, the answer and the question back, octet by octet.
  lemma InfoIsAsked(groups: set<Id>, application: Text)
    ensures ParsePacket(groups, In([1, 0])) == Accepted(Packet(1, None, None), In([])) && Brings(groups, [1, 0]).None?
    ensures PacketBytes(Packet(INFO, None, None), false) == [1, 0]
    ensures |application| <= 127 ==>
              VersionPacket(application) == [1, 18, 5, 48, 46, 49, 46, 48]
                + (if application == [] then [] else [26, |application|] + application) + [0, 0]
    ensures forall groups, t :: ParsePacket(groups, In([1, 0] + t)) == Accepted(Packet(1, None, None), In(t))
    ensures |application| <= 127 ==> forall groups, t ::
              ParsePacket(groups, In(VersionPacket(application) + t))
              == Accepted(Packet(1, None, Some(InfoPayload([48, 46, 49, 46, 48], application))), In(t))
  {
    hide ParsePacket, VersionPacket;
    AskedAndRead(groups, []);
    assert [1, 0] + [] == [1, 0];
    forall groups, t
      ensures ParsePacket(groups, In([1, 0] + t)) == Accepted(Packet(1, None, None), In(t))
    {
      AskedAndRead(groups, t);
    }
    if |application| <= 127 {
      VersionOctets(application);
      forall groups, t
        ensures ParsePacket(groups, In(VersionPacket(application) + t))
             == Accepted(Packet(1, None, Some(InfoPayload([48, 46, 49, 46, 48], application))), In(t))
      {
        VersionIsRead(groups, application, t);
      }
    }
  }

  lemma AskedAndRead(groups: set<Id>, t: Text)
    ensures PacketBytes(Packet(1, None, None), false) == [1, 0]
    ensures ParsePacket(groups, In([1, 0] + t)) == Accepted(Packet(1, None, None), In(t))
  {
    PacketReadsBack(Packet(1, None, None), groups, false, t);
    assert PacketBytes(Packet(1, None, None), false) == [1, 0];
  }

  lemma InfoAssembled(version: Text, tail: Text)
    ensures [1] + ([] + ([18] + (version + (tail + [0])) + [0])) == ([1, 18] + version) + tail + [0, 0]
  {
    assert [1] + ([] + ([18] + (version + (tail + [0])) + [0])) == [1, 18] + (version + (tail + [0])) + [0];
    assert version + (tail + [0]) == version + tail + [0];
  }

  lemma VersionOctets(application: Text)
    requires |application| <= 127
    ensures VersionPacket(application) == [1, 18, 5, 48, 46, 49, 46, 48]
              + (if application == [] then [] else [26, |application|] + application) + [0, 0]
  {
    hide BigEndian, StringBytes;
    Wire.StringOctets(VERSION);
    Wire.StringOctets(application);
    var named: Text := [|application|] + application;
    var tail: Text := if application == [] then [] else [26] + named;
    InfoAssembled([5] + VERSION, tail);
    assert [26] + named == [26, |application|] + application;
    assert [1, 18] + ([5] + VERSION) == [1, 18, 5, 48, 46, 49, 46, 48];
  }

  lemma VersionIsRead(groups: set<Id>, application: Text, t: Text)
    requires |application| <= 127
    ensures ParsePacket(groups, In(VersionPacket(application) + t))
         == Accepted(Packet(1, None, Some(InfoPayload([48, 46, 49, 46, 48], application))), In(t))
  {
    hide ParsePacket, PacketBytes;
    PacketReadsBack(Packet(INFO, None, Some(InfoPayload(VERSION, application))), groups, false, t);
  }

  predicate Commands(k: PacketRead, command: Byte) { k.Accepted? && k.packet.command == command }

  predicate Names(k: PacketRead, command: Byte) {
    Commands(k, command) && k.packet.data.Some? && k.packet.data.value.IdPayload?
  }

  predicate ParentIsIn(x: Option<Param>, n: Nodes) { x.Some? && x.value.parent.has ==> x.value.parent.value in n }

  // The parameter does not name a group at or below itself.
  ghost predicate StaysATree(x: Param, n: Nodes, d: Depth)
    requires IsForest(n, d)
  {
    x.parent.has ==> x.parent.value !in Subtree(n, d, x.id)
  }

  // A parsed parent is a group that the manager knows.
  lemma {:induction false} ParsedParentIsKnown(p: Param, groups: set<Id>, s: Stream)
    requires p.parent.has ==> p.parent.value in groups
    ensures var r := OptionLoop(p, groups, s); r.Done? && r.value.parent.has ==> r.value.parent.value in groups
    decreases |s.rest|
  {
    hide LabelLoop, ReadString, ReadWord, ReadBytes, ReadValue;
    if !s.eof && s.rest != [] && s.rest[0] != TERMINATOR {
      var turn := OptionTurn(p, groups, s.rest[0], Get(s).1);
      if turn.Again? { ParsedParentIsKnown(turn.p, groups, turn.stream); }
    }
  }

  // The tree and the dirty map after update(x) of p.
  function NodesAfter(n: Nodes, p: Param, x: Param): (r: Nodes)
    requires x.id in n && (n[x.id].parent.Some? ==> n[x.id].parent.value in n && n[x.id].parent.value != x.id)
    requires x.parent.has ==> x.parent.value in n
  {
    if Moves(p, x.parent) then Attach(n, x.id, x.parent.value) else n
  }

  function DirtyAfter(dirty: set<Id>, removed: set<Id>, p: Param, x: Param): (r: set<Id>) {
    if Touches(p, x) && x.id !in removed then dirty + {x.id} else dirty
  }

  lemma RootsChildren(n: Nodes, d: Depth, params: set<Id>)
    requires IsForest(n, d) && ROOT in n && n[ROOT].parent.None? && n.Keys == params + {ROOT}
    ensures n[ROOT].children <= params
  {
  }

  // One field holds the value, flagged if it was or held another; all else is as it was.
  predicate FieldIsStored(p: Param, f: Field, v: Datum, q: Param) {
    && Stored(Of(p, f), v, Of(q, f)) && (forall g: Field :: g != f ==> Of(q, g) == Of(p, g))
    && q.title.languages == p.title.languages && q.description.languages == p.description.languages
    && q == p.(value := q.value, title := q.title, description := q.description, tags := q.tags, order := q.order,
               userid := q.userid, readonly := q.readonly)
  }

  lemma StoresTheField(p: Param, f: Field, v: Datum)
    requires Typed(p.td, f, v)
    ensures var q := WithField(p, f, v);
      FieldIsStored(p, f, v, q) && q.td == p.td && q.id == p.id && q.parent == p.parent
    ensures Differs(WithField(p, f, v), p) <==> Of(p, f).value != v
  {
    var q := WithField(p, f, v);
    forall g
      ensures Of(q, g) == if g == f then Assign(Of(p, f), v) else Of(p, g)
    {
      FieldIsSet(p, f, v, g);
    }
    StoredIsAssigned(Of(p, f), v, Of(q, f));
  }

  lemma HeldAfterSetting(cache: map<Id, Param>, params: set<Id>, dirty: set<Id>, removed: set<Id>, n: Nodes, id: Id,
      p: Param)
    requires Held(cache, params, dirty, removed, n) && id in params
    requires p.id == id && p.td == cache[id].td && p.parent == cache[id].parent
    ensures Held(cache[id := p], params, dirty, removed, n) && Held(cache[id := p], params, dirty + {id}, removed, n)
  {
    hide IsGroup;
  }

  lemma HeldAfterUpdate(cache: map<Id, Param>, params: set<Id>, dirty: set<Id>, removed: set<Id>, n: Nodes, d: Depth,
      x: Param)
    requires Held(cache, params, dirty, removed, n) && IsForest(n, d) && x.id in params
    requires x.parent.has ==> x.parent.value in n && n[x.parent.value].group
    ensures x.id in cache && Linked(n)
    ensures n[x.id].parent.Some? ==> n[x.id].parent.value in n && n[x.id].parent.value != x.id
    ensures var p := cache[x.id]; var c := cache[x.id := Applied(p, x)]; var n' := NodesAfter(n, p, x);
      && Applied(p, x) == Moved(Updated(p, x), x.parent)
      && n' == (if x.parent.has then ChildAdded(n, x.id, x.parent.value) else n)
      && (Moves(p, x.parent) <==> x.parent.has && n[x.id].parent != Some(x.parent.value))
      && (Touches(p, x) <==> Differs(Updated(p, x), p) || x.userdata != [] || Moves(p, x.parent))
      && Held(c, params, DirtyAfter(dirty, removed, p, x), removed, n')
  {
    hide IsGroup, SetFrom, SameKind, Attach;
    if Moves(cache[x.id], x.parent) {
      AttachKeeps(n, d, x.id, x.parent.value);
    }
  }

  // The dump of a list of siblings, `rest` of it still to be sent.
  ghost predicate Midway(cache0: map<Id, Param>, cache: map<Id, Param>, n: Nodes, d: Depth, xs: seq<Id>, rest: seq<Id>,
                         done: set<Id>, packets: seq<Text>)
    requires IsForest(n, d)
  {
    && Ids(xs) <= n.Keys && Ids(rest) <= n.Keys && Apart(n, d, rest)
    && done + Subtrees(n, d, Ids(rest)) == Subtrees(n, d, Ids(xs)) && done !! Subtrees(n, d, Ids(rest))
    && cache == FlushedCache(cache0, done, true)
    && (forall y :: y in DumpAll(n, d, xs) ==> y in cache0) && (forall y :: y in DumpAll(n, d, rest) ==> y in cache0)
    && packets + FullPackets(cache0, DumpAll(n, d, rest)) == FullPackets(cache0, DumpAll(n, d, xs))
  }

  lemma MidwayAtFirst(cache: map<Id, Param>, params: set<Id>, n: Nodes, d: Depth, xs: seq<Id>)
    requires IsForest(n, d) && ROOT in n && n[ROOT].parent.None? && n.Keys == params + {ROOT} && ROOT !in params
    requires params <= cache.Keys && Ids(xs) <= params && Apart(n, d, xs)
    ensures Midway(cache, cache, n, d, xs, xs, {}, [])
  {
    hide Subtree, Subtrees, Below, IsForest, FlushedCache, FullPackets, Dump, DumpAll, Apart, Ids;
    DumpIsHeld(cache, params, n, d, xs);
    NothingFlushed(cache, true);
  }

  lemma MidwayNext(cache0: map<Id, Param>, cache: map<Id, Param>, n: Nodes, d: Depth, xs: seq<Id>, rest: seq<Id>,
      done: set<Id>, packets: seq<Text>)
    requires IsForest(n, d) && Midway(cache0, cache, n, d, xs, rest, done, packets) && rest != []
    ensures rest[0] in n && |Subtree(n, d, rest[0])| <= |Subtrees(n, d, Ids(xs))|
    ensures forall y :: y in Dump(n, d, rest[0]) ==> y in cache
  {
    hide Subtree, Subtrees, Below, IsForest, FullPackets, Dump, DumpAll, Apart, Ids, FlushedParam;
    TreeTurn(n, d, rest, done);
    Smaller(Subtrees(n, d, Ids(rest)), Subtrees(n, d, Ids(xs)));
    DumpTurn(cache0, n, d, rest, done);
  }

  lemma MidwayTurn(cache0: map<Id, Param>, cache: map<Id, Param>, n: Nodes, d: Depth, xs: seq<Id>, rest: seq<Id>,
      done: set<Id>, packets: seq<Text>,
                   cache': map<Id, Param>, p: seq<Text>)
    requires IsForest(n, d) && Midway(cache0, cache, n, d, xs, rest, done, packets) && rest != []
    requires rest[0] in n && forall y :: y in Dump(n, d, rest[0]) ==> y in cache
    requires p == FullPackets(cache, Dump(n, d, rest[0])) && cache' == FlushedCache(cache, Subtree(n, d, rest[0]), true)
    ensures Midway(cache0, cache', n, d, xs, rest[1..], done + Subtree(n, d, rest[0]), packets + p)
  {
    TreeTurn(n, d, rest, done);
    DumpTurn(cache0, n, d, rest, done);
    var q := FullPackets(cache0, DumpAll(n, d, rest[1..]));
    PacketsInARow(packets, p, q);
    assert Ids(xs) <= n.Keys && done + Subtrees(n, d, Ids(rest)) == Subtrees(n, d, Ids(xs));
    assert cache == FlushedCache(cache0, done, true) && forall y :: y in DumpAll(n, d, xs) ==> y in cache0;
    assert packets + FullPackets(cache0, DumpAll(n, d, rest)) == FullPackets(cache0, DumpAll(n, d, xs));
    hide *;
    MidwayOf(cache0, cache', n, d, xs, rest[1..], done + Subtree(n, d, rest[0]), packets + p);
  }

  lemma PacketsInARow(a: seq<Text>, b: seq<Text>, c: seq<Text>)
    ensures a + (b + c) == a + b + c
  {
  }

  lemma MidwayOf(cache0: map<Id, Param>, cache: map<Id, Param>, n: Nodes, d: Depth, xs: seq<Id>, rest: seq<Id>,
      done: set<Id>, packets: seq<Text>)
    requires IsForest(n, d) && Ids(xs) <= n.Keys && Ids(rest) <= n.Keys && Apart(n, d, rest)
    requires done + Subtrees(n, d, Ids(rest)) == Subtrees(n, d, Ids(xs)) && done !! Subtrees(n, d, Ids(rest))
    requires cache == FlushedCache(cache0, done, true)
    requires forall y :: y in DumpAll(n, d, xs) ==> y in cache0
    requires forall y :: y in DumpAll(n, d, rest) ==> y in cache0
    requires packets + FullPackets(cache0, DumpAll(n, d, rest)) == FullPackets(cache0, DumpAll(n, d, xs))
    ensures Midway(cache0, cache, n, d, xs, rest, done, packets)
  {
    hide Subtree, Subtrees, Below, IsForest, FullPackets, Dump, DumpAll, Apart, Ids, FlushedCache;
  }

  lemma MidwayAtLast(cache0: map<Id, Param>, cache: map<Id, Param>, n: Nodes, d: Depth, xs: seq<Id>, done: set<Id>,
      packets: seq<Text>)
    requires IsForest(n, d) && Midway(cache0, cache, n, d, xs, [], done, packets)
    ensures forall y :: y in DumpAll(n, d, xs) ==> y in cache0
    ensures cache == FlushedCache(cache0, Subtrees(n, d, Ids(xs)), true)
             && packets == FullPackets(cache0, DumpAll(n, d, xs))
  {
    hide Subtree, Subtrees, Below, IsForest, FlushedCache, Dump, Apart;
    assert Ids([]) == {};
    NoneBelow(n, d);
    assert FullPackets(cache0, DumpAll(n, d, [])) == [];
    assert packets + [] == packets;
    assert done + {} == done;
  }

  lemma Suffix(xs: seq<Id>, i: nat)
    requires i < |xs|
    ensures xs[i..] != [] && xs[i..][0] == xs[i] && xs[i..][1..] == xs[i + 1..] && xs[i] in Ids(xs)
  {
  }

  lemma NoneBelow(n: Nodes, d: Depth)
    requires IsForest(n, d)
    ensures Subtrees(n, d, {}) == {}
  {
  }

  lemma NothingFlushed(cache: map<Id, Param>, all: bool)
    ensures FlushedCache(cache, {}, all) == cache
  {
  }

  // Below a parameter there are only parameters.
  lemma BelowAreParameters(params: set<Id>, n: Nodes, d: Depth, xs: set<Id>)
    requires IsForest(n, d) && ROOT in n && n[ROOT].parent.None? && n.Keys == params + {ROOT} && xs <= params
             && ROOT !in params
    ensures Subtrees(n, d, xs) <= params
  {
    forall y, x | x in xs && y in n && Below(n, d, y, x)
      ensures y in params
    {
      RootIsNotBelow(n, d, x);
    }
  }

  lemma DumpIsHeld(cache: map<Id, Param>, params: set<Id>, n: Nodes, d: Depth, xs: seq<Id>)
    requires IsForest(n, d) && ROOT in n && n[ROOT].parent.None? && n.Keys == params + {ROOT} && ROOT !in params
    requires params <= cache.Keys && Ids(xs) <= params && Apart(n, d, xs)
    ensures Ids(xs) <= n.Keys && forall y :: y in DumpAll(n, d, xs) ==> y in cache
  {
    hide Subtree, Subtrees, Below, DumpAll, Apart, Ids;
    BelowAreParameters(params, n, d, Ids(xs));
    DumpAllIsDump(n, d, xs);
  }

  lemma PacketsSplit(cache: map<Id, Param>, l: seq<Id>, m: seq<Id>)
    requires forall y :: y in l + m ==> y in cache
    ensures (forall y :: y in l ==> y in cache) && (forall y :: y in m ==> y in cache)
    ensures FullPackets(cache, l + m) == FullPackets(cache, l) + FullPackets(cache, m)
  {
    hide FullPacket;
    assert forall y :: y in l || y in m ==> y in l + m;
  }

  lemma PacketsUntouched(cache: map<Id, Param>, done: set<Id>, l: seq<Id>)
    requires forall y :: y in l ==> y in cache && y !in done
    ensures forall y :: y in l ==> y in FlushedCache(cache, done, true)
    ensures FullPackets(FlushedCache(cache, done, true), l) == FullPackets(cache, l)
  {
    hide FullPacket, FlushedParam;
  }

  // The next child's subtree and the rest.
  lemma TreeTurn(n: Nodes, d: Depth, xs: seq<Id>, done: set<Id>)
    requires IsForest(n, d) && xs != [] && Ids(xs) <= n.Keys && Apart(n, d, xs) && done !! Subtrees(n, d, Ids(xs))
    ensures xs[0] in n && Ids(xs[1..]) <= n.Keys && Apart(n, d, xs[1..])
    ensures done + Subtrees(n, d, Ids(xs)) == done + Subtree(n, d, xs[0]) + Subtrees(n, d, Ids(xs[1..]))
    ensures done + Subtree(n, d, xs[0]) !! Subtrees(n, d, Ids(xs[1..])) && done !! Subtree(n, d, xs[0])
    ensures |Subtree(n, d, xs[0])| <= |Subtrees(n, d, Ids(xs))|
    ensures DumpAll(n, d, xs) == Dump(n, d, xs[0]) + DumpAll(n, d, xs[1..])
  {
    HeadAndTailAreWithin(n, d, xs);
    ApartFromTheRest(n, d, xs);
    assert DumpAll(n, d, xs) == Dump(n, d, xs[0]) + DumpAll(n, d, xs[1..]);
    hide *;
    SetTurn(done, Subtrees(n, d, Ids(xs)), Subtree(n, d, xs[0]), Subtrees(n, d, Ids(xs[1..])));
  }

  lemma SetTurn(done: set<Id>, rest: set<Id>, sub: set<Id>, rest': set<Id>)
    requires rest == sub + rest' && sub !! rest' && done !! rest
    ensures done + rest == done + sub + rest' && done + sub !! rest' && done !! sub
  {
  }

  lemma DumpIsInItsSubtree(n: Nodes, d: Depth, id: Id)
    requires IsForest(n, d) && id in n
    ensures forall y :: y in Dump(n, d, id) <==> y in Subtree(n, d, id)
  {
    hide Subtree, Subtrees, Below, IsForest, Dump;
    DumpIsDump(n, d, id);
    OneSubtree(n, d, id);
  }

  // The packets of the next child are the same from the half-flushed cache.
  lemma DumpTurn(cache: map<Id, Param>, n: Nodes, d: Depth, xs: seq<Id>, done: set<Id>)
    requires IsForest(n, d) && xs != [] && Ids(xs) <= n.Keys && Apart(n, d, xs) && done !! Subtrees(n, d, Ids(xs))
    requires forall y :: y in DumpAll(n, d, xs) ==> y in cache
    ensures xs[0] in n && Ids(xs[1..]) <= n.Keys
    ensures forall y :: y in Dump(n, d, xs[0]) || y in DumpAll(n, d, xs[1..]) ==> y in cache
    ensures FullPackets(cache, DumpAll(n, d, xs))
             == FullPackets(cache, Dump(n, d, xs[0])) + FullPackets(cache, DumpAll(n, d, xs[1..]))
    ensures FullPackets(FlushedCache(cache, done, true), Dump(n, d, xs[0])) == FullPackets(cache, Dump(n, d, xs[0]))
    ensures FlushedCache(FlushedCache(cache, done, true), Subtree(n, d, xs[0]), true)
             == FlushedCache(cache, done + Subtree(n, d, xs[0]), true)
  {
    hide Subtree, Subtrees, Below, IsForest, FlushedCache, FullPackets, Dump, DumpAll, Apart, Ids;
    TreeTurn(n, d, xs, done);
    DumpIsInItsSubtree(n, d, xs[0]);
    FlushInTwo(cache, done, Subtree(n, d, xs[0]), true);
    PacketsSplit(cache, Dump(n, d, xs[0]), DumpAll(n, d, xs[1..]));
    PacketsUntouched(cache, done, Dump(n, d, xs[0]));
  }

  // The children of the top of a dump.
  lemma ChildrenOfTheTop(params: set<Id>, n: Nodes, d: Depth, id: Id)
    requires IsForest(n, d) && id in params
    requires ROOT in n && n[ROOT].parent.None? && n.Keys == params + {ROOT} && ROOT !in params
    ensures var xs := Ascending(n[id].children);
      && Ids(xs) == n[id].children <= params && Apart(n, d, xs)
      && |Subtrees(n, d, Ids(xs))| < |Subtree(n, d, id)|
      && Subtree(n, d, id) == {id} + Subtrees(n, d, Ids(xs)) && id !in Subtrees(n, d, Ids(xs))
      && Dump(n, d, id) == [id] + DumpAll(n, d, xs)
      && (forall y :: y in DumpAll(n, d, xs) <==> y in Subtrees(n, d, Ids(xs)))
  {
    hide Subtree, Subtrees, Below, IsForest, DumpAll, Apart, Ids, AfterParent, Ascending;
    var xs := Ascending(n[id].children);
    ChildrenAreFewer(n, d, id);
    ChildrenAreApart(n, d, id);
    SubtreeSplits(n, d, id);
    ChildrenAreParameters(params, n, d, id);
    DumpAllIsDump(n, d, xs);
    assert Dump(n, d, id) == [id] + DumpAll(n, d, xs);
  }

  lemma FirstPacket(cache: map<Id, Param>, id: Id, below: set<Id>, l: seq<Id>)
    requires id in cache && id !in below && (forall y :: y in l ==> y in cache && y in below)
    ensures var cache1 := cache[id := FlushedParam(cache[id], true)];
      && FlushedCache(cache1, below, true) == FlushedCache(cache, {id} + below, true)
      && cache1 == FlushedCache(cache, {id}, true)
      && (forall y :: y in l ==> y in cache1) && (forall y :: y in [id] + l ==> y in cache)
      && FullPackets(cache, [id] + l) == [FullPacket(cache[id])] + FullPackets(cache1, l)
  {
    hide FullPacket, FlushedParam;
  }

  // The top of a dump, and what is left for its children.
  lemma TopOfADump(cache: map<Id, Param>, params: set<Id>, dirty: set<Id>, removed: set<Id>, n: Nodes, d: Depth, id: Id)
    requires Held(cache, params, dirty, removed, n) && IsForest(n, d) && id in params
    requires ROOT in n && n[ROOT].parent.None? && n.Keys == params + {ROOT} && ROOT !in params
    ensures var xs := Ascending(n[id].children); var cache1 := cache[id := FlushedParam(cache[id], true)];
      && Ids(xs) == n[id].children <= params && Apart(n, d, xs)
      && |Subtrees(n, d, Ids(xs))| < |Subtree(n, d, id)|
      && Held(cache1, params, dirty, removed, n)
      && FlushedCache(cache1, Subtrees(n, d, Ids(xs)), true) == FlushedCache(cache, Subtree(n, d, id), true)
      && (forall y :: y in Dump(n, d, id) ==> y in cache) && (forall y :: y in DumpAll(n, d, xs) ==> y in cache1)
      && FullPackets(cache, Dump(n, d, id)) == [FullPacket(cache[id])] + FullPackets(cache1, DumpAll(n, d, xs))
  {
    var xs := Ascending(n[id].children);
    ChildrenOfTheTop(params, n, d, id);
    DumpIsHeld(cache, params, n, d, xs);
    HeldAfterFlush(cache, params, dirty, removed, n, {id}, true);
    assert id in cache;
    FirstPacket(cache, id, Subtrees(n, d, Ids(xs)), DumpAll(n, d, xs));
  }

  lemma ChildrenAreParameters(params: set<Id>, n: Nodes, d: Depth, id: Id)
    requires IsForest(n, d) && n.Keys == params + {ROOT} && ROOT in n && n[ROOT].parent.None? && id in params
    ensures n[id].children <= params
  {
  }

  lemma OnePacketMore(changes: seq<Change>, cache: map<Id, Param>, i: nat)
    requires Covers(cache, changes) && i < |changes|
    ensures |ChangePackets(changes, cache)| == |changes| && (changes[i].Update? ==> changes[i].id in cache)
    ensures ChangePackets(changes, cache)[..i + 1]
             == ChangePackets(changes, cache)[..i] + [ChangePacket(changes[i], cache)]
  {
    hide ChangePacket;
  }

  lemma NothingMore(s: set<Id>)
    ensures s + {} == s
  {
  }

  lemma FlushNone(cache: map<Id, Param>)
    ensures FlushedCache(cache, {}, false) == cache
  {
  }

  lemma OnceOnly(changes: seq<Change>, i: nat)
    requires i < |changes| && forall i, j :: 0 <= i < j < |changes| ==> changes[i] != changes[j]
    ensures changes[i].Update? ==> changes[i].id !in UpdatedIds(changes[..i])
  {
    forall c | c in changes[..i] && c.Update? && changes[i].Update?
      ensures c.id != changes[i].id
    {
      var j :| 0 <= j < i && changes[j] == c;
      assert changes[j] != changes[i];
    }
  }

  lemma UpdatesAreTheDirty(changes: seq<Change>, dirty: set<Id>)
    requires forall id :: Update(id) in changes <==> id in dirty
    ensures UpdatedIds(changes) == dirty
  {
    forall id | id in dirty
      ensures id in UpdatedIds(changes)
    {
      assert Update(id) in changes;
    }
    forall id | id in UpdatedIds(changes)
      ensures id in dirty
    {
      var c :| c in changes && c.Update? && c.id == id;
      assert c == Update(id);
    }
  }

  lemma FlushedCacheMatches(cache: map<Id, Param>, ids: set<Id>, all: bool)
    ensures forall id :: id in cache ==> FlushedCache(cache, ids, all)[id].id == cache[id].id
    ensures forall id, node :: id in cache ==>
             (Matches(FlushedCache(cache, ids, all)[id], node) <==> Matches(cache[id], node))
  {
    hide FlushedParam, IsGroup;
    forall id | id in cache
      ensures var q := FlushedCache(cache, ids, all)[id];
        && q.id == cache[id].id && (IsGroup(q.td) <==> IsGroup(cache[id].td))
        && q.parent.has == cache[id].parent.has && q.parent.value == cache[id].parent.value
    {
      FlushKeepsMatch(cache[id], all);
    }
  }

  lemma BroughtParentIsKnown(groups: set<Id>, bytes: Text)
    ensures var x := Brings(groups, bytes); x.Some? && x.value.parent.has ==> x.value.parent.value in groups
  {
    hide PacketLoop, ParseUpdateValue;
    var (command, s) := Get(In(bytes));
    if command.Some? {
      if command.value == UPDATEVALUE {
        ValueUpdateHasNoParent(s);
      } else if command.value == UPDATE {
        LoopParentIsKnown(Packet(UPDATE, None, None), groups, s);
      } else {
        LoopKeepsCommand(Packet(command.value, None, None), groups, s);
      }
    }
  }

  lemma ValueUpdateHasNoParent(s: Stream)
    ensures var r := ParseUpdateValue(s); r.Found? ==> !r.p.parent.has
  {
    hide ReadValue, ReadWord, CreateType;
  }

  lemma ParamParentIsKnown(groups: set<Id>, s: Stream)
    ensures var r := ParseParam(groups, s); r.Found? && r.p.parent.has ==> r.p.parent.value in groups
  {
    hide ParseType, OptionLoop, ReadWord, CreateType, CreateRange;
    forall id, td, mid
      ensures var r := OptionLoop(FreshParam(id, td), groups, mid);
        r.Done? && r.value.parent.has ==> r.value.parent.value in groups
    {
      ParsedParentIsKnown(FreshParam(id, td), groups, mid);
    }
  }

  ghost predicate KnownParent(d: Option<Payload>, groups: set<Id>) {
    d.Some? && d.value.ParamPayload? && d.value.p.parent.has ==> d.value.p.parent.value in groups
  }

  lemma {:induction false} LoopParentIsKnown(k: Packet, groups: set<Id>, s: Stream)
    requires k.command == UPDATE && KnownParent(k.data, groups)
    ensures var r := PacketLoop(k, groups, s); r.Accepted? ==> KnownParent(r.packet.data, groups)
    decreases |s.rest|
  {
    hide ReadWord, ParseParam;
    if !s.eof && s.rest != [] {
      var next := Get(s).1;
      if s.rest[0] == TIMESTAMP {
        var v := ReadWord(next, 8);
        if v.Got? { LoopParentIsKnown(k.(timestamp := Some(v.value)), groups, v.next); }
      } else if s.rest[0] == DATA && k.data.None? {
        ParamParentIsKnown(groups, next);
        var d := ParseData(UPDATE, groups, next);
        if d.Payload? { LoopParentIsKnown(k.(data := d.data), groups, d.stream); }
      }
    }
  }

  lemma {:induction false} LoopKeepsCommand(k: Packet, groups: set<Id>, s: Stream)
    ensures var r := PacketLoop(k, groups, s); r.Accepted? ==> r.packet.command == k.command
    decreases |s.rest|
  {
    hide ReadWord, ParseData;
    if !s.eof && s.rest != [] {
      var next := Get(s).1;
      if s.rest[0] == TIMESTAMP {
        var v := ReadWord(next, 8);
        if v.Got? { LoopKeepsCommand(k.(timestamp := Some(v.value)), groups, v.next); }
      } else if s.rest[0] == DATA && k.data.None? {
        var d := ParseData(k.command, groups, next);
        if d.Payload? { LoopKeepsCommand(k.(data := d.data), groups, d.stream); }
      }
    }
  }

  lemma DumpIsThere(cache: map<Id, Param>, params: set<Id>, dirty: set<Id>, removed: set<Id>, n: Nodes, d: Depth)
    requires Held(cache, params, dirty, removed, n) && IsForest(n, d) && ROOT in n && n[ROOT].parent.None?
             && n.Keys == params + {ROOT}
    requires ROOT !in params
    ensures forall y :: y in InitOrder(n, d) ==> y in cache
  {
    InitOrderIsADump(n, d);
    forall y | y in InitOrder(n, d)
      ensures y in cache
    {
      assert y in Ids(InitOrder(n, d));
    }
  }

  lemma HeldAfterAddition(cache: map<Id, Param>, params: set<Id>, dirty: set<Id>, removed: set<Id>, n: Nodes, x: Param)
    requires Held(cache, params, dirty, removed, n) && x.id !in params
    requires x.parent.has ==> x.parent.value in params
    ensures ParentIn(n, x) == if x.parent.has then Some(x.parent.value) else None
    ensures Held(cache[x.id := x], params + {x.id}, dirty, removed, Added(n, x.id, IsGroup(x.td), ParentIn(n, x)))
  {
    hide IsGroup;
  }

  lemma HeldAfterDrop(cache: map<Id, Param>, params: set<Id>, dirty: set<Id>, removed: set<Id>, n: Nodes, d: Depth,
      id: Id, dirty': set<Id>)
    requires Held(cache, params, dirty, removed, n) && IsForest(n, d) && id in params
    requires dirty' <= dirty + Subtree(n, d, id) && Subtree(n, d, id) <= params
    ensures Held(OrphanedCache(cache, Subtree(n, d, id)), params - Subtree(n, d, id), dirty', removed,
             WithoutSubtree(n, d, id))
  {
    hide Subtree, IsForest, IsGroup, OrphanedCache, WithoutSubtree, Matches;
    HeldAfterRemoval(cache, params, dirty, removed, n, d, id, dirty');
  }

  lemma RootStays(n: Nodes, d: Depth, id: Id)
    requires IsForest(n, d) && ROOT in n && n[ROOT].parent.None? && n[ROOT].group && id != ROOT
    ensures var n' := WithoutSubtree(n, d, id); ROOT in n' && n'[ROOT].group && n'[ROOT].parent.None?
    ensures WithoutSubtree(n, d, id).Keys == n.Keys - Subtree(n, d, id)
  {
    RootIsNotBelow(n, d, id);
  }

  // ---------------------------------------------------------------- server to client

  // The client of Initialisation that an endpoint is; the root is not one of its parameters.
  ghost function AsClient(cache: map<Id, Param>, params: set<Id>, n: Nodes): (r: Client)
    requires params <= cache.Keys
  {
    Client(map id | id in params :: cache[id], n - {ROOT})
  }

  // Being told of an unknown parameter, ClientReceived does what Initialisation.Receive does.
  lemma ReceivedAsClient(cache: map<Id, Param>, params: set<Id>, dirty: set<Id>, removed: set<Id>, n: Nodes,
      bytes: Text, x: Param)
    requires Held(cache, params, dirty, removed, n) && Linked(n) && ROOT !in params
    requires Brings(GroupIds(params, n), bytes) == Some(x) && x.id !in params && x.id != ROOT
    ensures Groups(AsClient(cache, params, n)) == GroupIds(params, n)
    ensures AsClient(cache[x.id := x], params + {x.id}, Added(n, x.id, IsGroup(x.td), ParentIn(n, x)))
         == Receive(AsClient(cache, params, n), bytes)
  {
    hide ParsePacket, IsGroup, GroupIds, Groups, Added, ParentIn;
    BroughtParentIsKnown(GroupIds(params, n), bytes);
    GroupsOfAClient(cache, params, dirty, removed, n);
    AddedBesideTheRoot(n, x, params);
    assert (map id | id in params + {x.id} :: cache[x.id := x][id]) == AsClient(cache, params, n).params[x.id := x];
  }

  // And a known one is updated as Receive does it, but for moves, which Receive leaves out.
  lemma KnownAsClient(cache: map<Id, Param>, params: set<Id>, dirty: set<Id>, removed: set<Id>, n: Nodes,
      bytes: Text, x: Param)
    requires Held(cache, params, dirty, removed, n)
    requires Brings(GroupIds(params, n), bytes) == Some(x) && x.id in params
    ensures Receive(AsClient(cache, params, n), bytes) == AsClient(cache[x.id := Applied(cache[x.id], x)], params, n)
  {
    hide ParsePacket, IsGroup, GroupIds, Groups, Applied;
    GroupsOfAClient(cache, params, dirty, removed, n);
    assert (map id | id in params :: cache[x.id := Applied(cache[x.id], x)][id])
        == AsClient(cache, params, n).params[x.id := Applied(cache[x.id], x)];
  }

  // ---------------------------------------------------------------- the replicas that endpoints hold

  // One parameter of an endpoint, as Synchronisation and Network have it.
  function ReplicaOf(cache: map<Id, Param>, dirty: set<Id>, params: set<Id>, n: Nodes, id: Id): (r: Replica)
    requires id in cache
  {
    Replica(cache[id], id in dirty, GroupIds(params, n))
  }

  // What ServerReceived and ClientReceived do with an update of a known parameter is a delivery.
  lemma ReceivesAsReplica(cache: map<Id, Param>, params: set<Id>, dirty: set<Id>, removed: set<Id>, n: Nodes, d: Depth,
      bytes: Text, id: Id)
    requires Held(cache, params, dirty, removed, n) && IsForest(n, d) && id in params && id !in removed
    requires var x := Brings(GroupIds(params, n), bytes); x.Some? && x.value.id == id && ParentIsIn(x, n)
    ensures var x := Brings(GroupIds(params, n), bytes).value;
      && (n[id].parent.Some? ==> n[id].parent.value in n && n[id].parent.value != id)
      && ReplicaOf(cache[id := Applied(cache[id], x)], DirtyAfter(dirty, removed, cache[id], x), params,
           NodesAfter(n, cache[id], x), id)
         == Hear(ReplicaOf(cache, dirty, params, n, id), bytes)
  {
    hide Brings, Applied, Touches, Matches, IsForest, GroupIds, NodesAfter;
    GroupsStay(n, d, params, cache[id], Brings(GroupIds(params, n), bytes).value);
  }

  lemma GroupsStay(n: Nodes, d: Depth, params: set<Id>, p: Param, x: Param)
    requires IsForest(n, d) && x.id in n && (x.parent.has ==> x.parent.value in n)
    ensures n[x.id].parent.Some? ==> n[x.id].parent.value in n && n[x.id].parent.value != x.id
    ensures GroupIds(params, NodesAfter(n, p, x)) == GroupIds(params, n)
  {
  }

  // What Update does with a dirty parameter is a flush, and with another one nothing.
  lemma UpdatesAsReplica(cache: map<Id, Param>, params: set<Id>, dirty: set<Id>, n: Nodes, id: Id)
    requires id in cache
    ensures ReplicaOf(FlushedCache(cache, dirty, false), {}, params, n, id)
         == var r := ReplicaOf(cache, dirty, params, n, id); if id in dirty then Emptied(r) else r
  {
    hide FlushedParam;
  }

  // What SetField does is a set.
  lemma SetsAsReplica(cache: map<Id, Param>, params: set<Id>, dirty: set<Id>, removed: set<Id>, n: Nodes, id: Id,
      f: Field, v: Datum)
    requires id in cache && id !in removed && Kinded(cache[id].td, f, v)
    ensures ReplicaOf(cache[id := WithField(cache[id], f, v)],
              if Of(cache[id], f).value != v && id !in removed then dirty + {id} else dirty, params, n, id)
         == Set(ReplicaOf(cache, dirty, params, n, id), f, v)
  {
    hide FieldIsStored, WithField, Differs, Kinded;
    TypedIfKinded(cache[id].td, f, v);
    StoresTheField(cache[id], f, v);
  }

  lemma TypedIfKinded(td: TypeDef, f: Field, v: Datum)
    requires Kinded(td, f, v)
    ensures Typed(td, f, v)
  {
  }

  lemma AddedBesideTheRoot(n: Nodes, x: Param, params: set<Id>)
    requires x.id != ROOT && ROOT !in params && (x.parent.has ==> x.parent.value in GroupIds(params, n))
    ensures ParentIn(n - {ROOT}, x) == ParentIn(n, x)
    ensures Added(n, x.id, IsGroup(x.td), ParentIn(n, x)) - {ROOT}
             == Added(n - {ROOT}, x.id, IsGroup(x.td), ParentIn(n, x))
  {
    hide IsGroup;
  }

  lemma GroupsOfAClient(cache: map<Id, Param>, params: set<Id>, dirty: set<Id>, removed: set<Id>, n: Nodes)
    requires Held(cache, params, dirty, removed, n)
    ensures Groups(AsClient(cache, params, n)) == GroupIds(params, n)
  {
    hide IsGroup;
  }

  // A new parameter has its label and its group, both to be sent, and nothing else.
  lemma NewParamHolds(id: Id, td: TypeDef, text: Text, group: Id)
    ensures var p := NewParam(id, td, text, group);
      && p.id == id && p.td == td && p.title == Labelled(Opt(true, text, text != []), map[])
      && p.parent == Opt(true, group, true) && !p.value.has && !p.value.changed
      && (FreshType(td) == td ==> SetterOnlyFields(p))
      && !p.tags.has && !p.order.has && !p.userid.has && !p.readonly.has
  {
  }

  // A new parameter can be dumped, and stays so while the server has not flushed it.
  lemma NewParamIsReady(id: Id, td: TypeDef, text: Text, group: Id)
    requires SendableType(td) && FreshType(td) == td && |text| <= Readable(TINY)
    ensures Ready(NewParam(id, td, text, group), id, Node(IsGroup(td), Some(group), {}))
  {
    hide SendableType;
    SmallPowers();
  }

  // The update that a flush sends for a parameter taken down with its group brings it back on a
  // client that had dropped it, without its parent and with only the pending fields.
  lemma OrphanComesBack(p: Param, c: Client)
    requires Sendable(p) && p.parent.has && p.id !in c.params
    ensures var c' := Receive(c, Message(Orphaned(p)));
      && c'.params == c.params[p.id := Proxy(Orphaned(p), false, Groups(c))]
      && p.id in c'.nodes && c'.nodes[p.id].parent.None?
  {
    hide ParsePacket, PacketBytes, Groups;
    var q := Orphaned(p);
    SmallPowers();
    assert SendablePacket(PacketOf(q)) && !OnlyValueChanged(q);
    PacketReadsBack(PacketOf(q), Groups(c), false, []);
    assert Message(q) + [] == Message(q);
    assert !Proxy(q, false, Groups(c)).parent.has;
  }
}
