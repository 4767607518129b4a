/** A removal that a client hears, and what its next update() makes of it on the other clients.
    src/rabbitControl/parameterclient.cpp, parameterserver.cpp and parametermanager.cpp. */
module Echoes {
  import opened Bytes
  import opened Streams
  import opened Options
  import opened TypeCodec
  import opened Forest
  import opened Parameters
  import opened ParameterCodec
  import opened ParameterDelta
  import opened Packets
  import opened ParameterManager
  import opened Initialisation
  import opened Synchronisation
  import opened Endpoints

  lemma RemoveIsRead(id: Id, groups: set<Id>)
    ensures var k := ParsePacket(groups, In(RemovePacket(id))); Names(k, REMOVE) && k.packet.data.value.id == id
    ensures Brings(groups, RemovePacket(id)).None?
  {
    hide ParsePacket, PacketBytes;
    PacketReadsBack(Packet(REMOVE, None, Some(IdPayload(id))), groups, false, []);
    assert RemovePacket(id) + [] == RemovePacket(id);
  }

  // The parameter that the update of a dropped one brings: only what was pending, and no parent.
  function Stray(p: Param): (r: Param) { Proxy(Orphaned(p), false, {}) }

  lemma OrphanBrings(p: Param, groups: set<Id>)
    requires Sendable(p) && p.parent.has
    ensures Brings(groups, Message(Orphaned(p))) == Some(Stray(p)) && Stray(p).id == p.id && !Stray(p).parent.has
  {
    hide ParsePacket, PacketBytes;
    var q := Orphaned(p);
    SmallPowers();
    assert SendablePacket(PacketOf(q)) && !OnlyValueChanged(q);
    PacketReadsBack(PacketOf(q), groups, false, []);
    assert Message(q) + [] == Message(q);
    assert ReceivedParent(q.parent, false, groups) == ReceivedParent(q.parent, false, {});
    assert Proxy(q, false, groups) == Proxy(q, false, {}) by {
      hide ReceivedLabel, InitialValue, Sent, Received;
    }
  }

  // One message for each of them, in order, cut off from its group.
  ghost predicate Told(packets: seq<Text>, cache: map<Id, Param>, l: seq<Id>)
    requires forall y :: y in l ==> y in cache
  {
    && |packets| == |l| && (forall i :: 0 <= i < |l| ==> packets[i] == Message(Orphaned(cache[l[i]])))
    && (forall i, j :: 0 <= i < j < |l| ==> l[i] != l[j])
  }

  ghost function Messages(cache: map<Id, Param>, l: seq<Id>): (r: seq<Text>)
    requires forall y :: y in l ==> y in cache
  {
    seq(|l|, i requires 0 <= i < |l| => Message(cache[l[i]]))
  }

  lemma NothingRemoved()
    ensures Removes(Ascending({})) == []
  {
    assert forall id :: id !in Ascending({});
  }

  // With nothing removed, a flush is one update for each dirty parameter.
  lemma OnlyUpdates(dirty: set<Id>, cache: map<Id, Param>)
    requires dirty <= cache.Keys
    ensures var changes := Removes(Ascending({})) + Updates(Ascending(dirty));
      && (forall y :: y in Ascending(dirty) ==> y in cache) && Covers(cache, changes)
      && ChangePackets(changes, cache) == Messages(cache, Ascending(dirty))
  {
    hide Message, RemovePacket, Ascending;
    NothingRemoved();
    assert [] + Updates(Ascending(dirty)) == Updates(Ascending(dirty));
  }

  // Who has come in after some of the messages: each by itself, beside what was there.
  ghost predicate CameIn(params: set<Id>, n: Nodes, cache: map<Id, Param>, params': set<Id>, n': Nodes,
      cache': map<Id, Param>, strays: map<Id, Param>, l: seq<Id>)
  {
    && params' == params + Ids(l)
    && (forall y :: y in n ==> y in n' && n'[y] == n[y])
    && (forall y :: y in params ==> y in cache && y in cache' && cache'[y] == cache[y])
    && (forall y :: y in l ==>
      && y in strays && y in cache' && y in n' && cache'[y] == Stray(strays[y])
      && n'[y] == Node(IsGroup(cache'[y].td), None, {}))
  }

  lemma OneMoreCameIn(params: set<Id>, n: Nodes, cache: map<Id, Param>, params': set<Id>, n': Nodes,
      cache': map<Id, Param>, strays: map<Id, Param>, l: seq<Id>, i: nat)
    requires i < |l| && CameIn(params, n, cache, params', n', cache', strays, l[..i])
    requires l[i] in strays && l[i] !in params && l[i] !in n && l[i] !in l[..i]
    ensures var x := Stray(strays[l[i]]);
      CameIn(params, n, cache, params' + {l[i]}, n'[l[i] := Node(IsGroup(x.td), None, {})], cache'[l[i] := x],
             strays, l[..i + 1])
  {
    hide Stray, IsGroup;
    assert l[..i + 1] == l[..i] + [l[i]];
  }

  // The server passes the message on, and the other client takes the stray in.
  method PassOn(server: Endpoint, other: Endpoint, bytes: Text, ghost p: Param)
    requires server.Valid() && other.Valid() && server != other && server.manager != other.manager
    requires Sendable(p) && p.parent.has && bytes == Message(Orphaned(p)) && p.id != ROOT
    requires p.id !in server.manager.params && p.id !in other.manager.params
    modifies server`cache, server.manager, other`cache, other.manager
    ensures server.Valid() && server.manager.params == old(server.manager.params)
    ensures server.cache == old(server.cache) && server.manager.nodes == old(server.manager.nodes)
    ensures server.manager.dirty == old(server.manager.dirty) && other.manager.dirty == old(other.manager.dirty)
    ensures other.Valid() && other.manager.params == old(other.manager.params) + {p.id}
    ensures other.cache == old(other.cache)[p.id := Stray(p)]
    ensures other.manager.nodes == old(other.manager.nodes)[p.id := Node(IsGroup(Stray(p).td), None, {})]
  {
    hide Sendable, Stray, Message, Orphaned, Brings, ParsePacket, IsForest, Linked, Subtree, Held, GroupIds, Applied,
        FullPackets, InitOrder, PacketBytes, FlushedCache;
    OrphanBrings(p, GroupIds(server.manager.params, server.manager.nodes));
    OrphanBrings(p, GroupIds(other.manager.params, other.manager.nodes));
    BringsAnUpdate(GroupIds(server.manager.params, server.manager.nodes), bytes);
    var reply, forward := server.ServerReceived(bytes);
    if forward { reply := other.ClientReceived(bytes); }
  }

  lemma BringsAnUpdate(groups: set<Id>, bytes: Text)
    requires Brings(groups, bytes).Some?
    ensures !Commands(ParsePacket(groups, In(bytes)), INITIALIZE)
  {
    hide ParsePacket;
  }

  // The messages reach the server, which passes them on to another client.
  method Echo(server: Endpoint, other: Endpoint, packets: seq<Text>, ghost strays: map<Id, Param>, ghost l: seq<Id>)
    requires server.Valid() && other.Valid() && server != other && server.manager != other.manager
    requires forall y :: y in l ==>
               y in strays && strays[y].id == y && Sendable(strays[y]) && strays[y].parent.has
               && y !in server.manager.params && y !in other.manager.params && y != ROOT
    requires forall i, j :: 0 <= i < j < |l| ==> l[i] != l[j]
    requires |packets| == |l| && forall i :: 0 <= i < |l| ==> packets[i] == Message(Orphaned(strays[l[i]]))
    modifies server`cache, server.manager, other`cache, other.manager
    ensures server.Valid() && server.manager.params == old(server.manager.params)
    ensures server.cache == old(server.cache) && server.manager.nodes == old(server.manager.nodes)
    ensures server.manager.dirty == old(server.manager.dirty) && other.manager.dirty == old(other.manager.dirty)
    ensures other.Valid()
    ensures CameIn(old(other.manager.params), old(other.manager.nodes), old(other.cache), other.manager.params,
             other.manager.nodes, other.cache, strays, l)
  {
    hide Sendable, Stray, Message, Orphaned, CameIn, Endpoint.Valid;
    ghost var params0, nodes0, cache0 := other.manager.params, other.manager.nodes, other.cache;
    NobodyCameIn(other, strays);
    assert l[..0] == [] && l[..|l|] == l;
    for i := 0 to |packets|
      invariant server.Valid() && server.manager.params == old(server.manager.params)
      invariant server.cache == old(server.cache) && server.manager.nodes == old(server.manager.nodes)
      invariant server.manager.dirty == old(server.manager.dirty) && other.manager.dirty == old(other.manager.dirty)
      invariant other.Valid()
      invariant CameIn(params0, nodes0, cache0, other.manager.params, other.manager.nodes, other.cache, strays, l[..i])
    {
      NotInYet(params0, nodes0, cache0, other.manager.params, other.manager.nodes, other.cache, strays, l, i);
      OneMoreCameIn(params0, nodes0, cache0, other.manager.params, other.manager.nodes, other.cache, strays, l, i);
      PassOn(server, other, packets[i], strays[l[i]]);
    }
  }

  lemma NobodyCameIn(e: Endpoint, strays: map<Id, Param>)
    requires e.Valid()
    ensures e.manager.nodes.Keys == e.manager.params + {ROOT}
    ensures CameIn(e.manager.params, e.manager.nodes, e.cache, e.manager.params, e.manager.nodes, e.cache, strays, [])
  {
    hide Matches, IsForest;
    assert e.manager.params + Ids([]) == e.manager.params;
  }

  lemma NotInYet(params: set<Id>, n: Nodes, cache: map<Id, Param>, params': set<Id>, n': Nodes,
      cache': map<Id, Param>, strays: map<Id, Param>, l: seq<Id>, i: nat)
    requires i < |l| && CameIn(params, n, cache, params', n', cache', strays, l[..i]) && l[i] !in params
    requires forall i, j :: 0 <= i < j < |l| ==> l[i] != l[j]
    ensures l[i] !in l[..i] && l[i] !in params'
  {
    hide Stray, IsGroup;
  }

  // What a client that drops `id` still has to say: what hung somewhere, each cut off.
  lemma LeftToSay(cache: map<Id, Param>, params: set<Id>, dirty: set<Id>, removed: set<Id>, n: Nodes, d: Depth, id: Id)
    requires Held(cache, params, dirty, removed, n) && IsForest(n, d) && id in params
    requires ROOT in n && n[ROOT].parent.None? && n.Keys == params + {ROOT} && ROOT !in params
    ensures Hanging(n, d, id) <= Subtree(n, d, id) <= params
    ensures id in Hanging(n, d, id) <==> cache[id].parent.has
    ensures forall y :: y in Hanging(n, d, id) ==>
             y in cache && y != ROOT && cache[y].id == y && cache[y].parent.has
             && OrphanedCache(cache, Subtree(n, d, id))[y] == Orphaned(cache[y])
  {
    hide Below, IsGroup, Orphaned, Subtrees;
    HangingSplits(n, d, id);
    BelowAreParameters(params, n, d, {id});
    OneSubtree(n, d, id);
    forall y | y in Hanging(n, d, id)
      ensures n[y].parent.Some?
    {
    }
  }

  lemma SaidInOrder(cache: map<Id, Param>, cache1: map<Id, Param>, ids: set<Id>)
    requires forall y :: y in ids ==> y in cache && y in cache1 && cache1[y] == Orphaned(cache[y])
    ensures var l := Ascending(ids);
      && (forall y :: y in l ==> y in cache1) && Ids(l) == ids
      && (forall y :: y in l ==> y in cache) && Told(Messages(cache1, l), cache, l)
  {
    hide Message, Orphaned;
  }

  // update() where nothing was removed
  method Tell(client: Endpoint) returns (packets: seq<Text>)
    requires client.Valid() && client.manager.removed == {}
    modifies client`cache, client.manager
    ensures client.Valid() && client.manager.dirty == {} && client.manager.removed == {}
    ensures client.manager.params == old(client.manager.params)
    ensures forall y :: y in Ascending(old(client.manager.dirty)) ==> y in old(client.cache)
    ensures packets == Messages(old(client.cache), Ascending(old(client.manager.dirty)))
  {
    hide Ascending, Removes, Updates, ChangePackets, Messages, Covers, FlushedCache, IsForest;
    OnlyUpdates(client.manager.dirty, client.cache);
    packets := client.Update();
  }

  // A client with nothing to send hears of a removal, and says in its next update() what it has
  // dropped: all that hung under a group, the removed parameter itself included.
  method DropAndTell(client: Endpoint, id: Id) returns (packets: seq<Text>)
    requires client.Valid() && client.manager.dirty == {} && client.manager.removed == {} && id in client.manager.params
    modifies client`cache, client.manager
    ensures client.Valid() && client.manager.dirty == {} && client.manager.removed == {}
    ensures var n, d := old(client.manager.nodes), old(client.manager.depth);
      && client.manager.params == old(client.manager.params) - Subtree(n, d, id)
      && (forall y :: y in Ascending(Hanging(n, d, id)) ==> y in old(client.cache))
      && Ids(Ascending(Hanging(n, d, id))) == Hanging(n, d, id)
      && Told(packets, old(client.cache), Ascending(Hanging(n, d, id)))
  {
    hide ParsePacket, Brings, RemovePacket, Message, Orphaned, Held, IsForest, Linked, Subtree, Hanging, Below,
        Ascending, Messages, OrphanedCache, WithoutSubtree, GroupIds, Ids, Told, Applied, Added;
    ghost var n, d, cache := client.manager.nodes, client.manager.depth, client.cache;
    ghost var ids, cache1 := Hanging(n, d, id), OrphanedCache(cache, Subtree(n, d, id));
    LeftToSay(cache, client.manager.params, {}, {}, n, d, id);
    RemoveIsRead(id, GroupIds(client.manager.params, n));
    SaidInOrder(cache, cache1, ids);
    assert {} + (ids - {}) == ids;
    var reply := client.ClientReceived(RemovePacket(id));
    assert client.cache == cache1 && client.manager.dirty == ids;
    packets := Tell(client);
  }

  // Everybody else has dropped the parameter too.  The server, which knows none of what it is
  // told, passes it on, and the other client has it again, for good: the client that told and
  // the server do not.  The removed parameter itself comes back exactly when it hung under a
  // group at the client.
  method EchoOfARemoval(client: Endpoint, server: Endpoint, other: Endpoint, id: Id)
    requires client.Valid() && server.Valid() && other.Valid() && client != server && client != other && server != other
    requires client.manager != server.manager && client.manager != other.manager && server.manager != other.manager
    requires client.manager.dirty == {} && client.manager.removed == {} && id in client.manager.params
    requires forall y :: y in Subtree(client.manager.nodes, client.manager.depth, id) ==>
               y in client.cache && Sendable(client.cache[y])
               && y !in server.manager.params && y !in other.manager.params
    modifies client`cache, client.manager, server`cache, server.manager, other`cache, other.manager
    ensures client.Valid() && server.Valid() && other.Valid()
    ensures client.manager.dirty == {} && other.manager.dirty == old(other.manager.dirty)
    ensures var n, d := old(client.manager.nodes), old(client.manager.depth);
      && client.manager.params == old(client.manager.params) - Subtree(n, d, id)
      && other.manager.params == old(other.manager.params) + Hanging(n, d, id)
      && CameIn(old(other.manager.params), old(other.manager.nodes), old(other.cache), other.manager.params,
         other.manager.nodes, other.cache, old(client.cache), Ascending(Hanging(n, d, id)))
    ensures server.manager.params == old(server.manager.params) && server.cache == old(server.cache)
    ensures server.manager.nodes == old(server.manager.nodes) && server.manager.dirty == old(server.manager.dirty)
    ensures id in old(client.cache) && (id in other.manager.params <==> old(client.cache)[id].parent.has)
    ensures forall y :: y in old(other.manager.nodes) ==>
              y in other.manager.nodes && other.manager.nodes[y] == old(other.manager.nodes)[y]
    ensures forall y :: y in old(other.manager.params) ==>
              y in other.cache && y in old(other.cache) && other.cache[y] == old(other.cache)[y]
    ensures forall y :: y in Hanging(old(client.manager.nodes), old(client.manager.depth), id) ==>
              y in other.manager.nodes && other.manager.nodes[y].parent.None?
  {
    hide Message, Orphaned, Sendable, Stray, Held, IsForest, Subtree, Hanging, Below, Ascending, Ids;
    ghost var n, d, cache := client.manager.nodes, client.manager.depth, client.cache;
    LeftToSay(cache, client.manager.params, {}, {}, n, d, id);
    var packets := DropAndTell(client, id);
    Echo(server, other, packets, cache, Ascending(Hanging(n, d, id)));
  }
}
