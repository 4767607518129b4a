/** A client without parameters meets a server: what ParameterClient::connected() sets going, with
    both ends as objects and every packet delivered in order.
    src/rabbitControl/parameterclient.cpp and parameterserver.cpp. */
module Sessions {
  import opened Bytes
  import opened Streams
  import opened TypeCodec
  import opened Forest
  import opened Parameters
  import opened ParameterDelta
  import opened Packets
  import opened ParameterManager
  import opened Initialisation
  import opened Synchronisation
  import opened Endpoints
  import FullDump
  import ParameterCodec

  // initialize()
  function Request(): (r: Text) { PacketBytes(Packet(INITIALIZE, None, None), false) }

  lemma RequestIsRead(groups: set<Id>)
    ensures Commands(ParsePacket(groups, In(Request())), INITIALIZE) && Brings(groups, Request()).None?
  {
    hide ParsePacket, PacketBytes;
    PacketReadsBack(Packet(INITIALIZE, None, None), groups, false, []);
    assert Request() + [] == Request();
  }

  // The server's parameters that are in use, as Initialisation has them.
  function InUse(cache: map<Id, Param>, params: set<Id>): (r: map<Id, Param>)
    requires params <= cache.Keys
  {
    map id | id in params :: cache[id]
  }

  // Each packet of a dump brings a parameter that the client has not seen.
  lemma NextIsNew(n: Nodes, d: Depth, cache: map<Id, Param>, l: seq<Id>, k: nat)
    requires Dumpable(n, d, cache) && IsDump(n, d, n[ROOT].children, l) && k < |l| && Ids(l) <= cache.Keys
    requires forall id :: id in l ==> id in cache
    ensures var c := ReceiveAll(NEW_CLIENT, FullPackets(cache, l)[..k]);
      var x := Brings(Groups(c), FullPackets(cache, l)[k]);
      x.Some? && x.value.id == l[k] && l[k] !in c.params && l[k] != ROOT
  {
    var id := l[k];
    var c := ReceiveAll(NEW_CLIENT, FullPackets(cache, l)[..k]);
    ReplayCopies(n, d, cache, l, k);
    NextInTheDump(n, d, l, k);
    assert id in l;
    assert c.params.Keys == Ids(l[..k]) && Ready(cache[id], id, n[id])
        && FullPackets(cache, l)[k] == FullPacket(cache[id]);
    FullPacketBrings(cache[id], id, n[id], Groups(c));
  }

  lemma FullPacketBrings(p: Param, id: Id, node: Node, groups: set<Id>)
    requires Ready(p, id, node)
    ensures var x := Brings(groups, FullPacket(p)); x.Some? && x.value.id == id
  {
    hide ParsePacket, PacketBytes, ParameterCodec.Sendable, SetterOnlyFields, SetterOnlyType, OnlyValueChanged;
    FullDump.DumpArrivesIff(p, groups);
  }

  lemma InitOrderIsHeld(n: Nodes, d: Depth, cache: map<Id, Param>)
    requires Dumpable(n, d, cache)
    ensures var l := InitOrder(n, d);
      IsDump(n, d, n[ROOT].children, l) && Ids(l) <= cache.Keys && forall id :: id in l ==> id in cache
  {
    hide InitOrder, IsDump, Subtree;
    InitOrderIsADump(n, d);
    var l := InitOrder(n, d);
    forall id | id in l
      ensures id in cache
    {
      assert id in Ids(l);
    }
  }

  lemma OneMoreReceived(packets: seq<Text>, i: nat)
    requires i < |packets|
    ensures ReceiveAll(NEW_CLIENT, packets[..i + 1]) == Receive(ReceiveAll(NEW_CLIENT, packets[..i]), packets[i])
  {
    hide Receive;
    assert packets[..i + 1][..i] == packets[..i];
  }

  lemma NobodyYet(cache: map<Id, Param>, n: Nodes, d: Depth)
    requires IsForest(n, d) && n.Keys == {ROOT}
    ensures AsClient(cache, {}, n) == NEW_CLIENT
  {
  }

  // The dump is delivered, packet by packet.
  method Deliver(client: Endpoint, packets: seq<Text>, ghost n: Nodes, ghost d: Depth, ghost cache: map<Id, Param>)
    requires client.Valid() && client.manager.params == {}
    requires Dumpable(n, d, cache) && (forall id :: id in InitOrder(n, d) ==> id in cache)
    requires packets == FullPackets(cache, InitOrder(n, d))
    modifies client`cache, client.manager
    ensures client.Valid() && client.manager.dirty == old(client.manager.dirty)
    ensures AsClient(client.cache, client.manager.params, client.manager.nodes) == ReceiveAll(NEW_CLIENT, packets)
  {
    hide Brings, InitOrder, IsForest, Linked, Applied, Attach, AsClient, Groups, GroupIds, Added, FullPacket;
    ghost var l := InitOrder(n, d);
    InitOrderIsHeld(n, d, cache);
    NobodyYet(client.cache, client.manager.nodes, client.manager.depth);
    assert packets[..0] == [];
    for i := 0 to |packets|
      invariant client.Valid() && client.manager.dirty == old(client.manager.dirty)
      invariant AsClient(client.cache, client.manager.params, client.manager.nodes)
                == ReceiveAll(NEW_CLIENT, packets[..i])
    {
      NextIsNew(n, d, cache, l, i);
      OneMoreReceived(packets, i);
      ClientIsNew(client.cache, client.manager.params, client.manager.dirty, client.manager.removed,
          client.manager.nodes,
                  client.manager.depth, packets[i]);
      var reply := client.ClientReceived(packets[i]);
    }
    assert packets[..|packets|] == packets;
  }

  // What ReceivedAsClient says, before the packet is received.
  lemma ClientIsNew(cache: map<Id, Param>, params: set<Id>, dirty: set<Id>, removed: set<Id>, n: Nodes, d: Depth,
      bytes: Text)
    requires Held(cache, params, dirty, removed, n) && IsForest(n, d) && ROOT !in params
    requires var x := Brings(Groups(AsClient(cache, params, n)), bytes);
      x.Some? && x.value.id !in AsClient(cache, params, n).params && x.value.id != ROOT
    ensures var x := Brings(GroupIds(params, n), bytes);
      && x.Some? && x.value.id !in params && x.value.id != ROOT
      && AsClient(cache[x.value.id := x.value], params + {x.value.id},
         Added(n, x.value.id, IsGroup(x.value.td), ParentIn(n, x.value)))
         == Receive(AsClient(cache, params, n), bytes)
  {
    hide Brings, Receive, GroupIds, Added;
    GroupsOfAClient(cache, params, dirty, removed, n);
    var x := Brings(GroupIds(params, n), bytes);
    assert AsClient(cache, params, n).params.Keys == params;
    ReceivedAsClient(cache, params, dirty, removed, n, bytes, x.value);
  }

  // Those in use of a valid server are what InitialiseRebuildsTheTree is about.
  lemma InUseIsDumpable(cache: map<Id, Param>, params: set<Id>, n: Nodes, d: Depth)
    requires params <= cache.Keys && IsForest(n, d) && n.Keys == params + {ROOT} && ROOT !in params
             && n[ROOT].parent.None?
    requires forall id :: id in params ==> Ready(cache[id], id, n[id])
    ensures Dumpable(n, d, InUse(cache, params))
    ensures forall id :: id in InitOrder(n, d) ==> id in InUse(cache, params) && id in cache
    ensures FullPackets(cache, InitOrder(n, d)) == FullPackets(InUse(cache, params), InitOrder(n, d))
  {
    hide Ready, FullPacket, Subtree, IsForest, IsDump;
    var used := InUse(cache, params);
    assert Dumpable(n, d, used);
    InitOrderIsHeld(n, d, used);
  }

  // A client that asks a server for everything ends with a copy of all that hangs in its tree:
  // same ids, options and values, same groups and children, and nothing of its own to send.  The
  // server keeps its tree and its dirty map; its flags are those that a full write leaves.
  method Initialise(server: Endpoint, client: Endpoint)
    requires server.Valid() && client.Valid() && server != client && server.manager != client.manager
    requires client.manager.params == {}
    requires forall id :: id in server.manager.params ==> Ready(server.cache[id], id, server.manager.nodes[id])
    modifies server`cache, server.manager, client`cache, client.manager
    ensures server.Valid() && client.Valid()
    ensures server.manager.params == old(server.manager.params) && server.manager.nodes == old(server.manager.nodes)
    ensures server.manager.dirty == old(server.manager.dirty) && server.manager.removed == old(server.manager.removed)
    ensures client.manager.dirty == old(client.manager.dirty)
    ensures server.cache == FlushedCache(old(server.cache), client.manager.params, true)
    ensures var n, d := old(server.manager.nodes), old(server.manager.depth);
      && ROOT in n && client.manager.params == Subtree(n, d, ROOT) - {ROOT}
      && client.manager.params <= old(server.cache).Keys && client.manager.params <= client.cache.Keys
      && client.manager.params <= client.manager.nodes.Keys
      && forall id :: id in client.manager.params ==>
           && client.cache[id] == Copy(old(server.cache)[id])
           && client.manager.nodes[id]
              == Node(n[id].group, if n[id].parent == Some(ROOT) then None else n[id].parent, n[id].children)
  {
    hide ParsePacket, Brings, InitOrder, Subtree, IsForest, Dumpable, Ready, Receive, ReceiveAll, Copy, FullPackets,
        FlushedCache, PacketBytes;
    ghost var n, d, cache := server.manager.nodes, server.manager.depth, server.cache;
    ghost var used := InUse(cache, server.manager.params);
    InUseIsDumpable(cache, server.manager.params, n, d);
    RequestIsRead(GroupIds(server.manager.params, n));
    InitialiseRebuildsTheTree(n, d, used);
    var reply, forward := server.ServerReceived(Request());
    Deliver(client, reply, n, d, used);
    AsClientHolds(client.cache, client.manager.params, client.manager.dirty, client.manager.removed,
        client.manager.nodes);
  }

  lemma AsClientHolds(cache: map<Id, Param>, params: set<Id>, dirty: set<Id>, removed: set<Id>, n: Nodes)
    requires Held(cache, params, dirty, removed, n) && ROOT !in params
    ensures var c := AsClient(cache, params, n);
      && c.params.Keys == params && params <= c.nodes.Keys
      && forall id :: id in params ==> c.params[id] == cache[id] && c.nodes[id] == n[id]
  {
    hide Matches;
  }
}
