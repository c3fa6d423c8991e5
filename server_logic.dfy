/**
 * The server's session bookkeeping: the player list, the lobby list and the
 * client-thread map, and the routing of outbound packets to clients, to a
 * lobby, to the players outside any lobby and to everybody.
 *
 * Sockets are not modelled. Every `ClientThread.sendToClient` is recorded as
 * a `Delivery` appended to `outbox`, every `ClientThread.closeSocket` as the
 * client id appended to `closedSockets`, and every client thread started by
 * the accept loop as its id appended to `started`.
 */
module Net {
  import opened JavaLang

  /** A registered player: its name and its current lobby (0 = none). */
  datatype Player = Player(username: string, curLobbyId: int)

  /** A lobby: its name, the id of the player who created it, its status and its members. */
  datatype Lobby = Lobby(name: string, creatorId: int, status: string, members: seq<int>)

  /** A client thread, as far as routing sees it: the client it serves. */
  datatype ClientThread = ClientThread(clientId: int)

  /** The outbound packets the server-side code in this model sends. */
  datatype Packet =
    | ChatMessageToClient(text: string)
    | CurLobbyInfo(lobbyId: int)
    | LobbyOverview(info: string)
    | StartRound
    | SpawnItem(owner: int, itemType: int)

  /** One packet written to one client's socket. */
  datatype Delivery = Delivery(to: int, packet: Packet)

  /**
   * The lobby a client is in, looked up through its player's `curLobbyId`:
   * None (null) when the player or that lobby is missing.
   */
  function LobbyOf(players: map<int, Player>, lobbies: map<int, Lobby>, clientId: int): (r: Option<int>)
    ensures r.Some? <==> clientId in players && players[clientId].curLobbyId in lobbies
    ensures r.Some? ==> r.value == players[clientId].curLobbyId
  {
    if clientId in players && players[clientId].curLobbyId in lobbies
    then Some(players[clientId].curLobbyId) else None
  }

  /** How many of the deliveries `ds` go to client `r`. */
  function Received(ds: seq<Delivery>, r: int): nat
  {
    if ds == [] then 0 else Received(ds[..|ds| - 1], r) + (if ds[|ds| - 1].to == r then 1 else 0)
  }

  /** What `sendPacketToClient` writes for each id of `ids`, in order: nothing for an id without a thread. */
  function DeliveriesTo(ids: seq<int>, threads: map<int, ClientThread>, p: Packet): seq<Delivery>
  {
    if ids == [] then []
    else
      var last := ids[|ids| - 1];
      DeliveriesTo(ids[..|ids| - 1], threads, p) + (if last in threads then [Delivery(last, p)] else [])
  }

  /** `order` lists every id of `ids` exactly once: one iteration order of a Java map's entries. */
  ghost predicate Enumerates(order: seq<int>, ids: set<int>)
  {
    && (forall i, j | 0 <= i < j < |order| :: order[i] != order[j])
    && (forall x :: x in order <==> x in ids)
  }

  /** The ids of `order` whose player is in no lobby, in order. */
  function NotInALobby(order: seq<int>, players: map<int, Player>): seq<int>
  {
    if order == [] then []
    else
      var last := order[|order| - 1];
      NotInALobby(order[..|order| - 1], players)
        + (if last in players && players[last].curLobbyId == 0 then [last] else [])
  }

  /** The ids of the registered players that are in no lobby. */
  function Unlobbied(players: map<int, Player>): set<int>
  {
    set id | id in players && players[id].curLobbyId == 0
  }

  /** The deliveries `sendPacketToLobby` makes: none for a missing or empty lobby. */
  function LobbyDeliveries(lobbies: map<int, Lobby>, lobbyId: int, threads: map<int, ClientThread>, p: Packet)
    : seq<Delivery>
  {
    if lobbyId !in lobbies || lobbies[lobbyId].members == [] then []
    else DeliveriesTo(lobbies[lobbyId].members, threads, p)
  }

  /** `ids` with every occurrence of `id` removed. */
  function Without(ids: seq<int>, id: int): (r: seq<int>)
    ensures id !in r
    ensures forall x | x in ids && x != id :: x in r
    ensures forall x | x in r :: x in ids
  {
    if ids == [] then [] else (if ids[0] == id then [] else [ids[0]]) + Without(ids[1..], id)
  }

  /** The lobby list after `removePlayer` took `clientId` out of lobby `lobbyId`, if that lobby exists. */
  function LobbiesAfterLeave(lobbies: map<int, Lobby>, lobbyId: int, clientId: int): map<int, Lobby>
  {
    if lobbyId != 0 && lobbyId in lobbies
    then lobbies[lobbyId := lobbies[lobbyId].(members := Without(lobbies[lobbyId].members, clientId))]
    else lobbies
  }

  /** The text of the chat message that tells a lobby a player disconnected. */
  function DisconnectedText(timestamp: string, username: string): string
  {
    "[SERVER-" + timestamp + "] " + username + " disconnected."
  }

  /**
   * The id the accept loop hands to connection number `k` (counting from 0):
   * the `int` counter starts at 1 and `clientId++` wraps at 2^31 - 1.
   */
  function IdOf(k: nat): (r: int)
    ensures IsInt(r)
  {
    if k == 0 then 1 else Wrap(IdOf(k - 1) + 1)
  }

  /** The ids the accept loop hands out to its first n connections, in order. */
  function AcceptedIds(n: nat): (r: seq<int>)
    ensures |r| == n
    ensures forall k | 0 <= k < n :: r[k] == IdOf(k)
  {
    seq(n, k requires 0 <= k => IdOf(k))
  }

  // ---------------------------------------------------------------------------
  // Properties of the routing functions
  // ---------------------------------------------------------------------------

  lemma DeliveriesToSnoc(ids: seq<int>, x: int, threads: map<int, ClientThread>, p: Packet)
    ensures DeliveriesTo(ids + [x], threads, p)
         == DeliveriesTo(ids, threads, p) + (if x in threads then [Delivery(x, p)] else [])
  {
    assert (ids + [x])[..|ids|] == ids;
  }

  lemma NotInALobbySnoc(order: seq<int>, x: int, players: map<int, Player>)
    ensures NotInALobby(order + [x], players)
         == NotInALobby(order, players) + (if x in players && players[x].curLobbyId == 0 then [x] else [])
  {
    assert (order + [x])[..|order|] == order;
  }

  /** Every delivery of a send to `ids` carries the packet and goes to an id of `ids` that has a thread. */
  lemma {:induction false} DeliveriesToThreads(ids: seq<int>, threads: map<int, ClientThread>, p: Packet)
    ensures forall d | d in DeliveriesTo(ids, threads, p) :: d.packet == p && d.to in threads && d.to in ids
  {
    if ids != [] {
      DeliveriesToThreads(ids[..|ids| - 1], threads, p);
    }
  }

  /** How often `r` occurs in `xs`. */
  function Count(xs: seq<int>, r: int): nat
  {
    if xs == [] then 0 else Count(xs[..|xs| - 1], r) + (if xs[|xs| - 1] == r then 1 else 0)
  }

  /** A client receives a send to `ids` once per occurrence in `ids`, and only if it has a thread. */
  lemma {:induction false} DeliveriesToCount(ids: seq<int>, threads: map<int, ClientThread>, p: Packet, r: int)
    ensures Received(DeliveriesTo(ids, threads, p), r) == if r in threads then Count(ids, r) else 0
  {
    if ids != [] {
      var front, last := ids[..|ids| - 1], ids[|ids| - 1];
      DeliveriesToCount(front, threads, p, r);
      var ds := DeliveriesTo(front, threads, p);
      if last in threads {
        assert (ds + [Delivery(last, p)])[..|ds|] == ds;
      } else {
        assert DeliveriesTo(ids, threads, p) == ds;
      }
    }
  }

  /** In a duplicate-free sequence every element occurs once and nothing else occurs. */
  lemma {:induction false} DistinctCount(s: seq<int>, r: int)
    requires forall i, j | 0 <= i < j < |s| :: s[i] != s[j]
    ensures Count(s, r) == if r in s then 1 else 0
  {
    if s != [] {
      var front, last := s[..|s| - 1], s[|s| - 1];
      DistinctCount(front, r);
      assert last !in front by {
        forall k | 0 <= k < |front| ensures front[k] != last {
          assert front[k] == s[k];
        }
      }
      assert s == front + [last];
    }
  }

  /** Filtering an enumeration by "in no lobby" keeps it duplicate-free and selects exactly the unlobbied ids. */
  lemma {:induction false} NotInALobbySelects(order: seq<int>, players: map<int, Player>)
    requires forall i, j | 0 <= i < j < |order| :: order[i] != order[j]
    ensures forall i, j | 0 <= i < j < |NotInALobby(order, players)| ::
      NotInALobby(order, players)[i] != NotInALobby(order, players)[j]
    ensures forall x :: x in NotInALobby(order, players) <==> x in order && x in Unlobbied(players)
  {
    if order != [] {
      var front, last := order[..|order| - 1], order[|order| - 1];
      NotInALobbySelects(front, players);
      assert last !in front by {
        forall k | 0 <= k < |front| ensures front[k] != last {
          assert front[k] == order[k];
        }
      }
      assert order == front + [last];
    }
  }

  /**
   * A lobby whose members are distinct: every member that has a thread is
   * sent the packet exactly once, and nobody else is sent anything.
   */
  lemma ToLobbyExactlyOnce(lobbies: map<int, Lobby>, lobbyId: int, threads: map<int, ClientThread>, p: Packet, r: int)
    requires lobbyId in lobbies
    requires forall i, j | 0 <= i < j < |lobbies[lobbyId].members| ::
      lobbies[lobbyId].members[i] != lobbies[lobbyId].members[j]
    ensures Received(LobbyDeliveries(lobbies, lobbyId, threads, p), r)
         == if r in threads && r in lobbies[lobbyId].members then 1 else 0
  {
    var ms := lobbies[lobbyId].members;
    if ms != [] {
      DeliveriesToCount(ms, threads, p, r);
      DistinctCount(ms, r);
    }
  }

  /**
   * Sending to the players outside any lobby, in any iteration order of the
   * player map: each unlobbied player with a thread is sent the packet
   * exactly once, and nobody else is sent anything.
   */
  lemma ToUnlobbiedExactlyOnce(order: seq<int>, players: map<int, Player>, threads: map<int, ClientThread>,
                               p: Packet, r: int)
    requires Enumerates(order, players.Keys)
    ensures Received(DeliveriesTo(NotInALobby(order, players), threads, p), r)
         == if r in threads && r in players && players[r].curLobbyId == 0 then 1 else 0
  {
    NotInALobbySelects(order, players);
    DeliveriesToCount(NotInALobby(order, players), threads, p, r);
    DistinctCount(NotInALobby(order, players), r);
  }

  /** A broadcast, in any iteration order of the player map, reaches every registered player with a thread exactly once. */
  lemma BroadcastExactlyOnce(order: seq<int>, players: map<int, Player>, threads: map<int, ClientThread>,
                             p: Packet, r: int)
    requires Enumerates(order, players.Keys)
    ensures Received(DeliveriesTo(order, threads, p), r)
         == if r in threads && r in players then 1 else 0
  {
    DeliveriesToCount(order, threads, p, r);
    DistinctCount(order, r);
  }

  /** Putting the thread for one more id into the map is the map for the longer id list. */
  lemma ThreadsForNext(threads: map<int, ClientThread>, ids: seq<int>, id: int)
    ensures (threads + map i | i in ids :: ClientThread(i))[id := ClientThread(id)]
         == threads + map i | i in ids + [id] :: ClientThread(i)
  {
  }

  /**
   * Connection k gets id k + 1 until the counter passes 2^31 - 1; from then
   * on it gets k + 1 - 2^32, starting at -2^31 and climbing back towards 0.
   */
  lemma {:induction false} IdOfClosedForm(k: nat)
    requires k < TwoTo32
    ensures IdOf(k) == if k < IntMax then k + 1 else k + 1 - TwoTo32
  {
    if k > 0 {
      IdOfClosedForm(k - 1);
    }
  }

  /** After 2^32 connections the ids come round again. */
  lemma {:induction false} IdOfPeriodic(k: nat)
    ensures IdOf(k + TwoTo32) == IdOf(k)
  {
    if k == 0 {
      IdOfClosedForm(TwoTo32 - 1);
    } else {
      IdOfPeriodic(k - 1);
    }
  }

  /**
   * While the counter has not wrapped (at most 2^31 - 1 connections) the
   * ids are 1, 2, 3, ... in order, strictly increasing.
   */
  lemma AcceptedIdsSequential(n: nat)
    requires n <= IntMax
    ensures forall k | 0 <= k < n :: AcceptedIds(n)[k] == k + 1
    ensures forall i, j | 0 <= i < j < n :: AcceptedIds(n)[i] < AcceptedIds(n)[j]
  {
    forall k | 0 <= k < n
      ensures AcceptedIds(n)[k] == k + 1
    {
      IdOfClosedForm(k);
    }
  }

  /** Among the first 2^32 connections no id is handed out twice. */
  lemma AcceptedIdsDistinct(n: nat)
    requires n <= TwoTo32
    ensures forall i, j | 0 <= i < j < n :: AcceptedIds(n)[i] != AcceptedIds(n)[j]
  {
    forall i, j | 0 <= i < j < n
      ensures AcceptedIds(n)[i] != AcceptedIds(n)[j]
    {
      IdOfClosedForm(i);
      IdOfClosedForm(j);
    }
  }

  /**
   * The counter does wrap: connection 2^31 - 1 gets the negative id -2^31,
   * and connection 2^32 gets id 1 again, the id of the very first one.
   */
  lemma IdsWrap()
    ensures IdOf(IntMax) == IntMin
    ensures AcceptedIds(TwoTo32 + 1)[TwoTo32] == AcceptedIds(TwoTo32 + 1)[0] == 1
  {
    IdOfClosedForm(IntMax);
    IdOfPeriodic(0);
  }

  /** Whether `removePlayer` informs anybody: the player was in a lobby that still exists. */
  predicate Informs(lobbyId: int, lobbies: map<int, Lobby>)
  {
    lobbyId != 0 && lobbyId in lobbies
  }

  /**
   * One iteration order of a Java map's key set: every key once, in an
   * order the model leaves open (it picks the next key arbitrarily).
   */
  method IterationOrder(ids: set<int>) returns (order: seq<int>)
    ensures Enumerates(order, ids)
  {
    var todo := ids;
    order := [];
    while exists id :: id in todo
      invariant forall x | x in todo :: x !in order
      invariant forall i, j | 0 <= i < j < |order| :: order[i] != order[j]
      invariant forall x :: x in order || x in todo <==> x in ids
      decreases todo
    {
      var id :| id in todo;
      order := order + [id];
      todo := todo - {id};
    }
  }

  // ---------------------------------------------------------------------------
  // The server's state and operations
  // ---------------------------------------------------------------------------

  class ServerLogic {
    var players: map<int, Player>
    var lobbies: map<int, Lobby>
    var threads: map<int, ClientThread>
    var outbox: seq<Delivery>
    var closedSockets: seq<int>
    var started: seq<int>

    /** A fresh server: no players, no lobbies, no client threads, nothing sent. */
    constructor ()
      ensures players == map[] && lobbies == map[] && threads == map[]
      ensures outbox == [] && closedSockets == [] && started == []
    {
      players := map[];
      lobbies := map[];
      threads := map[];
      outbox := [];
      closedSockets := [];
      started := [];
    }

    /**
     * The first `accepts` iterations of the accept loop: each connection gets
     * the current value of the `int` counter, its thread is put into the
     * thread map under that id (replacing any thread already there) and
     * started, and the counter is incremented with wrap-around.
     */
    method WaitForPlayers(accepts: nat)
      modifies this`threads, this`started
      ensures threads == old(threads) + map id | id in AcceptedIds(accepts) :: ClientThread(id)
      ensures started == old(started) + AcceptedIds(accepts)
    {
      var clientId := 1;
      var k := 0;
      while k < accepts
        invariant k <= accepts
        invariant clientId == IdOf(k)
        invariant threads == old(threads) + map id | id in AcceptedIds(k) :: ClientThread(id)
        invariant started == old(started) + AcceptedIds(k)
      {
        assert AcceptedIds(k + 1) == AcceptedIds(k) + [clientId];
        ThreadsForNext(old(threads), AcceptedIds(k), clientId);
        var thread := ClientThread(clientId);
        threads := threads[clientId := thread];
        started := started + [clientId];
        clientId := Wrap(clientId + 1);
        k := k + 1;
      }
    }

    /** Writes the packet to the client's thread; nothing happens when the id has no thread. */
    method SendPacketToClient(receiver: int, packet: Packet)
      modifies this`outbox
      ensures receiver in threads ==> outbox == old(outbox) + [Delivery(receiver, packet)]
      ensures receiver !in threads ==> outbox == old(outbox)
    {
      if receiver in threads {
        outbox := outbox + [Delivery(receiver, packet)];
      }
    }

    /** Sends the packet to each member of the lobby, in member order; nothing for a missing or empty lobby. */
    method SendPacketToLobby(receiverLobby: int, packet: Packet)
      modifies this`outbox
      ensures outbox == old(outbox) + LobbyDeliveries(lobbies, receiverLobby, threads, packet)
    {
      if receiverLobby !in lobbies || lobbies[receiverLobby].members == [] {
        return;
      }
      var members := lobbies[receiverLobby].members;
      var i := 0;
      while i < |members|
        invariant 0 <= i <= |members|
        invariant outbox == old(outbox) + DeliveriesTo(members[..i], threads, packet)
      {
        assert members[..i + 1][..i] == members[..i];
        SendPacketToClient(members[i], packet);
        i := i + 1;
      }
      assert members[..i] == members;
    }

    /**
     * Sends the packet to every registered player whose lobby id is 0, in
     * the player map's iteration order, which Java leaves unspecified and
     * which `order` reports.
     */
    method SendToClientsNotInALobby(packet: Packet) returns (ghost order: seq<int>)
      modifies this`outbox
      ensures Enumerates(order, players.Keys)
      ensures outbox == old(outbox) + DeliveriesTo(NotInALobby(order, players), threads, packet)
    {
      var keys := IterationOrder(players.Keys);
      var i := 0;
      while i < |keys|
        invariant 0 <= i <= |keys|
        invariant outbox == old(outbox) + DeliveriesTo(NotInALobby(keys[..i], players), threads, packet)
      {
        assert keys[..i + 1] == keys[..i] + [keys[i]];
        SendIfNotInALobby(keys[i], packet, keys[..i], old(outbox));
        i := i + 1;
      }
      assert keys[..i] == keys;
      order := keys;
    }

    /** One pass of the loop above: player `id` gets the packet when its lobby id is 0. */
    method SendIfNotInALobby(id: int, packet: Packet, ghost done: seq<int>, ghost before: seq<Delivery>)
      requires id in players
      requires outbox == before + DeliveriesTo(NotInALobby(done, players), threads, packet)
      modifies this`outbox
      ensures outbox == before + DeliveriesTo(NotInALobby(done + [id], players), threads, packet)
    {
      ghost var sent := NotInALobby(done, players);
      ghost var ds := DeliveriesTo(sent, threads, packet);
      ghost var now := if id in threads then [Delivery(id, packet)] else [];
      if players[id].curLobbyId == 0 {
        assert DeliveriesTo(NotInALobby(done + [id], players), threads, packet) == ds + now by {
          NotInALobbySnoc(done, id, players);
          DeliveriesToSnoc(sent, id, threads, packet);
        }
        SendPacketToClient(id, packet);
        ConcatAssociative(before, ds, now);
      } else {
        assert NotInALobby(done + [id], players) == sent by {
          NotInALobbySnoc(done, id, players);
        }
      }
    }

    /** Sends the packet to every registered player, in the player map's iteration order. */
    method SendBroadcastPacket(packet: Packet) returns (ghost order: seq<int>)
      modifies this`outbox
      ensures Enumerates(order, players.Keys)
      ensures outbox == old(outbox) + DeliveriesTo(order, threads, packet)
    {
      var keys := IterationOrder(players.Keys);
      var i := 0;
      while i < |keys|
        invariant 0 <= i <= |keys|
        invariant outbox == old(outbox) + DeliveriesTo(keys[..i], threads, packet)
      {
        var id := keys[i];
        assert keys[..i + 1] == keys[..i] + [id];
        DeliveriesToSnoc(keys[..i], id, threads, packet);
        SendPacketToClient(id, packet);
        i := i + 1;
      }
      assert keys[..i] == keys;
      order := keys;
    }

    /** The lobby of a registered player; None when the player does not exist or is not in a lobby. */
    function GetLobbyForClient(clientId: int): (r: Option<int>)
      reads this
      ensures r.Some? ==> clientId in players && r.value == players[clientId].curLobbyId && r.value in lobbies
      ensures r.None? ==> clientId !in players || players[clientId].curLobbyId !in lobbies
    {
      LobbyOf(players, lobbies, clientId)
    }

    /**
     * Removes a client from the server. An id that is not in the player list
     * changes nothing. Otherwise the client's socket is closed, it leaves its
     * lobby, its player and thread entries go, and, when its lobby exists,
     * the lobby is told (a chat line, then the new lobby info) and the
     * players outside any lobby get a fresh lobby overview, in the
     * iteration order `order` of the player map.
     */
    method RemovePlayer(clientId: int, timestamp: string, topTen: string) returns (ghost order: seq<int>)
      modifies this`players, this`threads, this`lobbies, this`outbox, this`closedSockets
      ensures started == old(started)
      ensures clientId !in old(players) ==>
        players == old(players) && threads == old(threads) && lobbies == old(lobbies)
        && outbox == old(outbox) && closedSockets == old(closedSockets)
      ensures clientId in old(players) ==>
        && players == old(players) - {clientId}
        && threads == old(threads) - {clientId}
        && lobbies == LobbiesAfterLeave(old(lobbies), old(players)[clientId].curLobbyId, clientId)
        && closedSockets == old(closedSockets) + (if clientId in old(threads) then [clientId] else [])
      ensures clientId in old(players) && !Informs(old(players)[clientId].curLobbyId, old(lobbies)) ==>
        outbox == old(outbox)
      ensures clientId in old(players) && Informs(old(players)[clientId].curLobbyId, old(lobbies)) ==>
        var lobbyId := old(players)[clientId].curLobbyId;
        var chat := ChatMessageToClient(DisconnectedText(timestamp, old(players)[clientId].username));
        && Enumerates(order, players.Keys)
        && outbox == old(outbox)
                     + LobbyDeliveries(lobbies, lobbyId, threads, chat)
                     + LobbyDeliveries(lobbies, lobbyId, threads, CurLobbyInfo(lobbyId))
                     + DeliveriesTo(NotInALobby(order, players), threads, LobbyOverview("OK║" + topTen))
      ensures forall d | d in outbox[|old(outbox)|..] :: d.to != clientId && d.to in old(threads)
    {
      order := [];
      if clientId !in players {
        return;
      }
      var player := players[clientId];
      var lobbyFound := Unregister(clientId);
      if lobbyFound {
        order := InformLobbyOfLeave(player.curLobbyId, player.username, timestamp, topTen);
        // The second closeSocket of the source looks the thread up again; its
        // entry was removed by now, so that lookup finds nothing.
      }
    }

    /**
     * The bookkeeping half of `removePlayer` for a registered player: its
     * socket is closed, it leaves its lobby when that lobby exists, and it is
     * dropped from both maps. The answer says whether it left a lobby, which
     * is when the lobby is informed.
     */
    method Unregister(clientId: int) returns (leftLobby: bool)
      requires clientId in players
      modifies this`players, this`threads, this`lobbies, this`closedSockets
      ensures leftLobby == Informs(old(players)[clientId].curLobbyId, old(lobbies))
      ensures players == old(players) - {clientId}
      ensures threads == old(threads) - {clientId}
      ensures lobbies == LobbiesAfterLeave(old(lobbies), old(players)[clientId].curLobbyId, clientId)
      ensures closedSockets == old(closedSockets) + (if clientId in old(threads) then [clientId] else [])
    {
      var player := players[clientId];
      if clientId in threads {
        closedSockets := closedSockets + [clientId];
      }
      var lobbyId := player.curLobbyId;
      if lobbyId == 0 {
        threads := threads - {clientId};
        players := players - {clientId};
        return false;
      }
      leftLobby := lobbyId in lobbies;
      if leftLobby {
        var lobby := lobbies[lobbyId];
        lobbies := lobbies[lobbyId := lobby.(members := Without(lobby.members, clientId))];
        players := players[clientId := player.(curLobbyId := 0)];
      }
      threads := threads - {clientId};
      players := players - {clientId};
    }

    /**
     * The messages that follow a departure from lobby `lobbyId`: a chat line
     * and the new lobby info to the lobby, then a lobby overview to every
     * player outside any lobby. All of them go to clients that have a thread.
     */
    method InformLobbyOfLeave(lobbyId: int, username: string, timestamp: string, topTen: string)
      returns (ghost order: seq<int>)
      modifies this`outbox
      ensures Enumerates(order, players.Keys)
      ensures outbox == old(outbox)
                        + LobbyDeliveries(lobbies, lobbyId, threads, ChatMessageToClient(DisconnectedText(timestamp, username)))
                        + LobbyDeliveries(lobbies, lobbyId, threads, CurLobbyInfo(lobbyId))
                        + DeliveriesTo(NotInALobby(order, players), threads, LobbyOverview("OK║" + topTen))
      ensures forall d | d in outbox[|old(outbox)|..] :: d.to in threads
    {
      var chat := ChatMessageToClient(DisconnectedText(timestamp, username));
      SendPacketToLobby(lobbyId, chat);
      var info := CurLobbyInfo(lobbyId);
      SendPacketToLobby(lobbyId, info);
      var overview := LobbyOverview("OK║" + topTen);
      order := SendToClientsNotInALobby(overview);
      ghost var d1 := LobbyDeliveries(lobbies, lobbyId, threads, chat);
      ghost var d2 := LobbyDeliveries(lobbies, lobbyId, threads, info);
      ghost var d3 := DeliveriesTo(NotInALobby(order, players), threads, overview);
      if lobbyId in lobbies {
        NoDeliveryToDeparted(lobbies[lobbyId].members, threads, chat);
        NoDeliveryToDeparted(lobbies[lobbyId].members, threads, info);
      }
      NoDeliveryToDeparted(NotInALobby(order, players), threads, overview);
      assert outbox[|old(outbox)|..] == d1 + d2 + d3;
    }

    static lemma NoDeliveryToDeparted(ids: seq<int>, threads: map<int, ClientThread>, p: Packet)
      ensures forall d | d in DeliveriesTo(ids, threads, p) :: d.to in threads
    {
      DeliveriesToThreads(ids, threads, p);
    }
  }

  /**
   * removePlayer is idempotent: a second call for the same id changes
   * nothing, sends nothing and closes no socket. The out-parameters are the
   * state the first call left, and the caller learns that the two calls
   * together have the net effect of one on the maps and the closed sockets;
   * the body is the proof that the second call adds nothing.
   */
  method RemovePlayerTwice(server: ServerLogic, clientId: int, timestamp: string, topTen: string)
    returns (ghost players: map<int, Player>, ghost threads: map<int, ClientThread>,
             ghost lobbies: map<int, Lobby>, ghost outbox: seq<Delivery>, ghost closed: seq<int>)
    modifies server
    ensures clientId !in server.players
    ensures server.players == old(server.players) - {clientId}
    ensures server.threads == if clientId in old(server.players) then old(server.threads) - {clientId}
                              else old(server.threads)
    ensures server.lobbies == if clientId in old(server.players)
                              then LobbiesAfterLeave(old(server.lobbies), old(server.players)[clientId].curLobbyId, clientId)
                              else old(server.lobbies)
    ensures server.closedSockets == old(server.closedSockets)
              + (if clientId in old(server.players) && clientId in old(server.threads) then [clientId] else [])
    ensures server.players == players && server.threads == threads && server.lobbies == lobbies
    ensures server.outbox == outbox && server.closedSockets == closed
  {
    var _ := server.RemovePlayer(clientId, timestamp, topTen);
    players, threads, lobbies, outbox, closed :=
      server.players, server.threads, server.lobbies, server.outbox, server.closedSockets;
    var _ := server.RemovePlayer(clientId, timestamp, topTen);
  }
}
