/**
 * The READY packet a client sends when it wants its lobby's round to start.
 * The packet carries no data. Only the creator of a lobby can start it: the
 * lobby's status becomes "running" and a start-round packet goes to the
 * lobby. A READY from anybody else has no effect.
 *
 * `isLoggedIn` and `isInALobby` of the packet base class are not part of
 * this model; their answers are parameters. The `History` bookkeeping of
 * open and running lobbies is not part of this model either.
 */
module GameStatusPackets {
  import opened JavaLang
  import Net

  const Running := "running"

  /** What `processData` did. */
  datatype ReadyOutcome =
    | Ignored                          // the sender is not logged in or not in a lobby
    | Started(lobbyId: int)            // the creator started the lobby's round
    | NotCreator                       // somebody else: nothing happens
    | Failed(exception: JavaException) // the player or its lobby is missing

  /**
   * The lobby list after a READY from `clientId`: its own lobby is running
   * if it created it. The sender's lobby is `Net.LobbyOf`; where that finds
   * none, the source's dereference throws a NullPointerException and
   * nothing changes.
   */
  function LobbiesAfterReady(players: map<int, Net.Player>, lobbies: map<int, Net.Lobby>, clientId: int,
                             loggedIn: bool, inALobby: bool): (r: map<int, Net.Lobby>)
    ensures r.Keys == lobbies.Keys
  {
    if !(loggedIn && inALobby) then lobbies
    else
      match Net.LobbyOf(players, lobbies, clientId)
      case None => lobbies
      case Some(id) =>
        if lobbies[id].creatorId == clientId then lobbies[id := lobbies[id].(status := Running)] else lobbies
  }

  class ReadyPacket {
    const clientId: int
    var errors: seq<string>

    /** The packet the server builds for a READY from client `id`; validation finds nothing to check. */
    constructor (id: int)
      ensures clientId == id && errors == []
    {
      clientId := id;
      errors := [];
      new;
      Validate();
    }

    /** There is no data, so validation never records an error. */
    method Validate()
      modifies this`errors
      ensures errors == old(errors)
    {
    }

    /**
     * Starts the round of the sender's lobby when the sender created it.
     * The lobby is found through the sender's `curLobbyId`; a missing
     * player or lobby throws a NullPointerException before anything changes.
     */
    method ProcessData(server: Net.ServerLogic, loggedIn: bool, inALobby: bool) returns (outcome: ReadyOutcome)
      modifies server`lobbies, server`outbox
      ensures server.lobbies == LobbiesAfterReady(old(server.players), old(server.lobbies), clientId, loggedIn, inALobby)
      ensures !(loggedIn && inALobby) ==> outcome == Ignored && server.outbox == old(server.outbox)
      ensures loggedIn && inALobby && Net.LobbyOf(server.players, old(server.lobbies), clientId).None? ==>
        outcome == Failed(NullPointer) && server.outbox == old(server.outbox)
      ensures loggedIn && inALobby && Net.LobbyOf(server.players, old(server.lobbies), clientId).Some? ==>
        var id := Net.LobbyOf(server.players, old(server.lobbies), clientId).value;
        if old(server.lobbies)[id].creatorId == clientId
        then outcome == Started(id)
             && server.outbox == old(server.outbox) + Net.LobbyDeliveries(server.lobbies, id, server.threads, Net.StartRound)
        else outcome == NotCreator && server.outbox == old(server.outbox)
    {
      if !(loggedIn && inALobby) {
        return Ignored;
      }
      if clientId !in server.players {
        return Failed(NullPointer);
      }
      var lobbyId := server.players[clientId].curLobbyId;
      if lobbyId !in server.lobbies {
        return Failed(NullPointer);
      }
      var lobby := server.lobbies[lobbyId];
      if clientId == lobby.creatorId {
        server.lobbies := server.lobbies[lobbyId := lobby.(status := Running)];
        server.SendPacketToLobby(lobbyId, Net.StartRound);
        outcome := Started(lobbyId);
      } else {
        outcome := NotCreator;
      }
    }
  }

  /** Only the sender's own lobby can change, and only its status; every other lobby is left as it was. */
  lemma ReadyTouchesOnlyOwnLobby(players: map<int, Net.Player>, lobbies: map<int, Net.Lobby>, clientId: int,
                                 loggedIn: bool, inALobby: bool, other: int)
    requires other in lobbies
    requires !(clientId in players && players[clientId].curLobbyId == other)
    ensures LobbiesAfterReady(players, lobbies, clientId, loggedIn, inALobby)[other] == lobbies[other]
  {
  }

  /** The status becomes "running" exactly when a logged-in creator sends READY from its own lobby. */
  lemma ReadyStartsExactly(players: map<int, Net.Player>, lobbies: map<int, Net.Lobby>, clientId: int,
                           loggedIn: bool, inALobby: bool)
    requires clientId in players && players[clientId].curLobbyId in lobbies
    requires lobbies[players[clientId].curLobbyId].status != Running
    ensures var id := players[clientId].curLobbyId;
      LobbiesAfterReady(players, lobbies, clientId, loggedIn, inALobby)[id].status == Running
      <==> loggedIn && inALobby && lobbies[id].creatorId == clientId
  {
  }

  /** A second READY from the creator changes nothing more: the status stays "running". */
  lemma ReadyIdempotent(players: map<int, Net.Player>, lobbies: map<int, Net.Lobby>, clientId: int,
                        loggedIn: bool, inALobby: bool)
    ensures var once := LobbiesAfterReady(players, lobbies, clientId, loggedIn, inALobby);
      LobbiesAfterReady(players, once, clientId, loggedIn, inALobby) == once
  {
    var once := LobbiesAfterReady(players, lobbies, clientId, loggedIn, inALobby);
    if loggedIn && inALobby && Net.LobbyOf(players, lobbies, clientId).Some? {
      var id := Net.LobbyOf(players, lobbies, clientId).value;
      assert Net.LobbyOf(players, once, clientId) == Some(id);
      if lobbies[id].creatorId == clientId {
        assert once[id].creatorId == clientId;
        assert once[id := once[id].(status := Running)] == once;
      }
    }
  }

  /** Two READY packets from the creator in a row: the lobby is running after both. */
  method ReadyTwice(server: Net.ServerLogic, clientId: int)
    requires clientId in server.players && server.players[clientId].curLobbyId in server.lobbies
    requires server.lobbies[server.players[clientId].curLobbyId].creatorId == clientId
    modifies server`lobbies, server`outbox
    ensures var id := server.players[clientId].curLobbyId;
      id in server.lobbies && server.lobbies[id].status == Running
  {
    var id := server.players[clientId].curLobbyId;
    var first := new ReadyPacket(clientId);
    var r1 := first.ProcessData(server, true, true);
    assert r1 == Started(id) && id in server.lobbies && server.lobbies[id].creatorId == clientId;
    var second := new ReadyPacket(clientId);
    var r2 := second.ProcessData(server, true, true);
    assert r2 == Started(id);
  }
}
