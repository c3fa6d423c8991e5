/**
 * The SPAWN_ITEM packet: a client tells the server it placed an item, the
 * server stamps the sender as owner, checks the payload and forwards it to
 * the sender's lobby; a client receiving it spawns the item unless it owns
 * it.
 *
 * The payload is `owner║type║x║y║z`. Positions are floating point and are
 * not modelled: whether `Float.parseFloat` accepts a field is the
 * parameter `isFloat`, and a parsed position is kept as its three field
 * texts. The packet's error list (`addError`, `hasErrors` of the packet
 * base class) is the sequence `errors`.
 */
module ItemPackets {
  import opened JavaLang
  import Net

  const FieldSeparator: char := '║'

  const InvalidData := "Invalid item data."
  const InvalidOwner := "Invalid item owner."
  const InvalidPosition := "Invalid item position data."
  const InvalidTypeVariable := "Invalid item type variable."
  const InvalidType := "Invalid item type."
  const InvalidItemId := "Invalid item id."
  const NoLobbyError := "Client is not in a lobby."

  /** An `int` field after an `Integer.parseInt` that may fail: the parsed value, or the field's earlier value. */
  function ParsedOr(field: string, previous: int): int
  {
    match ParseInt(field)
    case Some(v) => v
    case None => previous
  }

  /** Whether all three position fields are floats. */
  predicate PositionParses(fields: seq<string>, isFloat: string -> bool)
    requires |fields| == 5
  {
    isFloat(fields[2]) && isFloat(fields[3]) && isFloat(fields[4])
  }

  /**
   * The errors `validate` adds for the fields `fields`, when the type field
   * held `priorType` before: one for a wrong field count and nothing else,
   * otherwise one per failed parse, and one more when the type ends up
   * below 1.
   */
  function ValidationErrors(fields: seq<string>, isFloat: string -> bool, priorType: int): seq<string>
  {
    if |fields| != 5 then [InvalidData]
    else
      (if ParseInt(fields[0]).None? then [InvalidOwner] else [])
      + (if !PositionParses(fields, isFloat) then [InvalidPosition] else [])
      + (if ParseInt(fields[1]).None? then [InvalidTypeVariable] else [])
      + (if ParsedOr(fields[1], priorType) < 1 then [InvalidType] else [])
  }

  /**
   * The server constructor's `dataArray[0] = "" + clientId`, guarded: an
   * empty split result is left as it is, so that `validate` reports it
   * as malformed instead of the constructor throwing.
   */
  function Stamp(parts: seq<string>, clientId: int): (r: seq<string>)
    ensures |r| == |parts|
    ensures |parts| > 0 ==> r[0] == IntToString(clientId) && r[1..] == parts[1..]
    ensures |parts| == 0 ==> r == parts
  {
    if |parts| == 0 then parts else parts[0 := IntToString(clientId)]
  }

  /**
   * The same assignment as the source writes it: it throws on an empty
   * array, and wherever it does not throw it agrees with the guarded stamp.
   */
  function StampAsWritten(parts: seq<string>, clientId: int): (r: Result<seq<string>>)
    ensures r.Threw? <==> |parts| == 0
    ensures r.Ok? ==> r.value == Stamp(parts, clientId)
  {
    if |parts| == 0 then Threw(IndexOutOfBounds) else Ok(parts[0 := IntToString(clientId)])
  }

  /** What `processData` did. */
  datatype SpawnOutcome =
    | Forwarded(lobbyId: int)    // server side: sent on to the sender's lobby
    | Rejected                   // errors were found: nothing is sent or spawned
    | AlreadyOwned               // client side: the local player placed this item
    | Spawned(owner: int, itemType: int)  // client side: an item owned by someone else is created

  class SpawnItemPacket {
    /** The sender on the server side; 0 for the packet a client receives. */
    var clientId: int
    var owner: int
    var itemType: int
    /** The texts the position was parsed from; empty while the position is the origin. */
    var position: seq<string>
    var dataArray: array<string>
    var errors: seq<string>

    /**
     * The server side: the packet as it arrives from client `sender`. The
     * payload is split, its first field is replaced by the sender's id,
     * and the fields are validated.
     */
    constructor FromSender(sender: int, data: string, isFloat: string -> bool)
      requires IsInt(sender)
      ensures clientId == sender
      ensures dataArray[..] == Stamp(Split(data, Literal(FieldSeparator)), sender)
      ensures errors == ValidationErrors(dataArray[..], isFloat, 0)
      ensures |dataArray[..]| == 5 ==> owner == sender
      ensures |dataArray[..]| == 5 ==> itemType == ParsedOr(dataArray[1], 0)
      ensures fresh(dataArray)
    {
      clientId := sender;
      owner := 0;
      itemType := 0;
      position := [];
      errors := [];
      var fields := SplitFields(data);
      dataArray := fields;
      new;
      StampSender(dataArray, sender);
      ghost var stamped := dataArray[..];
      Validate(isFloat);
      assert errors == [] + ValidationErrors(stamped, isFloat, 0) == ValidationErrors(stamped, isFloat, 0);
      if |stamped| == 5 {
        assert ParsedOr(stamped[0], 0) == sender by {
          ParseIntToString(sender);
        }
      }
    }

    /** `data.split("║")`, as a new array. */
    static method SplitFields(data: string) returns (fields: array<string>)
      ensures fresh(fields) && fields[..] == Split(data, Literal(FieldSeparator))
    {
      var parts := Split(data, Literal(FieldSeparator));
      fields := new string[|parts|](i requires 0 <= i < |parts| => parts[i]);
    }

    /** `dataArray[0] = "" + clientId`, skipped for an empty array (see `StampAsWritten`). */
    static method StampSender(fields: array<string>, sender: int)
      modifies fields
      ensures fields[..] == Stamp(old(fields[..]), sender)
    {
      if fields.Length > 0 {
        fields[0] := IntToString(sender);
      }
    }

    /** The client side: the packet as the server forwarded it; the payload is validated as it is. */
    constructor FromServer(data: string, isFloat: string -> bool)
      ensures clientId == 0
      ensures dataArray[..] == Split(data, Literal(FieldSeparator))
      ensures errors == ValidationErrors(dataArray[..], isFloat, 0)
      ensures |dataArray[..]| == 5 ==> owner == ParsedOr(dataArray[0], 0)
      ensures |dataArray[..]| == 5 ==> itemType == ParsedOr(dataArray[1], 0)
      ensures fresh(dataArray)
    {
      clientId := 0;
      owner := 0;
      itemType := 0;
      position := [];
      errors := [];
      var fields := SplitFields(data);
      dataArray := fields;
      new;
      Validate(isFloat);
    }

    /**
     * Checks the field count, then parses owner, position and type, each
     * failure adding its own error, and finally rejects a type below 1.
     */
    method Validate(isFloat: string -> bool)
      modifies this`owner, this`itemType, this`position, this`errors
      ensures errors == old(errors) + ValidationErrors(dataArray[..], isFloat, old(itemType))
      ensures dataArray.Length != 5 ==>
        owner == old(owner) && itemType == old(itemType) && position == old(position)
      ensures dataArray.Length == 5 ==>
        && owner == ParsedOr(dataArray[0], old(owner))
        && itemType == ParsedOr(dataArray[1], old(itemType))
        && position == (if PositionParses(dataArray[..], isFloat) then dataArray[2..5] else old(position))
    {
      if dataArray.Length != 5 {
        errors := errors + [InvalidData];
        return;
      }
      var fields := dataArray[..];
      var ownerError, positionError, typeError: seq<string> := [], [], [];
      var ownerParse := ParseInt(fields[0]);
      if ownerParse.Some? {
        owner := ownerParse.value;
      } else {
        ownerError := [InvalidOwner];
      }
      if isFloat(fields[2]) && isFloat(fields[3]) && isFloat(fields[4]) {
        position := fields[2..5];
      } else {
        positionError := [InvalidPosition];
      }
      var typeParse := ParseInt(fields[1]);
      if typeParse.Some? {
        itemType := typeParse.value;
      } else {
        typeError := [InvalidTypeVariable];
      }
      var rangeError := if itemType < 1 then [InvalidType] else [];
      errors := errors + (ownerError + positionError + typeError + rangeError);
    }

    /**
     * The server forwards a packet without errors to the sender's lobby; the
     * client spawns an error-free item unless the local player
     * `activePlayerId` owns it. An item type outside `knownItemIds` and, on
     * the server, a sender without a lobby are errors.
     */
    method ProcessData(server: Net.ServerLogic, knownItemIds: set<int>, activePlayerId: int)
      returns (outcome: SpawnOutcome)
      modifies this`errors, server`outbox
      ensures var lobby := server.GetLobbyForClient(clientId);
        errors == old(errors)
                  + (if itemType !in knownItemIds then [InvalidItemId] else [])
                  + (if clientId > 0 && lobby.None? then [NoLobbyError] else [])
      ensures clientId > 0 && errors == [] ==>
        var lobbyId := server.GetLobbyForClient(clientId).value;
        outcome == Forwarded(lobbyId)
        && server.outbox == old(server.outbox)
           + Net.LobbyDeliveries(server.lobbies, lobbyId, server.threads, Net.SpawnItem(clientId, itemType))
      ensures clientId > 0 && errors != [] ==> outcome == Rejected && server.outbox == old(server.outbox)
      ensures clientId <= 0 ==> server.outbox == old(server.outbox)
      ensures clientId <= 0 && errors != [] ==> outcome == Rejected
      ensures clientId <= 0 && errors == [] ==>
        outcome == (if owner == activePlayerId then AlreadyOwned else Spawned(owner, itemType))
    {
      if itemType !in knownItemIds {
        errors := errors + [InvalidItemId];
      }
      if clientId > 0 {
        var lobby := server.GetLobbyForClient(clientId);
        if lobby.None? {
          errors := errors + [NoLobbyError];
        }
        if errors == [] {
          server.SendPacketToLobby(lobby.value, Net.SpawnItem(clientId, itemType));
          outcome := Forwarded(lobby.value);
        } else {
          outcome := Rejected;
        }
      } else {
        if errors == [] {
          if owner == activePlayerId {
            return AlreadyOwned;
          }
          outcome := Spawned(owner, itemType);
        } else {
          outcome := Rejected;
        }
      }
    }
  }

  // ---------------------------------------------------------------------------
  // Properties of validation
  // ---------------------------------------------------------------------------

  /** A payload without exactly five fields gets the one error "Invalid item data." and no other. */
  lemma WrongArityOneError(fields: seq<string>, isFloat: string -> bool, priorType: int)
    requires |fields| != 5
    ensures ValidationErrors(fields, isFloat, priorType) == [InvalidData]
  {
  }

  /** With five fields, owner, position and type each add their own error exactly when their own parse fails. */
  lemma ErrorsIndependent(fields: seq<string>, isFloat: string -> bool, priorType: int)
    requires |fields| == 5
    ensures InvalidOwner in ValidationErrors(fields, isFloat, priorType) <==> ParseInt(fields[0]).None?
    ensures InvalidPosition in ValidationErrors(fields, isFloat, priorType) <==> !PositionParses(fields, isFloat)
    ensures InvalidTypeVariable in ValidationErrors(fields, isFloat, priorType) <==> ParseInt(fields[1]).None?
    ensures InvalidData !in ValidationErrors(fields, isFloat, priorType)
  {
    var errs := ValidationErrors(fields, isFloat, priorType);
    var a := if ParseInt(fields[0]).None? then [InvalidOwner] else [];
    var b := if !PositionParses(fields, isFloat) then [InvalidPosition] else [];
    var c := if ParseInt(fields[1]).None? then [InvalidTypeVariable] else [];
    var d := if ParsedOr(fields[1], priorType) < 1 then [InvalidType] else [];
    assert errs == a + b + c + d;
    assert InvalidOwner != InvalidPosition && InvalidOwner != InvalidTypeVariable && InvalidOwner != InvalidType;
    assert InvalidPosition != InvalidTypeVariable && InvalidPosition != InvalidType;
    assert InvalidTypeVariable != InvalidType;
    assert InvalidData != InvalidOwner && InvalidData != InvalidPosition;
    assert InvalidData != InvalidTypeVariable && InvalidData != InvalidType;
  }

  /**
   * A type that is not a number leaves the type at 0, so the packet gets
   * two errors for it, the parse error and then the range error.
   */
  lemma NonNumericTypeTwoErrors(fields: seq<string>, isFloat: string -> bool)
    requires |fields| == 5 && ParseInt(fields[1]).None?
    ensures var errs := ValidationErrors(fields, isFloat, 0);
      |errs| >= 2 && errs[|errs| - 2..] == [InvalidTypeVariable, InvalidType]
  {
  }

  /** A parsed type below 1 is an error. */
  lemma TypeBelowOneRejected(fields: seq<string>, isFloat: string -> bool, priorType: int)
    requires |fields| == 5 && ParseInt(fields[1]).Some? && ParseInt(fields[1]).value < 1
    ensures ValidationErrors(fields, isFloat, priorType) != []
    ensures ValidationErrors(fields, isFloat, priorType)[|ValidationErrors(fields, isFloat, priorType)| - 1] == InvalidType
  {
  }

  /** A payload passes validation exactly when it has five fields, every parse succeeds and the type is at least 1. */
  lemma ValidExactly(fields: seq<string>, isFloat: string -> bool, priorType: int)
    ensures ValidationErrors(fields, isFloat, priorType) == [] <==>
      |fields| == 5 && ParseInt(fields[0]).Some? && PositionParses(fields, isFloat)
      && ParseInt(fields[1]).Some? && ParseInt(fields[1]).value >= 1
  {
  }

  /**
   * On the server the owner field always parses and is the sender: a
   * five-field payload can fail on position or type, never on the owner,
   * whatever owner the client wrote.
   */
  lemma StampedOwnerIsSender(parts: seq<string>, sender: int, isFloat: string -> bool, priorType: int)
    requires IsInt(sender) && |parts| == 5
    ensures ParseInt(Stamp(parts, sender)[0]) == Some(sender)
    ensures InvalidOwner !in ValidationErrors(Stamp(parts, sender), isFloat, priorType)
  {
    ParseIntToString(sender);
    ErrorsIndependent(Stamp(parts, sender), isFloat, priorType);
  }

  /** The payload made of one field separator splits into no fields at all. */
  lemma SeparatorOnlySplitsToNothing()
    ensures Split([FieldSeparator], Literal(FieldSeparator)) == []
  {
    var s := [FieldSeparator];
    assert Matches(Literal(FieldSeparator), s[0]);
    assert s[1..] == [];
    assert Pieces(s, Literal(FieldSeparator)) == ["", ""];
  }

  /** As written, the server constructor throws on that payload instead of recording "Invalid item data.". */
  lemma StampAsWrittenThrows(sender: int)
    ensures StampAsWritten(Split([FieldSeparator], Literal(FieldSeparator)), sender) == Threw(IndexOutOfBounds)
  {
    SeparatorOnlySplitsToNothing();
  }

  /**
   * With the guarded stamp, every payload the sender can send is handled by
   * validation: a payload that does not split into five fields gets the one
   * error "Invalid item data.", the empty split included.
   */
  lemma SenderPayloadChecked(data: string, sender: int, isFloat: string -> bool)
    requires |Split(data, Literal(FieldSeparator))| != 5
    ensures ValidationErrors(Stamp(Split(data, Literal(FieldSeparator)), sender), isFloat, 0) == [InvalidData]
  {
  }
}
