/**
 * The server-side reading loop of one client connection: every line read
 * from the socket is framed into a five-character packet code and a data
 * part and dispatched to the packet that handles that code.
 *
 * The socket reads are an input sequence of `ReadResult`s. The packet
 * processing itself is not part of this model; what a packet does is
 * recorded as the `Handling` appended to the thread's `handled` log, and
 * whether its construction or processing throws a NullPointerException is
 * the parameter `throws`.
 * `Packet.lookupPacket` is not part of this model either: its code table is
 * the parameter `codes`, and a code missing from it is the `null` that
 * lookup returns.
 */
module PlayerHandling {
  import opened JavaLang

  /** The result of one `readLine` on the socket. */
  datatype ReadResult =
    | Line(text: string)
    | EndOfStream   // readLine returned null
    | ReadFailure   // readLine threw an IOException

  /**
   * The packet types `lookupPacket` can return: the fourteen the switch
   * handles, and `Unhandled` for every other type of the protocol.
   */
  datatype PacketType =
    | Login | GetName | SetName | Disconnect | GetLobbies | CreateLobby | CreateLobbyStatus
    | JoinLobby | JoinLobbyStatus | GetLobbyInfo | LeaveLobby | ChatMessageToServer | Ping | Pong
    | Unhandled

  /** The packet objects the switch constructs, with the data they are given. */
  datatype Variant =
    | GetNamePacket(data: string)
    | SetNamePacket(data: string)
    | DisconnectPacket
    | GetLobbiesPacket
    | CreateLobbyPacket(data: string)
    | JoinLobbyPacket(data: string)
    | JoinLobbyStatusPacket(data: string)
    | GetLobbyInfoPacket
    | LeaveLobbyPacket
    | ChatMessageToServerPacket(data: string)
    | PingPacket(data: string)
    | PongPacket(data: string)

  /** What one framed line leads to: a login processed inline, or `p.processData()` on a packet. */
  datatype Handling = LoginInline(data: string) | Processed(packet: Variant)

  /** The shortest line that is treated as a message. */
  const MinLength: nat := 5

  /**
   * Splits a line into its code, the first five characters, and its data,
   * everything from index 6; the character at index 5 is skipped unread and
   * a line of five or six characters has empty data. None for a line that
   * is too short.
   */
  function Frame(line: string): (r: Option<(string, string)>)
    ensures r.Some? <==> |line| >= MinLength
    ensures r.Some? ==> |r.value.0| == 5 && line[..5] == r.value.0
    ensures r.Some? && |line| <= 6 ==> r.value.1 == ""
    ensures r.Some? && |line| >= 7 ==> line == r.value.0 + [line[5]] + r.value.1
  {
    if |line| < MinLength then None
    else if |line| < 7 then Some((line[..5], ""))
    else Some((line[..5], line[6..]))
  }

  /** The switch of `run`: which packet, if any, a type is handled by. */
  function Dispatch(kind: PacketType, data: string): (r: Option<Handling>)
    ensures r.None? <==> kind == Unhandled
  {
    match kind
    case Login => Some(LoginInline(data))
    case GetName => Some(Processed(GetNamePacket(data)))
    case SetName => Some(Processed(SetNamePacket(data)))
    case Disconnect => Some(Processed(DisconnectPacket))
    case GetLobbies => Some(Processed(GetLobbiesPacket))
    case CreateLobby => Some(Processed(CreateLobbyPacket(data)))
    case CreateLobbyStatus => Some(Processed(JoinLobbyPacket(data)))
    case JoinLobby => Some(Processed(JoinLobbyPacket(data)))
    case JoinLobbyStatus => Some(Processed(JoinLobbyStatusPacket(data)))
    case GetLobbyInfo => Some(Processed(GetLobbyInfoPacket))
    case LeaveLobby => Some(Processed(LeaveLobbyPacket))
    case ChatMessageToServer => Some(Processed(ChatMessageToServerPacket(data)))
    case Ping => Some(Processed(PingPacket(data)))
    case Pong => Some(Processed(PongPacket(data)))
    case Unhandled => None
  }

  /**
   * What one read does: go on, or close the socket and stop; either way
   * with the handling the read led to.
   */
  datatype Step = Continue(handling: seq<Handling>) | Close(handling: seq<Handling>)

  /**
   * One iteration of the loop. A null read and a short line are skipped; a
   * code `lookupPacket` has no type for makes the switch throw a
   * NullPointerException, which, like a failed read, closes the socket.
   * The packets' constructors and `processData` run inside the same `try`:
   * `throws(h)` says whether the handling `h` ends in a NullPointerException,
   * which closes the socket after that handling.
   */
  function StepOf(read: ReadResult, codes: map<string, PacketType>, throws: Handling -> bool): (r: Step)
    ensures |r.handling| <= 1
    ensures r.Close? && r.handling != [] ==> throws(r.handling[0])
    ensures r.Continue? && r.handling != [] ==> !throws(r.handling[0])
    ensures r.Close? && r.handling == [] <==>
      read.ReadFailure? || (read.Line? && Frame(read.text).Some? && Frame(read.text).value.0 !in codes)
  {
    match read
    case ReadFailure => Close([])
    case EndOfStream => Continue([])
    case Line(text) =>
      match Frame(text)
      case None => Continue([])
      case Some((code, data)) =>
        if code !in codes then Close([])
        else
          match Dispatch(codes[code], data)
          case None => Continue([])
          case Some(h) => if throws(h) then Close([h]) else Continue([h])
  }

  /** The outcome of the loop over a sequence of reads: what was handled, and whether the socket was closed. */
  datatype Outcome = Outcome(handled: seq<Handling>, closed: bool)

  function RunSpec(input: seq<ReadResult>, codes: map<string, PacketType>, throws: Handling -> bool): Outcome
  {
    if input == [] then Outcome([], false)
    else
      match StepOf(input[0], codes, throws)
      case Close(hs) => Outcome(hs, true)
      case Continue(hs) =>
        var rest := RunSpec(input[1..], codes, throws);
        Outcome(hs + rest.handled, rest.closed)
  }

  class ClientThread {
    const clientId: int
    var socketClosed: bool
    var handled: seq<Handling>

    constructor (id: int)
      ensures clientId == id && !socketClosed && handled == []
    {
      clientId := id;
      socketClosed := false;
      handled := [];
    }

    /**
     * The loop of `run` over the reads in `input`: each read is handled in
     * turn until the socket is closed, which ends the loop.
     */
    method Run(input: seq<ReadResult>, codes: map<string, PacketType>, throws: Handling -> bool)
      modifies this`socketClosed, this`handled
      ensures handled == old(handled) + RunSpec(input, codes, throws).handled
      ensures socketClosed == (old(socketClosed) || RunSpec(input, codes, throws).closed)
    {
      var i := 0;
      ghost var done: seq<Handling> := [];
      while i < |input|
        invariant 0 <= i <= |input|
        invariant handled == old(handled) + done
        invariant RunSpec(input, codes, throws).handled == done + RunSpec(input[i..], codes, throws).handled
        invariant RunSpec(input, codes, throws).closed == RunSpec(input[i..], codes, throws).closed
        invariant socketClosed == old(socketClosed)
      {
        var step := StepOf(input[i], codes, throws);
        RunSpecStep(input, i, codes, throws);
        ConcatAssociative(old(handled), done, step.handling);
        if step.Close? {
          handled := handled + step.handling;
          socketClosed := true;
          return;
        }
        ConcatAssociative(done, step.handling, RunSpec(input[i + 1..], codes, throws).handled);
        handled := handled + step.handling;
        done := done + step.handling;
        i := i + 1;
      }
    }
  }

  /** The loop over the reads from index `i` on starts with the step of read `i`. */
  lemma RunSpecStep(input: seq<ReadResult>, i: nat, codes: map<string, PacketType>, throws: Handling -> bool)
    requires i < |input|
    ensures StepOf(input[i], codes, throws).Close? ==>
      RunSpec(input[i..], codes, throws) == Outcome(StepOf(input[i], codes, throws).handling, true)
    ensures StepOf(input[i], codes, throws).Continue? ==>
      var rest := RunSpec(input[i + 1..], codes, throws);
      RunSpec(input[i..], codes, throws) == Outcome(StepOf(input[i], codes, throws).handling + rest.handled, rest.closed)
  {
    assert input[i..][0] == input[i] && input[i..][1..] == input[i + 1..];
  }

  // ---------------------------------------------------------------------------
  // Properties of framing and dispatch
  // ---------------------------------------------------------------------------

  /** A code of five characters and any data come back out of the line `code + c + data`, whatever `c` is. */
  lemma FrameRoundTrip(code: string, c: char, data: string)
    requires |code| == 5
    ensures Frame(code + [c] + data) == Some((code, data))
  {
    var line := code + [c] + data;
    assert line[..5] == code;
    if |line| >= 7 {
      assert line[6..] == data;
    }
  }

  /** A line of exactly five characters is a code without data. */
  lemma FrameCodeOnly(code: string)
    requires |code| == 5
    ensures Frame(code) == Some((code, ""))
  {
    assert code[..5] == code;
  }

  /** Two lines that differ only at index 5 frame the same way. */
  lemma FrameIgnoresSeparator(line: string, c: char)
    requires |line| > 5
    ensures Frame(line[5 := c]) == Frame(line)
  {
    var other := line[5 := c];
    assert other[..5] == line[..5];
    assert other[6..] == line[6..];
  }

  /** CREATE_LOBBY_STATUS is handled by the same packet as JOIN_LOBBY. */
  lemma CreateLobbyStatusJoins(data: string)
    ensures Dispatch(CreateLobbyStatus, data) == Dispatch(JoinLobby, data) == Some(Processed(JoinLobbyPacket(data)))
  {
  }

  /** Only LOGIN is handled inline; every other handled type goes through a packet object. */
  lemma OnlyLoginInline(kind: PacketType, data: string)
    requires kind != Unhandled
    ensures Dispatch(kind, data).value.LoginInline? <==> kind == Login
  {
  }

  /** Different handled types lead to different handlings, except the CREATE_LOBBY_STATUS and JOIN_LOBBY pair. */
  lemma DispatchDistinct(k1: PacketType, k2: PacketType, data: string)
    requires k1 != k2 && k1 != Unhandled && k2 != Unhandled
    requires {k1, k2} != {CreateLobbyStatus, JoinLobby}
    ensures Dispatch(k1, data) != Dispatch(k2, data)
  {
  }

  /** A line shorter than five characters is dropped and the loop goes on with the next read. */
  lemma ShortLineSkipped(text: string, rest: seq<ReadResult>, codes: map<string, PacketType>, throws: Handling -> bool)
    requires |text| < MinLength
    ensures RunSpec([Line(text)] + rest, codes, throws) == RunSpec(rest, codes, throws)
  {
    assert ([Line(text)] + rest)[1..] == rest;
  }

  /** A null read does not end the loop: it is skipped like an empty line. */
  lemma EndOfStreamSkipped(rest: seq<ReadResult>, codes: map<string, PacketType>, throws: Handling -> bool)
    ensures RunSpec([EndOfStream] + rest, codes, throws) == RunSpec(rest, codes, throws)
  {
    assert ([EndOfStream] + rest)[1..] == rest;
  }

  /**
   * Once the stream has ended, `readLine` returns null on every call: any
   * number of null reads handles nothing and never closes the socket, so the
   * loop goes on forever.
   */
  lemma {:induction false} NullReadsNeverClose(n: nat, codes: map<string, PacketType>, throws: Handling -> bool)
    ensures RunSpec(seq(n, _ => EndOfStream), codes, throws) == Outcome([], false)
  {
    if n > 0 {
      var nulls := seq(n, _ => EndOfStream);
      assert nulls[0] == EndOfStream;
      assert nulls[1..] == seq(n - 1, _ => EndOfStream);
      NullReadsNeverClose(n - 1, codes, throws);
    }
  }

  /** A failed read closes the socket and nothing after it is handled. */
  lemma ReadFailureCloses(rest: seq<ReadResult>, codes: map<string, PacketType>, throws: Handling -> bool)
    ensures RunSpec([ReadFailure] + rest, codes, throws) == Outcome([], true)
  {
  }

  /** A code the lookup has no type for closes the socket too: the switch throws on null. */
  lemma UnknownCodeCloses(text: string, rest: seq<ReadResult>, codes: map<string, PacketType>, throws: Handling -> bool)
    requires |text| >= MinLength && text[..5] !in codes
    ensures RunSpec([Line(text)] + rest, codes, throws) == Outcome([], true)
  {
  }

  /** A type the switch does not list is dropped, and the connection stays open. */
  lemma UnhandledTypeSkipped(text: string, rest: seq<ReadResult>, codes: map<string, PacketType>, throws: Handling -> bool)
    requires |text| >= MinLength && text[..5] in codes && codes[text[..5]] == Unhandled
    ensures RunSpec([Line(text)] + rest, codes, throws) == RunSpec(rest, codes, throws)
  {
    assert ([Line(text)] + rest)[1..] == rest;
  }

  /**
   * A handled line is processed. When its packet throws a
   * NullPointerException, the socket is closed after it and nothing later is
   * handled; otherwise the loop goes on with the next read.
   */
  lemma HandledLine(text: string, rest: seq<ReadResult>, codes: map<string, PacketType>, throws: Handling -> bool)
    requires |text| >= MinLength && text[..5] in codes && codes[text[..5]] != Unhandled
    ensures var h := Dispatch(codes[text[..5]], Frame(text).value.1).value;
      var after := RunSpec(rest, codes, throws);
      RunSpec([Line(text)] + rest, codes, throws)
        == if throws(h) then Outcome([h], true) else Outcome([h] + after.handled, after.closed)
  {
    assert ([Line(text)] + rest)[1..] == rest;
  }

  /** Each read leads to at most one handling, so the log never grows faster than the input. */
  lemma {:induction false} AtMostOnePerRead(input: seq<ReadResult>, codes: map<string, PacketType>, throws: Handling -> bool)
    ensures |RunSpec(input, codes, throws).handled| <= |input|
  {
    if input != [] {
      AtMostOnePerRead(input[1..], codes, throws);
    }
  }

  /**
   * The loop closes the socket exactly when one of the reads does: a read
   * that fails, a code without a packet type, or a packet that throws.
   */
  lemma {:induction false} ClosedIffSomeReadCloses(input: seq<ReadResult>, codes: map<string, PacketType>,
                                                   throws: Handling -> bool)
    ensures RunSpec(input, codes, throws).closed <==>
      exists i | 0 <= i < |input| :: StepOf(input[i], codes, throws).Close?
  {
    if input != [] {
      var tail := input[1..];
      ClosedIffSomeReadCloses(tail, codes, throws);
      if !StepOf(input[0], codes, throws).Close? {
        if exists j | 0 <= j < |tail| :: StepOf(tail[j], codes, throws).Close? {
          var j :| 0 <= j < |tail| && StepOf(tail[j], codes, throws).Close?;
          assert tail[j] == input[j + 1];
        }
        if exists i | 0 <= i < |input| :: StepOf(input[i], codes, throws).Close? {
          var i :| 0 <= i < |input| && StepOf(input[i], codes, throws).Close?;
          assert i != 0 && input[i] == tail[i - 1];
        }
      }
    }
  }
}
