/**
 * The console client used without the game window: it takes the server
 * address from the command line, asks for a user name and then turns
 * console lines into packets for the server.
 *
 * The console, the socket and the packets' own sending are not modelled:
 * a console line is classified into the `Command` it stands for.
 */
module NetworkOnlyClient {
  import opened JavaLang

  const DefaultIp := "127.0.0.1"
  const DefaultPort: int := 11337
  const MaxPort: int := 65535

  // ---------------------------------------------------------------------------
  // Server address from the command line
  // ---------------------------------------------------------------------------

  /** Four parts, each an int from 0 to 255: the IPv4 check applied to the parts of the address. */
  predicate ValidQuad(parts: seq<string>)
  {
    |parts| == 4 && forall k | 0 <= k < 4 :: ParseInt(parts[k]).Some? && 0 <= ParseInt(parts[k]).value <= 255
  }

  /** The address check as written: the parts come from `split(".")`, a regular expression matching any character. */
  predicate IpAcceptedAsWritten(ip: string)
  {
    ValidQuad(Split(ip, AnyCharRegex))
  }

  /** The address check as evidently intended: the parts are the texts between literal dots. */
  predicate IpAccepted(ip: string)
  {
    ValidQuad(Split(ip, Literal('.')))
  }

  /** The `<ip>:<port>` argument split at ':', when there is exactly one argument. */
  function AddressParts(args: seq<string>): Option<seq<string>>
  {
    if |args| == 1 then Some(Split(args[0], Literal(':'))) else None
  }

  /** The port the arguments ask for: kept when it is an int from 1 to 65535, the default otherwise. */
  function PortOf(args: seq<string>): (port: int)
    ensures 1 <= port <= MaxPort
  {
    match AddressParts(args)
    case None => DefaultPort
    case Some(ipPort) =>
      if |ipPort| != 2 then DefaultPort
      else
        match ParseInt(ipPort[1])
        case None => DefaultPort
        case Some(p) => if p <= 0 || p > MaxPort then DefaultPort else p
  }

  /** The loop over the address parts: any part that is not an int from 0 to 255 rejects the address. */
  method CheckAddress(parts: seq<string>) returns (accepted: bool)
    ensures accepted == ValidQuad(parts)
  {
    if |parts| != 4 {
      return false;
    }
    for k := 0 to |parts|
      invariant forall j | 0 <= j < k :: ParseInt(parts[j]).Some? && 0 <= ParseInt(parts[j]).value <= 255
    {
      var i := ParseInt(parts[k]);
      if i.None? || i.value < 0 || i.value > 255 {
        return false;
      }
    }
    return true;
  }

  /** The settings `main` starts the client with. */
  class ClientSettings {
    var serverIP: string
    var serverPort: int

    constructor ()
      ensures serverIP == DefaultIp && serverPort == DefaultPort
    {
      serverIP := DefaultIp;
      serverPort := DefaultPort;
    }

    /**
     * Takes the server address from the arguments: with exactly one
     * argument of the form `<ip>:<port>`, an address that passes the IPv4
     * check and a port from 1 to 65535 are kept, each independently; every
     * other case keeps the default.
     */
    method ParseArguments(args: seq<string>)
      modifies this
      ensures serverPort == PortOf(args)
      ensures AddressParts(args).Some? && |AddressParts(args).value| == 2 && IpAccepted(AddressParts(args).value[0]) ==>
        serverIP == AddressParts(args).value[0]
      ensures !(AddressParts(args).Some? && |AddressParts(args).value| == 2 && IpAccepted(AddressParts(args).value[0])) ==>
        serverIP == DefaultIp
    {
      serverIP := DefaultIp;
      serverPort := DefaultPort;
      if |args| != 1 {
        return;
      }
      var ipPort := Split(args[0], Literal(':'));
      if |ipPort| != 2 {
        return;
      }
      serverIP := ipPort[0];
      var accepted := CheckAddress(Split(serverIP, Literal('.')));
      if !accepted {
        serverIP := DefaultIp;
      }
      var port := ParseInt(ipPort[1]);
      if port.None? {
        serverPort := DefaultPort;
      } else {
        serverPort := port.value;
        if serverPort <= 0 || serverPort > MaxPort {
          serverPort := DefaultPort;
        }
      }
    }
  }

  /** Every part of a split at the "any character" expression consists of line terminators only. */
  lemma RegexPartsHoldNoDigit(ip: string)
    ensures forall k | 0 <= k < |Split(ip, AnyCharRegex)| ::
      forall j | 0 <= j < |Split(ip, AnyCharRegex)[k]| :: IsLineTerminator(Split(ip, AnyCharRegex)[k][j])
  {
    var parts := Split(ip, AnyCharRegex);
    if HasMatch(ip, AnyCharRegex) {
      var ps := Pieces(ip, AnyCharRegex);
      PiecesHoldNoMatch(ip, AnyCharRegex);
      forall k | 0 <= k < |parts| ensures parts[k] == ps[k] {
      }
    } else {
      forall j | 0 <= j < |ip| ensures IsLineTerminator(ip[j]) {
        assert !Matches(AnyCharRegex, ip[j]);
      }
    }
  }

  /** As written, no address passes the check, so the client always falls back to 127.0.0.1. */
  lemma AsWrittenRejectsEverything(ip: string)
    ensures !IpAcceptedAsWritten(ip)
  {
    var parts := Split(ip, AnyCharRegex);
    RegexPartsHoldNoDigit(ip);
    if |parts| == 4 {
      var first := parts[0];
    }
  }

  /** Every dotted quad, such as 10.0.0.1, passes the intended check and fails the written one. */
  lemma DottedQuadRejectedAsWritten(a: int, b: int, c: int, d: int)
    requires 0 <= a <= 255 && 0 <= b <= 255 && 0 <= c <= 255 && 0 <= d <= 255
    ensures var ip := Join([IntToString(a), IntToString(b), IntToString(c), IntToString(d)], '.');
      IpAccepted(ip) && !IpAcceptedAsWritten(ip)
  {
    DottedQuadAccepted(a, b, c, d);
    AsWrittenRejectsEverything(Join([IntToString(a), IntToString(b), IntToString(c), IntToString(d)], '.'));
  }

  /** The intended check accepts every dotted quad of numbers from 0 to 255. */
  lemma DottedQuadAccepted(a: int, b: int, c: int, d: int)
    requires 0 <= a <= 255 && 0 <= b <= 255 && 0 <= c <= 255 && 0 <= d <= 255
    ensures IpAccepted(Join([IntToString(a), IntToString(b), IntToString(c), IntToString(d)], '.'))
  {
    var parts := [IntToString(a), IntToString(b), IntToString(c), IntToString(d)];
    forall k | 0 <= k < 4 ensures !HasMatch(parts[k], Literal('.')) {
      NoDotInNumber([a, b, c, d][k]);
    }
    NoDotInNumber(d);
    SplitOfJoin(parts, '.');
    ParseIntToString(a);
    ParseIntToString(b);
    ParseIntToString(c);
    ParseIntToString(d);
  }

  lemma NoDotInNumber(n: nat)
    ensures !HasMatch(IntToString(n), Literal('.')) && IntToString(n) != ""
  {
    var s := IntToString(n);
    assert AllDigits(s);
    forall j | 0 <= j < |s| ensures s[j] != '.' {
      assert IsDigit(s[j]);
    }
  }

  /** The port depends on the text after ':' only: two addresses with the same port text get the same port. */
  lemma PortIndependentOfIp(ip1: string, ip2: string, port: string)
    requires !HasMatch(ip1, Literal(':')) && !HasMatch(ip2, Literal(':')) && !HasMatch(port, Literal(':'))
    requires port != ""
    ensures PortOf([ip1 + ":" + port]) == PortOf([ip2 + ":" + port])
    ensures PortOf([ip1 + ":" + port]) == match ParseInt(port)
      case Some(p) => if 1 <= p <= MaxPort then p else DefaultPort
      case None => DefaultPort
  {
    assert Join([ip1, port], ':') == ip1 + ":" + port;
    assert Join([ip2, port], ':') == ip2 + ":" + port;
    SplitOfJoin([ip1, port], ':');
    SplitOfJoin([ip2, port], ':');
  }

  // ---------------------------------------------------------------------------
  // Console commands
  // ---------------------------------------------------------------------------

  /** What a console line asks for. */
  datatype Command =
    | Help
    | ShowPing
    | SetName(name: string)
    | GetLobbies
    | JoinLobby(lobby: string)
    | LeaveLobby
    | CreateLobby(lobby: string)
    | Login(username: string)
    | GetLobbyInfo
    | Chat(message: string)
    | Disconnect
    | Connect
    | NoCommand

  predicate StartsWith(s: string, prefix: string)
  {
    |prefix| <= |s| && s[..|prefix|] == prefix
  }

  /** A prefix command applies only when something follows the prefix. */
  predicate PrefixCommand(s: string, prefix: string)
  {
    StartsWith(s, prefix) && |s| > |prefix|
  }

  /**
   * The chain of tests in the console loop, in its order; the argument is
   * everything after the prefix, and a prefix command is only recognised
   * with an argument.
   */
  function Classify(s: string): (r: Command)
    ensures HasArgument(r) ==> Argument(r) != ""
  {
    if s == "help" then Help
    else if s == "ping" then ShowPing
    else if PrefixCommand(s, "name ") then SetName(s[5..])
    else if s == "lobbies" then GetLobbies
    else if PrefixCommand(s, "join ") then JoinLobby(s[5..])
    else if s == "leave" then LeaveLobby
    else if PrefixCommand(s, "create ") then CreateLobby(s[7..])
    else if PrefixCommand(s, "login ") then Login(s[6..])
    else if s == "info" then GetLobbyInfo
    else if PrefixCommand(s, "C ") then Chat(s[2..])
    else if s == "disconnect" then Disconnect
    else if s == "connect" then Connect
    else NoCommand
  }

  /**
   * Whether the command sends a packet of its own. "help" and "ping" do not;
   * nor does "connect", which at most reconnects and repeats the first
   * login (see `Act`).
   */
  predicate SendsPacket(c: Command)
  {
    !(c.Help? || c.ShowPing? || c.Connect? || c.NoCommand?)
  }

  /** The packets the console sends to the server. */
  datatype ServerPacket =
    | SetNamePacket(name: string)
    | GetLobbiesPacket
    | JoinLobbyPacket(lobby: string)
    | LeaveLobbyPacket
    | CreateLobbyPacket(lobby: string)
    | LoginPacket(username: string)
    | GetLobbyInfoPacket
    | ChatPacket(message: string)
    | DisconnectPacket

  /** The text a packet carries, empty for the packets without data. */
  function Payload(p: ServerPacket): string
  {
    match p
    case SetNamePacket(n) => n
    case JoinLobbyPacket(l) => l
    case CreateLobbyPacket(l) => l
    case LoginPacket(u) => u
    case ChatPacket(m) => m
    case _ => ""
  }

  /** What a console line does: the packet it sends, whether the socket is closed afterwards, and whether the program exits. */
  datatype Effect = Effect(sent: Option<ServerPacket>, closedAfter: bool, exits: bool)

  /**
   * What the command `c` does while the socket is `socketClosed`. A command
   * with a packet sends it with the typed argument, and "disconnect" then
   * closes the socket. "connect" on a closed socket reconnects, which
   * succeeds when `reconnected`: the first login then runs again and sends
   * a login packet for the console answer `answer`; otherwise the program
   * exits. "connect" on an open socket, "help" and "ping" send nothing.
   */
  function Act(c: Command, socketClosed: bool, reconnected: bool, answer: string, systemUser: string): (e: Effect)
    ensures e.sent.Some? <==> SendsPacket(c) || (c.Connect? && socketClosed && reconnected)
    ensures HasArgument(c) ==> e.sent.Some? && Payload(e.sent.value) == Argument(c)
    ensures c.Connect? && e.sent.Some? ==> e.sent.value == LoginPacket(LoginName(answer, systemUser))
    ensures e.exits <==> c.Connect? && socketClosed && !reconnected
    ensures e.closedAfter <==> c.Disconnect? || (socketClosed && !(c.Connect? && reconnected))
  {
    match c
    case SetName(n) => Effect(Some(SetNamePacket(n)), socketClosed, false)
    case GetLobbies => Effect(Some(GetLobbiesPacket), socketClosed, false)
    case JoinLobby(l) => Effect(Some(JoinLobbyPacket(l)), socketClosed, false)
    case LeaveLobby => Effect(Some(LeaveLobbyPacket), socketClosed, false)
    case CreateLobby(l) => Effect(Some(CreateLobbyPacket(l)), socketClosed, false)
    case Login(u) => Effect(Some(LoginPacket(u)), socketClosed, false)
    case GetLobbyInfo => Effect(Some(GetLobbyInfoPacket), socketClosed, false)
    case Chat(m) => Effect(Some(ChatPacket(m)), socketClosed, false)
    case Disconnect => Effect(Some(DisconnectPacket), true, false)
    case Connect =>
      if !socketClosed then Effect(None, false, false)
      else if reconnected then Effect(Some(LoginPacket(LoginName(answer, systemUser))), false, false)
      else Effect(None, true, true)
    case Help => Effect(None, socketClosed, false)
    case ShowPing => Effect(None, socketClosed, false)
    case NoCommand => Effect(None, socketClosed, false)
  }

  /** The line a user types for a command. */
  function CommandText(c: Command): string
    requires !c.NoCommand?
  {
    match c
    case Help => "help"
    case ShowPing => "ping"
    case SetName(n) => "name " + n
    case GetLobbies => "lobbies"
    case JoinLobby(l) => "join " + l
    case LeaveLobby => "leave"
    case CreateLobby(l) => "create " + l
    case Login(u) => "login " + u
    case GetLobbyInfo => "info"
    case Chat(m) => "C " + m
    case Disconnect => "disconnect"
    case Connect => "connect"
  }

  /** The argument a command carries, empty for the exact-match commands. */
  function Argument(c: Command): string
  {
    match c
    case SetName(n) => n
    case JoinLobby(l) => l
    case CreateLobby(l) => l
    case Login(u) => u
    case Chat(m) => m
    case _ => ""
  }

  predicate HasArgument(c: Command)
  {
    c.SetName? || c.JoinLobby? || c.CreateLobby? || c.Login? || c.Chat?
  }

  /** The characters that tell the prefixes apart from each other and from the exact words. */
  lemma PrefixHeads(s: string)
    ensures PrefixCommand(s, "name ") ==> s[0] == 'n'
    ensures PrefixCommand(s, "join ") ==> s[0] == 'j'
    ensures PrefixCommand(s, "create ") ==> s[0] == 'c' && s[1] == 'r'
    ensures PrefixCommand(s, "login ") ==> s[0] == 'l' && s[2] == 'g'
    ensures PrefixCommand(s, "C ") ==> s[0] == 'C'
  {
  }

  lemma PrefixThenArgument(prefix: string, arg: string)
    requires arg != ""
    ensures PrefixCommand(prefix + arg, prefix) && (prefix + arg)[|prefix|..] == arg
  {
    assert (prefix + arg)[..|prefix|] == prefix;
  }

  /** Typing a command's text gives that command back, for every non-empty argument. */
  lemma ClassifyCommandText(c: Command)
    requires !c.NoCommand?
    requires HasArgument(c) ==> Argument(c) != ""
    ensures Classify(CommandText(c)) == c
  {
    var s := CommandText(c);
    PrefixHeads(s);
    match c
    case SetName(n) =>
      PrefixThenArgument("name ", n);
      assert s[0] == 'n';
    case JoinLobby(l) =>
      PrefixThenArgument("join ", l);
      assert s[0] == 'j';
    case CreateLobby(l) =>
      PrefixThenArgument("create ", l);
      assert s[0] == 'c';
    case Login(u) =>
      PrefixThenArgument("login ", u);
      assert s[0] == 'l' && s[2] == 'g';
    case Chat(m) =>
      PrefixThenArgument("C ", m);
      assert s[0] == 'C';
    case Help =>
    case ShowPing =>
    case GetLobbies =>
    case LeaveLobby =>
    case GetLobbyInfo =>
    case Disconnect =>
    case Connect =>
  }

  /**
   * Conversely, a line that is classified as a command is that command's
   * text: the exact text, or the prefix followed by a non-empty argument.
   */
  lemma ClassifiedLineIsCommandText(s: string)
    requires !Classify(s).NoCommand?
    ensures s == CommandText(Classify(s))
    ensures HasArgument(Classify(s)) ==> Argument(Classify(s)) != ""
  {
    if s == "help" || s == "ping" {
    } else if PrefixCommand(s, "name ") {
      assert s == s[..5] + s[5..];
    } else if s == "lobbies" {
    } else if PrefixCommand(s, "join ") {
      assert s == s[..5] + s[5..];
    } else if s == "leave" {
    } else if PrefixCommand(s, "create ") {
      assert s == s[..7] + s[7..];
    } else if PrefixCommand(s, "login ") {
      assert s == s[..6] + s[6..];
    } else if s == "info" {
    } else if PrefixCommand(s, "C ") {
      assert s == s[..2] + s[2..];
    }
  }

  /**
   * The lines that send a packet are exactly the four packet words, the
   * five prefixes followed by an argument, and "connect" when it
   * re-establishes a closed connection; every other line sends nothing.
   */
  lemma PacketLines(s: string, socketClosed: bool, reconnected: bool, answer: string, systemUser: string)
    ensures Act(Classify(s), socketClosed, reconnected, answer, systemUser).sent.Some? <==>
      s == "lobbies" || s == "leave" || s == "info" || s == "disconnect"
      || PrefixCommand(s, "name ") || PrefixCommand(s, "join ") || PrefixCommand(s, "create ")
      || PrefixCommand(s, "login ") || PrefixCommand(s, "C ")
      || (s == "connect" && socketClosed && reconnected)
  {
    PrefixHeads(s);
  }

  /** A prefix with nothing after it is no command: "name " alone sends nothing. */
  lemma BarePrefixIgnored()
    ensures Classify("name ") == NoCommand
    ensures Classify("join ") == NoCommand
    ensures Classify("create ") == NoCommand
    ensures Classify("login ") == NoCommand
    ensures Classify("C ") == NoCommand
  {
    PrefixHeads("login ");
    PrefixHeads("create ");
    PrefixHeads("name ");
  }

  // ---------------------------------------------------------------------------
  // The first login
  // ---------------------------------------------------------------------------

  /** Whether an answer means "yes": "yes" in any letter case, with blanks around it. */
  predicate IsYes(answer: string)
  {
    ToLower(Trim(answer)) == "yes"
  }

  /** The name the first login packet carries: the system user name after a yes, the answer itself otherwise. */
  function LoginName(answer: string, systemUser: string): (name: string)
    ensures IsYes(answer) ==> name == systemUser
    ensures !IsYes(answer) ==> name == answer
  {
    if IsYes(answer) then systemUser else answer
  }

  /** " Yes " counts as yes, and "yess" does not. */
  lemma YesExamples()
    ensures IsYes(" Yes ") && IsYes("YES") && !IsYes("yess")
  {
    assert TrimStart(" Yes ") == "Yes ";
    assert TrimEnd("Yes ") == "Yes";
    assert Trim("YES") == "YES" by {
      assert TrimStart("YES") == "YES";
      assert TrimEnd("YES") == "YES";
    }
    assert |Trim("yess")| == 4 by {
      assert TrimStart("yess") == "yess";
      assert TrimEnd("yess") == "yess";
    }
  }

  /** Blanks around an answer and the case of its letters do not change whether it is a yes. */
  lemma {:induction false} IsYesIgnoresSurroundingBlanks(answer: string)
    ensures IsYes(" " + answer + " ") == IsYes(answer)
  {
    var padded := " " + answer + " ";
    assert padded[1..] == answer + " ";
    assert TrimStart(padded) == TrimStart(answer + " ");
    TrimAroundSpace(answer);
  }

  lemma {:induction false} TrimAroundSpace(s: string)
    ensures TrimEnd(TrimStart(s + " ")) == TrimEnd(TrimStart(s))
  {
    if |s| > 0 && IsTrimmed(s[0]) {
      assert (s + " ")[1..] == s[1..] + " ";
      TrimAroundSpace(s[1..]);
    } else if |s| == 0 {
      assert TrimStart(" ") == "";
    } else {
      assert TrimStart(s + " ") == s + " ";
      assert (s + " ")[..|s|] == s;
    }
  }
}
