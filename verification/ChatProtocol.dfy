/** The text commands of the chat protocol: the client's formatters, the server's parsing and
    the connect reply. */
module ChatProtocol {
  import opened Text
  import opened WaitingList

  datatype Command =
    | Join(name: string)
    | Quit(name: string)
    | Connect(name: string, peer: string)
    | Wait(name: string, port: int)
    | List
    | LeaveWait(name: string)
    | Wrong
    | Incomplete  // a strtok call found no token, and its null result is used

  // ---- the formatters, with the number of characters they report --------------------

  function FormatOne(code: char, name: string): (string, nat) {
    ([code] + ":" + name + ":", |name| + 4)
  }

  function FormatJoin(name: string): (string, nat) { FormatOne('a', name) }
  function FormatQuit(name: string): (string, nat) { FormatOne('q', name) }
  function FormatList(name: string): (string, nat) { FormatOne('l', name) }
  function FormatLeaveWait(name: string): (string, nat) { FormatOne('r', name) }

  function FormatWait(name: string, port: int): (string, nat) {
    var portText := PrintLong(port);
    ("w:" + name + ":" + portText + ":", |name| + |portText| + 5)
  }

  function FormatConnect(name: string, peer: string): (string, nat) {
    ("c:" + name + ":" + peer + ":", |name| + |peer| + 5)
  }

  // ---- the server's side ------------------------------------------------------------

  /** What the first three strtok calls on a command would find. */
  function Token0(text: string): Option<string> { Strtok(text, ':').0 }
  function Token1(text: string): Option<string> { Strtok(Strtok(text, ':').1, ':').0 }
  function Token2(text: string): Option<string> { Strtok(Strtok(Strtok(text, ':').1, ':').1, ':').0 }

  /** Which tokens each command looks at, and what it makes of them. */
  function Interpret(code: Option<string>, first: Option<string>, second: Option<string>): Command {
    if code.None? then Incomplete
    else if code.value == "l" then List
    else if code.value == "a" then if first.None? then Incomplete else Join(first.value)
    else if code.value == "q" then if first.None? then Incomplete else Quit(first.value)
    else if code.value == "c" then if second.None? || first.None? then Incomplete else Connect(first.value, second.value)
    else if code.value == "w" then if second.None? || first.None? then Incomplete else Wait(first.value, Atol(second.value))
    else if code.value == "r" then if first.None? then Incomplete else LeaveWait(first.value)
    else Wrong
  }

  function ParseCommand(text: string): Command {
    Interpret(Token0(text), Token1(text), Token2(text))
  }

  /** The reply to CONNECT. */
  function FormatClient(c: Client): string {
    "c:" + c.name + ":" + c.ip + ":" + PrintLong(c.port) + ":"
  }

  const NO_SUCH_CLIENT := "c::"

  datatype Peer =
    | Unavailable
    | PeerAt(name: string, ip: string, port: int)
    | BadReply  // a token is missing

  function ReadPeer(name: Option<string>, ip: Option<string>, port: Option<string>): Peer {
    if name.None? || ip.None? || port.None? then BadReply else PeerAt(name.value, ip.value, Atol(port.value))
  }

  function ConnectAfterProcess(buf: string): Peer {
    if buf == NO_SUCH_CLIENT then Unavailable
    else
      var (_, rest) := Strtok(buf, ':');
      ReadPeer(Token0(rest), Token1(rest), Token2(rest))
  }

  // ---- round trips ------------------------------------------------------------------

  function Closed1(code: string, a: string): string { code + [':'] + a + [':'] }

  function Closed2(code: string, a: string, b: string): string { code + [':'] + a + [':'] + b + [':'] }

  function Closed3(code: string, a: string, b: string, e: string): string {
    code + [':'] + a + [':'] + b + [':'] + e + [':']
  }

  lemma ParseOne(code: string, a: string)
    requires IsField(code, ':') && IsField(a, ':')
    ensures ParseCommand(Closed1(code, a)) == Interpret(Some(code), Some(a), None)
  {
    var r0 := a + [':'] + [];
    assert Closed1(code, a) == code + [':'] + r0;
    StrtokJoin(code, ':', r0);
    StrtokJoin(a, ':', []);
  }

  lemma ParseTwo(code: string, a: string, b: string)
    requires IsField(code, ':') && IsField(a, ':') && IsField(b, ':')
    ensures ParseCommand(Closed2(code, a, b)) == Interpret(Some(code), Some(a), Some(b))
  {
    var r1 := b + [':'] + [];
    var r0 := a + [':'] + r1;
    assert Closed2(code, a, b) == code + [':'] + r0;
    StrtokJoin(code, ':', r0);
    StrtokJoin(a, ':', r1);
    StrtokJoin(b, ':', []);
  }

  /** Each one-field command comes back, and its length counts the terminating NUL. */
  lemma OneFieldRoundTrip(code: char, name: string)
    requires code in {'a', 'q', 'l', 'r'} && IsField(name, ':')
    ensures ParseCommand(FormatOne(code, name).0)
            == match code
               case 'a' => Join(name)
               case 'q' => Quit(name)
               case 'l' => List
               case _ => LeaveWait(name)
    ensures FormatOne(code, name).1 == |FormatOne(code, name).0| + 1
  {
    ParseOne([code], name);
    assert FormatOne(code, name).0 == Closed1([code], name);
  }

  lemma TwoFieldTexts(name: string, other: string)
    ensures "w:" + name + ":" + other + ":" == Closed2("w", name, other)
    ensures "c:" + name + ":" + other + ":" == Closed2("c", name, other)
  {
  }

  lemma WaitRoundTrip(name: string, port: int)
    requires IsField(name, ':')
    ensures ParseCommand(FormatWait(name, port).0) == Wait(name, port)
    ensures FormatWait(name, port).1 == |FormatWait(name, port).0| + 1
  {
    PrintLongIsField(port, ':');
    ParseTwo("w", name, PrintLong(port));
    AtolOfPrintLong(port);
    TwoFieldTexts(name, PrintLong(port));
  }

  lemma ConnectRoundTrip(name: string, peer: string)
    requires IsField(name, ':') && IsField(peer, ':')
    ensures ParseCommand(FormatConnect(name, peer).0) == Connect(name, peer)
    ensures FormatConnect(name, peer).1 == |FormatConnect(name, peer).0| + 1
  {
    ParseTwo("c", name, peer);
    TwoFieldTexts(name, peer);
  }

  /** The client's reading of the reply to a JOIN: 1 for success, 0 for a name in use. */
  function CheckNameConflict(buf: string): int {
    if buf == "a:c::" then 1 else if buf == "a:r::" then 0 else -1
  }

  lemma OneDigit()
    ensures PrintLong(7) == "7"
  {
    AtolOfPrintLong(7);
  }

  /** The commands and the CONNECT reply as they go over the wire. */
  lemma WireTexts()
    ensures FormatJoin("ann").0 == "a:ann:" && FormatQuit("ann").0 == "q:ann:"
    ensures FormatList("ann").0 == "l:ann:" && FormatLeaveWait("ann").0 == "r:ann:"
    ensures FormatWait("ann", 7).0 == "w:ann:7:" && FormatConnect("bob", "ann").0 == "c:bob:ann:"
    ensures FormatClient(Client(0, "ann", "10.0.0.2", 7)) == "c:ann:10.0.0.2:7:"
  {
    OneDigit();
  }

  lemma FirstOnly(code: string, rest: string)
    requires IsField(code, ':')
    ensures Token0(code) == Some(code) && Token1(code) == None && Token2(code) == None
    ensures Token0(code + ":" + rest) == Some(code)
  {
    StrtokJoin(code, ':', rest);
    assert code + ":" + rest == code + [':'] + rest;
    assert Strtok([], ':') == (None, []);
  }

  /** A command with another first word is unknown, whatever follows. */
  lemma OtherCommand(code: string, rest: string)
    requires IsField(code, ':') && code !in ["a", "q", "c", "w", "l", "r"]
    ensures ParseCommand(code) == Wrong && ParseCommand(code + ":" + rest) == Wrong
  {
    FirstOnly(code, rest);
  }

  lemma BareCommand(code: string)
    requires code in ["a", "q", "c", "w", "r"]
    ensures ParseCommand(code) == Incomplete
  {
    assert IsField(code, ':');
    FirstOnly(code, []);
  }

  lemma NoSecondField(code: string, name: string)
    requires code in ["c", "w"] && IsField(name, ':')
    ensures ParseCommand(code + ":" + name + ":") == Incomplete
  {
    assert IsField(code, ':');
    ParseOne(code, name);
    assert code + ":" + name + ":" == Closed1(code, name);
  }

  /** The texts that break off before a field the server uses. */
  lemma BrokenCommands(name: string)
    requires IsField(name, ':')
    ensures ParseCommand("") == Incomplete
    ensures forall code :: code in ["a", "q", "c", "w", "r"] ==> ParseCommand(code) == Incomplete
    ensures forall code :: code in ["c", "w"] ==> ParseCommand(code + ":" + name + ":") == Incomplete
  {
    assert Token0("") == None;
    forall code | code in ["a", "q", "c", "w", "r"]
      ensures ParseCommand(code) == Incomplete
    {
      BareCommand(code);
    }
    forall code | code in ["c", "w"]
      ensures ParseCommand(code + ":" + name + ":") == Incomplete
    {
      NoSecondField(code, name);
    }
  }

  /** A reply to CONNECT that breaks off early, with nothing or one more field behind the name. */
  lemma BrokenReply(name: string, rest: string)
    requires IsField(name, ':') && (rest == "" || exists ip :: IsField(ip, ':') && rest == ip + [':'])
    ensures ConnectAfterProcess("c" + [':'] + (name + [':'] + rest)) == BadReply
  {
    var text := name + [':'] + rest;
    assert Strtok([], ':') == (None, []);
    StrtokJoin("c", ':', text);
    StrtokJoin(name, ':', rest);
    assert ("c" + [':'] + text)[2] == name[0] && name[0] in name;
    if rest != "" {
      var ip :| IsField(ip, ':') && rest == ip + [':'];
      StrtokLast(ip, ':', [':']);
    }
  }

  predicate NamesAreFields(cmd: Command) {
    match cmd
    case Join(name) => IsField(name, ':')
    case Quit(name) => IsField(name, ':')
    case Connect(name, peer) => IsField(name, ':') && IsField(peer, ':')
    case Wait(name, _) => IsField(name, ':')
    case LeaveWait(name) => IsField(name, ':')
    case _ => true
  }

  /** What the client prints for a command; a list command carries the user's name. */
  function Format(cmd: Command, user: string): (string, nat)
    requires !cmd.Wrong? && !cmd.Incomplete?
  {
    match cmd
    case Join(name) => FormatJoin(name)
    case Quit(name) => FormatQuit(name)
    case Connect(name, peer) => FormatConnect(name, peer)
    case Wait(name, port) => FormatWait(name, port)
    case List => FormatList(user)
    case LeaveWait(name) => FormatLeaveWait(name)
  }

  /** Every command the client can send reads back as itself. */
  lemma CommandRoundTrip(cmd: Command, user: string)
    requires !cmd.Wrong? && !cmd.Incomplete? && NamesAreFields(cmd) && IsField(user, ':')
    ensures ParseCommand(Format(cmd, user).0) == cmd
    ensures Format(cmd, user).1 == |Format(cmd, user).0| + 1
  {
    match cmd
    case Join(name) => OneFieldRoundTrip('a', name);
    case Quit(name) => OneFieldRoundTrip('q', name);
    case Connect(name, peer) => ConnectRoundTrip(name, peer);
    case Wait(name, port) => WaitRoundTrip(name, port);
    case List => OneFieldRoundTrip('l', user);
    case LeaveWait(name) => OneFieldRoundTrip('r', name);
  }

  /** Every name in a parsed command is a field, whatever text a client sends. */
  lemma ParsedNames(text: string)
    ensures NamesAreFields(ParseCommand(text))
  {
    var rest := Strtok(text, ':').1;
    TokenIsField(rest, ':');
    TokenIsField(Strtok(rest, ':').1, ':');
    InterpretedNames(Token0(text), Token1(text), Token2(text));
  }

  lemma InterpretedNames(code: Option<string>, first: Option<string>, second: Option<string>)
    requires first.Some? ==> IsField(first.value, ':')
    requires second.Some? ==> IsField(second.value, ':')
    ensures NamesAreFields(Interpret(code, first, second))
  {
  }

  lemma PeerTokens(code: string, a: string, b: string, e: string)
    requires IsField(code, ':') && IsField(a, ':') && IsField(b, ':') && IsField(e, ':')
    ensures var rest := Strtok(Closed3(code, a, b, e), ':').1;
            Token0(rest) == Some(a) && Token1(rest) == Some(b) && Token2(rest) == Some(e)
  {
    FourFields(code, a, b, e, [':'], ':');
    assert Closed3(code, a, b, e) == code + [':'] + a + [':'] + b + [':'] + (e + [':']);
  }

  lemma NotUnavailable(a: string, b: string, e: string)
    requires IsField(a, ':')
    ensures Closed3("c", a, b, e) != NO_SUCH_CLIENT
  {
  }

  /** The connecting client reads back the entry the server found. */
  lemma ConnectReply(c: Client)
    requires IsField(c.name, ':') && IsField(c.ip, ':')
    ensures ConnectAfterProcess(FormatClient(c)) == PeerAt(c.name, c.ip, c.port)
  {
    var port := PrintLong(c.port);
    PrintLongIsField(c.port, ':');
    AtolOfPrintLong(c.port);
    assert FormatClient(c) == Closed3("c", c.name, c.ip, port);
    PeerTokens("c", c.name, c.ip, port);
    NotUnavailable(c.name, c.ip, port);
    ReadTokens(Closed3("c", c.name, c.ip, port));
  }

  lemma ReadTokens(text: string)
    requires text != NO_SUCH_CLIENT
    ensures ConnectAfterProcess(text)
            == ReadPeer(Token0(Strtok(text, ':').1), Token1(Strtok(text, ':').1), Token2(Strtok(text, ':').1))
  {
  }
}
