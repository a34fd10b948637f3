/** The per-connection loop of the hw5 proxy, thread_proxy. Reads are the texts that arrive
    from the browser; the answers of the network are given by an Env. */
module Proxy {
  import opened Text
  import opened HttpText

  /** What the connection meets: addresses, the forbidden sites, name resolution, and for the
      k-th forwarded request whether the write to the host works, the chunks of the response,
      and whether writing each of them to the browser works. */
  datatype Env = Env(
    clientIp: string, proxyIp: string, sites: seq<string>, resolves: string -> bool,
    hostWrites: nat -> bool, responses: nat -> seq<string>, clientWrites: (nat, nat) -> bool)

  datatype LogLine = LogLine(firstLine: string, code: string, length: int)

  datatype ClientWrite = ErrorPage(code: int, version: string) | Chunk(text: string)

  /** The variables of thread_proxy that outlive a request, and what it has written. The host
      is the one the remote socket was connected to; `crashed` says that a null pointer was
      used, which ends the program. */
  datatype Conn = Conn(
    full: string, open: bool, crashed: bool, host: Option<string>, responseCode: string, forwards: nat,
    log: seq<LogLine>, toHost: seq<(string, string)>, toClient: seq<ClientWrite>)

  // ---- the request ------------------------------------------------------------------

  function FirstCR(full: string, p: nat): nat
    decreases |full| - p
  {
    if p >= |full| || full[p] == '\r' then p else FirstCR(full, p + 1)
  }

  function FirstLine(full: string): string {
    if FirstCR(full, 0) < |full| then full[..FirstCR(full, 0)] else ""
  }

  function ForwardedField(env: Env): string {
    "Forwarded: for=" + env.clientIp + "; proto=http; by=" + env.proxyIp
  }

  /** The last two characters give way to the new field and a blank line. */
  function ForwardText(env: Env, full: string): string
    requires |full| >= 2
  {
    full[..|full| - 2] + ForwardedField(env) + BLANK
  }

  function Persistent(full: string): bool { OrEmpty(Word3(full)) == "HTTP/1.1" }

  function Headers(full: string): Scan {
    HeaderScan(full, FirstCR(full, 0), Scan(None, Persistent(full)))
  }

  function CodeText(code: int): string {
    if code == 501 then "501" else if code == 403 then "403" else "400"
  }

  /** Logs the code and sends an error page; after a 403 the connection ends. */
  function Refuse(c: Conn, code: int): Conn {
    c.(log := c.log + [LogLine(FirstLine(c.full), CodeText(code), 0)],
       toClient := c.toClient + [ErrorPage(code, OrEmpty(Word3(c.full)))],
       full := "", open := c.open && code != 403)
  }

  // ---- the response -----------------------------------------------------------------

  datatype Relay = Relay(
    code: string, length: int, hasLength: bool, log: seq<LogLine>, sent: seq<ClientWrite>, failed: bool, crashed: bool)

  /** The first chunk. Without a Content-Length the program takes the text from the blank line
      on, and uses a null pointer when the chunk has no blank line. */
  function RelayFirst(line: string, r: Relay, chunk: string): Relay {
    var text := CText(chunk);
    var code := OrEmpty(Word2(text));
    match ContentLengthAt(text, 0, "")
    case Some(value) =>
      r.(code := code, length := Atol(value), hasLength := true, log := r.log + [LogLine(line, code, Atol(value))])
    case None =>
      if BlankAt(text) < 0 then r.(code := code, crashed := true)
      else r.(code := code, length := |text| - BlankAt(text) - 4)
  }

  function RelayNext(r: Relay, chunk: string): Relay {
    if r.hasLength then r else r.(length := r.length + |CText(chunk)|)
  }

  function RelayOne(line: string, r: Relay, chunks: seq<string>, j: nat): Relay
    requires j < |chunks|
  {
    if j == 0 then RelayFirst(line, r, chunks[0]) else RelayNext(r, chunks[j])
  }

  function RelayFrom(env: Env, k: nat, line: string, chunks: seq<string>, j: nat, r: Relay): Relay
    decreases |chunks| - j
  {
    if j >= |chunks| || r.failed || r.crashed then r
    else
      var r' := RelayOne(line, r, chunks, j);
      if r'.crashed then r'
      else if env.clientWrites(k, j)
      then RelayFrom(env, k, line, chunks, j + 1, r'.(sent := r'.sent + [Chunk(chunks[j])]))
      else r'.(failed := true)
  }

  function NewRelay(code: string): Relay { Relay(code, 0, false, [], [], false, false) }

  function RelayAll(env: Env, k: nat, line: string, code: string): Relay {
    RelayFrom(env, k, line, env.responses(k), 0, NewRelay(code))
  }

  // ---- one complete request ---------------------------------------------------------

  /** After the request was written to the host. */
  function AfterRelay(c: Conn, r: Relay, line: string, persistent: bool): Conn {
    var c' := c.(log := c.log + r.log, toClient := c.toClient + r.sent, responseCode := r.code,
                 forwards := c.forwards + 1, full := "");
    if r.failed || r.crashed then c'.(open := false, crashed := r.crashed)
    else if r.hasLength then c'.(open := persistent)
    else c'.(open := persistent, log := c'.log + [LogLine(line, r.code, r.length)])
  }

  function Forward(env: Env, c: Conn, to: string, persistent: bool): Conn
    requires |c.full| >= 2
  {
    var c' := c.(host := Some(to));
    if !env.hostWrites(c.forwards) then c'.(open := false, full := "")
    else
      AfterRelay(c'.(toHost := c.toHost + [(to, ForwardText(env, c.full))]),
                 RelayAll(env, c.forwards, FirstLine(c.full), c.responseCode), FirstLine(c.full), persistent)
  }

  /** The code a request is refused with, if it is; a host must resolve only when no remote
      socket is open yet. */
  function Refusal(env: Env, connected: bool, full: string): Option<int> {
    if OrEmpty(Word1(full)) !in ["GET", "HEAD"] then Some(501)
    else if OrEmpty(Word3(full)) !in ["HTTP/1.1", "HTTP/1.0"] then Some(400)
    else if Headers(full).host.None? then Some(400)
    else if Headers(full).host.value in env.sites then Some(403)
    else if !connected && !env.resolves(Headers(full).host.value) then Some(400)
    else None
  }

  /** What happens to the request in c.full. */
  function OnRequest(env: Env, c: Conn): Conn
    requires |c.full| >= 2
  {
    match Refusal(env, c.host.Some?, c.full)
    case Some(code) => Refuse(c, code)
    case None =>
      Forward(env, c, if c.host.Some? then c.host.value else OrEmpty(Headers(c.full).host), Headers(c.full).persistent)
  }

  function OnRead(env: Env, c: Conn, chunk: string): Conn {
    var c' := c.(full := c.full + CText(chunk));
    if BlankAt(c'.full) < 0 then c' else OnRequest(env, c')
  }

  /** A whole connection: the texts read, until it is closed or the browser stops. */
  function RunFrom(env: Env, c: Conn, texts: seq<string>): Conn
    decreases |texts|
  {
    if texts == [] || !c.open then c else RunFrom(env, OnRead(env, c, texts[0]), texts[1..])
  }

  /** The status code buffer starts with whatever is in memory. */
  function Fresh(garbage: string): Conn {
    Conn("", true, false, None, garbage, 0, [], [], [])
  }

  // ---- the loops --------------------------------------------------------------------

  method ReadFirstLine(full: string) returns (retn: nat, line: string)
    ensures retn == FirstCR(full, 0) && line == FirstLine(full)
  {
    retn, line := 0, "";
    while |full| > retn
      invariant retn <= |full| && line == "" && FirstCR(full, retn) == FirstCR(full, 0)
    {
      if full[retn] == '\r' {
        line := full[..retn];
        break;
      }
      retn := retn + 1;
    }
  }

  method ScanHeaders(full: string, start: nat, keep: bool) returns (host: Option<string>, persistent: bool)
    ensures Scan(host, persistent) == HeaderScan(full, start, Scan(None, keep))
  {
    var retn := start;
    host, persistent := None, keep;
    while |full| > retn
      invariant HeaderScan(full, retn, Scan(host, persistent)) == HeaderScan(full, start, Scan(None, keep))
      decreases |full| - retn
    {
      if full[retn] == '\r' {
        var cmd1, cmd2 := OrEmpty(Word1(full[retn..])), OrEmpty(Word2(full[retn..]));
        if cmd1 == "Host:" { host := Some(cmd2); }
        if persistent || (cmd1 == "Proxy-Connection:" && cmd2 == "Keep-Alive") { persistent := true; }
      }
      retn := retn + 1;
    }
  }

  method IsForbidden(host: string, sites: seq<string>) returns (found: bool)
    ensures found <==> host in sites
  {
    for i := 0 to |sites|
      invariant host !in sites[..i]
    {
      if host == sites[i] { return true; }
    }
    found := false;
  }

  method FindContentLength(chunk: string) returns (value: Option<string>)
    ensures value == ContentLengthAt(chunk, 0, "")
  {
    var retn, cmd2 := 0, "";
    while |chunk| > retn
      invariant ContentLengthAt(chunk, retn, cmd2) == ContentLengthAt(chunk, 0, "")
      decreases |chunk| - retn
    {
      if chunk[retn] == '\r' {
        var second := Word2(chunk[retn..]);
        if second.Some? { cmd2 := second.value; }
        if Word1(chunk[retn..]) == Some("Content-Length:") { return Some(cmd2); }
      }
      retn := retn + 1;
    }
    value := None;
  }

  method OnFirstChunk(line: string, before: Relay, text: string) returns (r: Relay)
    requires NulFreeText(text)
    ensures r == RelayFirst(line, before, text)
  {
    var code := OrEmpty(Word2(text));
    var value := FindContentLength(text);
    if value.Some? {
      r := before.(code := code, length := Atol(value.value), hasLength := true);
      r := r.(log := r.log + [LogLine(line, code, r.length)]);
    } else if BlankAt(text) < 0 {
      r := before.(code := code, crashed := true);
    } else {
      r := before.(code := code, length := |text[BlankAt(text)..]| - 4);
    }
  }

  lemma FirstOfText(line: string, r: Relay, chunk: string)
    ensures RelayFirst(line, r, CText(chunk)) == RelayFirst(line, r, chunk)
  {
  }

  /** One round of the response loop, before the write to the browser. */
  method OnChunk(line: string, before: Relay, chunks: seq<string>, j: nat) returns (r: Relay)
    requires j < |chunks|
    ensures r == RelayOne(line, before, chunks, j)
  {
    if j == 0 {
      r := OnFirstChunk(line, before, CText(chunks[0]));
      FirstOfText(line, before, chunks[0]);
    } else if !before.hasLength {
      r := before.(length := before.length + |CText(chunks[j])|);
    } else {
      r := before;
    }
  }

  lemma RoundKeeps(line: string, r: Relay, chunks: seq<string>, j: nat)
    requires j < |chunks|
    ensures RelayOne(line, r, chunks, j).failed == r.failed && RelayOne(line, r, chunks, j).sent == r.sent
    ensures j > 0 ==> RelayOne(line, r, chunks, j).crashed == r.crashed
  {
  }

  method RelayResponse(env: Env, k: nat, line: string, oldCode: string) returns (r: Relay)
    ensures r == RelayAll(env, k, line, oldCode)
  {
    var chunks := env.responses(k);
    r := NewRelay(oldCode);
    var j := 0;
    ghost var goal := RelayAll(env, k, line, oldCode);
    while j < |chunks|
      invariant !r.failed && !r.crashed && RelayFrom(env, k, line, chunks, j, r) == goal
      decreases |chunks| - j
    {
      RoundKeeps(line, r, chunks, j);
      r := OnChunk(line, r, chunks, j);
      if r.crashed { return; }
      if !env.clientWrites(k, j) {
        return r.(failed := true);
      }
      r := r.(sent := r.sent + [Chunk(chunks[j])]);
      j := j + 1;
    }
  }

  /** The request goes out, and the response comes back. */
  method SendOn(env: Env, c: Conn, to: string, line: string, persistent: bool) returns (c': Conn)
    requires |c.full| >= 2 && line == FirstLine(c.full)
    ensures c' == Forward(env, c, to, persistent)
  {
    c' := c.(host := Some(to));
    if !env.hostWrites(c.forwards) { return c'.(open := false, full := ""); }
    c' := c'.(toHost := c.toHost + [(to, ForwardText(env, c.full))]);
    var r := RelayResponse(env, c.forwards, line, c.responseCode);
    c' := AfterRelay(c', r, line, persistent);
  }

  /** The tests a request goes through before anything is sent. */
  method Examine(env: Env, connected: bool, full: string)
    returns (code: Option<int>, line: string, host: Option<string>, persistent: bool)
    ensures code == Refusal(env, connected, full) && line == FirstLine(full)
    ensures code.None? ==> host.Some? && Headers(full) == Scan(host, persistent)
  {
    var retn;
    host, persistent := None, false;
    retn, line := ReadFirstLine(full);
    var cmd1, cmd3 := OrEmpty(Word1(full)), OrEmpty(Word3(full));
    if cmd1 != "GET" && cmd1 != "HEAD" { return Some(501), line, host, persistent; }
    if cmd3 != "HTTP/1.1" && cmd3 != "HTTP/1.0" { return Some(400), line, host, persistent; }
    host, persistent := ScanHeaders(full, retn, cmd3 == "HTTP/1.1");
    if host.None? { return Some(400), line, host, persistent; }
    var forbidden := IsForbidden(host.value, env.sites);
    if forbidden { return Some(403), line, host, persistent; }
    code := if !connected && !env.resolves(host.value) then Some(400) else None;
  }

  method HandleRequest(env: Env, c: Conn) returns (c': Conn)
    requires |c.full| >= 2
    ensures c' == OnRequest(env, c)
  {
    var code, line, host, persistent := Examine(env, c.host.Some?, c.full);
    if code.Some? { return Refuse(c, code.value); }
    c' := SendOn(env, c, if c.host.Some? then c.host.value else host.value, line, persistent);
  }

  method ThreadProxy(env: Env, texts: seq<string>, garbage: string) returns (c: Conn)
    ensures c == RunFrom(env, Fresh(garbage), texts)
  {
    c := Fresh(garbage);
    var i := 0;
    while i < |texts| && c.open
      invariant i <= |texts| && RunFrom(env, c, texts[i..]) == RunFrom(env, Fresh(garbage), texts)
    {
      assert texts[i..][1..] == texts[i + 1..];
      c := c.(full := c.full + CText(texts[i]));
      if BlankAt(c.full) >= 0 {
        c := HandleRequest(env, c);
      }
      i := i + 1;
    }
  }
}
