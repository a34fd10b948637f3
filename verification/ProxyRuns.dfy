/** What the hw5 proxy forwards, over every run of one connection. */
module ProxyRuns {
  import opened Text
  import opened HttpText
  import opened Proxy
  import opened ProxyField

  // ---- a connection is its complete requests ----------------------------------------

  predicate Complete(requests: seq<string>) {
    forall i :: 0 <= i < |requests| ==> BlankAt(requests[i]) >= 0
  }

  /** The requests that a sequence of reads completes, `pending` being read already: a text is
      a request when it has a blank line, and what stands behind that belongs to it. */
  function Requests(pending: string, texts: seq<string>): (requests: seq<string>)
    ensures Complete(requests)
    decreases |texts|
  {
    if texts == [] then []
    else
      var full := pending + CText(texts[0]);
      if BlankAt(full) >= 0 then [full] + Requests("", texts[1..]) else Requests(full, texts[1..])
  }

  /** Of a read, what stands behind its first NUL is lost. */
  lemma NulCutsRead(pending: string, text: string, lost: string, texts: seq<string>)
    requires NulFreeText(text)
    ensures Requests(pending, [text + "\0" + lost] + texts) == Requests(pending, [text] + texts)
  {
    CTextEnds(text, lost);
    assert ([text + "\0" + lost] + texts)[1..] == texts == ([text] + texts)[1..];
  }

  lemma {:induction false} CTextEnds(text: string, lost: string)
    requires NulFreeText(text)
    ensures CText(text + "\0" + lost) == text && CText(text) == text
  {
    if text == [] {
      assert (text + "\0" + lost)[0] == '\0';
    } else {
      assert (text + "\0" + lost)[1..] == text[1..] + "\0" + lost;
      CTextEnds(text[1..], lost);
    }
  }

  /** The requests one by one, until the connection is closed. */
  function HandleAll(env: Env, c: Conn, requests: seq<string>): Conn
    requires Complete(requests)
    decreases |requests|
  {
    if requests == [] || !c.open then c
    else HandleAll(env, OnRequest(env, c.(full := requests[0])), requests[1..])
  }

  lemma RequestLeavesNothing(env: Env, c: Conn)
    requires |c.full| >= 2
    ensures OnRequest(env, c).full == ""
  {
  }

  /** Over every run, whatever is read: a connection is the same as its requests one by one,
      however these are cut into reads. */
  lemma {:induction false} RunIsRequests(env: Env, c: Conn, texts: seq<string>)
    ensures RunFrom(env, c, texts).(full := "")
            == HandleAll(env, c.(full := ""), Requests(c.full, texts)).(full := "")
    decreases |texts|
  {
    if texts != [] && c.open {
      var c' := c.(full := c.full + CText(texts[0]));
      if BlankAt(c'.full) >= 0 {
        var next := OnRequest(env, c');
        RequestLeavesNothing(env, c');
        RunIsRequests(env, next, texts[1..]);
        assert Requests(c.full, texts)[1..] == Requests("", texts[1..]);
        assert next.(full := "") == next;
      } else {
        RunIsRequests(env, c', texts[1..]);
      }
    }
  }

  // ---- what may be forwarded --------------------------------------------------------

  /** Each text sent is that of a request that is not refused, with the field added; the
      requests are taken in order, and none twice. */
  predicate SentInOrder(env: Env, sent: seq<(string, string)>, requests: seq<string>)
    requires Complete(requests)
    decreases |requests|
  {
    || sent == []
    || (requests != []
        && (|| SentInOrder(env, sent, requests[1..])
            || (SentFor(env, sent[0].1, requests[0]) && SentInOrder(env, sent[1..], requests[1..]))))
  }

  predicate SentFor(env: Env, text: string, full: string)
    requires |full| >= 2
  {
    text == ForwardText(env, full) && Refusal(env, true, full) == None
  }

  lemma ForwardSends(env: Env, c: Conn, to: string, persistent: bool)
    requires |c.full| >= 2
    ensures Forward(env, c, to, persistent).host == Some(to)
    ensures Forward(env, c, to, persistent).toHost
            == c.toHost + if env.hostWrites(c.forwards) then [(to, ForwardText(env, c.full))] else []
  {
  }

  lemma NotRefused(env: Env, connected: bool, full: string)
    requires Refusal(env, connected, full) == None
    ensures Refusal(env, true, full) == None
    ensures Headers(full).host.Some? && Headers(full).host.value !in env.sites
  {
  }

  /** A request sends at most its own text, and only if it is accepted. */
  lemma ToHostStep(env: Env, c: Conn) returns (own: seq<(string, string)>)
    requires |c.full| >= 2
    ensures OnRequest(env, c).toHost == c.toHost + own
    ensures own == [] || (own == [(OrEmpty(OnRequest(env, c).host), ForwardText(env, c.full))]
                          && Refusal(env, true, c.full) == None)
    ensures if c.host.Some? then OnRequest(env, c).host == c.host
            else if own == [] then OnRequest(env, c).host.Some? ==> OnRequest(env, c).host.value !in env.sites
            else OnRequest(env, c).host.Some? && OnRequest(env, c).host.value !in env.sites
    ensures own != [] ==> OnRequest(env, c).host.Some?
  {
    own := [];
    if Refusal(env, c.host.Some?, c.full).None? {
      NotRefused(env, c.host.Some?, c.full);
      var to := if c.host.Some? then c.host.value else OrEmpty(Headers(c.full).host);
      ForwardSends(env, c, to, Headers(c.full).persistent);
      if env.hostWrites(c.forwards) { own := [(to, ForwardText(env, c.full))]; }
    }
  }

  /** What the next request sends comes before what the later ones do. */
  lemma SentBefore(env: Env, own: seq<(string, string)>, later: seq<(string, string)>, requests: seq<string>)
    requires Complete(requests) && requests != [] && SentInOrder(env, later, requests[1..])
    requires own == [] || (|own| == 1 && SentFor(env, own[0].1, requests[0]))
    ensures SentInOrder(env, own + later, requests)
  {
    if own == [] {
      assert own + later == later;
    } else {
      assert (own + later)[1..] == later;
    }
  }

  lemma HandleNext(env: Env, c: Conn, requests: seq<string>) returns (next: Conn, own: seq<(string, string)>)
    requires Complete(requests) && requests != [] && c.open
    ensures HandleAll(env, c, requests) == HandleAll(env, next, requests[1..])
    ensures next.toHost == c.toHost + own && (own == [] || (|own| == 1 && SentFor(env, own[0].1, requests[0])))
  {
    var c' := c.(full := requests[0]);
    next := OnRequest(env, c');
    own := ToHostStep(env, c');
  }

  lemma Associates<T>(a: seq<T>, b: seq<T>, c: seq<T>)
    ensures a + b + c == a + (b + c)
  {
  }

  lemma {:induction false} AllSentInOrder(env: Env, c: Conn, requests: seq<string>) returns (added: seq<(string, string)>)
    requires Complete(requests)
    ensures HandleAll(env, c, requests).toHost == c.toHost + added && SentInOrder(env, added, requests)
    decreases |requests|
  {
    if requests == [] || !c.open {
      added := [];
    } else {
      var next, own := HandleNext(env, c, requests);
      var later := AllSentInOrder(env, next, requests[1..]);
      added := own + later;
      SentBefore(env, own, later, requests);
      Associates(c.toHost, own, later);
    }
  }

  /** Over every run, whatever is read: the texts written to the remote host are those of
      requests that were read, with the field added, in their order, each once, and none of a
      refused request. */
  lemma OnlyAcceptableForwarded(env: Env, garbage: string, texts: seq<string>)
    ensures SentInOrder(env, RunFrom(env, Fresh(garbage), texts).toHost, Requests("", texts))
  {
    RunIsRequests(env, Fresh(garbage), texts);
    var added := AllSentInOrder(env, Fresh(garbage), Requests("", texts));
    assert [] + added == added;
  }

  /** All texts go to the host of the connection, and that is not a forbidden one. */
  predicate OneAllowedHost(env: Env, c: Conn) {
    && (c.host.Some? ==> c.host.value !in env.sites)
    && forall i :: 0 <= i < |c.toHost| ==> c.host == Some(c.toHost[i].0)
  }

  lemma OneHostStep(env: Env, c: Conn, chunk: string)
    requires OneAllowedHost(env, c)
    ensures OneAllowedHost(env, OnRead(env, c, chunk))
  {
    var c' := c.(full := c.full + CText(chunk));
    if BlankAt(c'.full) >= 0 { var _ := ToHostStep(env, c'); }
  }

  /** Over every run: all texts of a connection go to one host, even when later requests name
      another, and never to a forbidden one. */
  lemma {:induction false} OneHostPerConnection(env: Env, c: Conn, texts: seq<string>)
    requires OneAllowedHost(env, c)
    ensures OneAllowedHost(env, RunFrom(env, c, texts))
    decreases |texts|
  {
    if texts != [] && c.open {
      OneHostStep(env, c, texts[0]);
      OneHostPerConnection(env, OnRead(env, c, texts[0]), texts[1..]);
    }
  }

  // ---- requests in their usual shape ------------------------------------------------

  datatype Request = Request(line: string, fields: seq<string>)

  function TextOf(r: Request): string { RequestText(r.line, r.fields) }

  /** A first line, and fields that have names. */
  predicate WellFormed(r: Request) {
    OneLine(r.line) && AllNamed(r.fields)
  }

  function MethodOf(r: Request): Option<string> { FirstOf(r.line, r.fields) }

  function VersionOf(r: Request): Option<string> { ThirdOf(r.line, r.fields) }

  function WithField(r: Request, field: string): Request { r.(fields := r.fields + [field]) }

  /** The forwarded text is the request with one field added: the old lines are unchanged, one
      blank line closes it, and the field names the client and the proxy. */
  lemma ForwardAddsField(env: Env, r: Request)
    ensures ForwardText(env, TextOf(r)) == TextOf(WithField(r, ForwardedField(env)))
    ensures Addresses(env) ==> AddedFor(env, ForwardedField(env))
    ensures Addresses(env) && WellFormed(r) ==>
              && WellFormed(WithField(r, ForwardedField(env)))
              && forall i: nat :: BlankHere(ForwardText(env, TextOf(r)), i) <==> i + 4 == |ForwardText(env, TextOf(r))|
  {
    TextWithField(env, r);
    if Addresses(env) {
      FieldIsAdded(env);
      if WellFormed(r) { OneBlank(WithField(r, ForwardedField(env))); }
    }
  }

  lemma TextWithField(env: Env, r: Request)
    ensures ForwardText(env, TextOf(r)) == TextOf(WithField(r, ForwardedField(env)))
  {
    LinesAppend(r.fields, ForwardedField(env));
    var full := TextOf(r);
    assert full[..|full| - 2] == r.line + CRLF + Lines(r.fields);
  }

  lemma OneBlank(r: Request)
    requires WellFormed(r)
    ensures forall i: nat :: BlankHere(TextOf(r), i) <==> i + 4 == |TextOf(r)|
  {
    NamedLines(r.fields);
    forall i: nat
      ensures BlankHere(TextOf(r), i) <==> i + 4 == |TextOf(r)|
    {
      BlankEndsRequest(r.line, r.fields, i);
    }
  }

  lemma {:induction false} CRAfterLine(full: string, p: nat, stop: nat)
    requires p <= stop < |full| && full[stop] == '\r' && forall i :: p <= i < stop ==> full[i] != '\r'
    ensures FirstCR(full, p) == stop
    decreases stop - p
  {
    if p < stop { CRAfterLine(full, p + 1, stop); }
  }

  predicate StaysOpen(r: Request) { VersionOf(r) == Some("HTTP/1.1") || KeepsAlive(r.fields) }

  /** What the proxy makes of a request in its usual shape. */
  lemma ReadsRequest(r: Request)
    requires WellFormed(r)
    ensures var full := TextOf(r);
            && FirstLine(full) == r.line && Word1(full) == MethodOf(r) && Word3(full) == VersionOf(r)
            && Headers(full) == Scan(HostOf(r.fields), StaysOpen(r))
  {
    var full := TextOf(r);
    assert full == r.line + CRLF + (Lines(r.fields) + CRLF);
    LineWords(r.line, r.fields);
    CRAfterLine(full, 0, |r.line|);
    assert full[..|r.line|] == r.line;
    ScanFindsLastHost(r.line, r.fields, VersionOf(r) == Some("HTTP/1.1"));
  }

  predicate KnownMethod(r: Request) { MethodOf(r) == Some("GET") || MethodOf(r) == Some("HEAD") }

  predicate KnownVersion(r: Request) { VersionOf(r) == Some("HTTP/1.0") || VersionOf(r) == Some("HTTP/1.1") }

  predicate ForbiddenHost(env: Env, r: Request) {
    HostOf(r.fields).Some? && HostOf(r.fields).value in env.sites
  }

  /** The answer a request gets without reaching the host, from its lines alone. */
  function Verdict(env: Env, connected: bool, r: Request): Option<int> {
    if MethodOf(r) != Some("GET") && MethodOf(r) != Some("HEAD") then Some(501)
    else if VersionOf(r) != Some("HTTP/1.0") && VersionOf(r) != Some("HTTP/1.1") then Some(400)
    else
      match HostOf(r.fields)
      case None => Some(400)
      case Some(host) =>
        if host in env.sites then Some(403)
        else if !connected && !env.resolves(host) then Some(400)
        else None
  }

  /** The code is 501 exactly for a method other than GET and HEAD, 403 exactly for a forbidden
      host in a request that is otherwise in order, and 400 for whatever else is refused. */
  lemma VerdictIsRefusal(env: Env, connected: bool, r: Request)
    requires WellFormed(r)
    ensures Refusal(env, connected, TextOf(r)) == Verdict(env, connected, r)
    ensures Verdict(env, connected, r) == Some(501) <==> !KnownMethod(r)
    ensures Verdict(env, connected, r) == Some(403) <==> KnownMethod(r) && KnownVersion(r) && ForbiddenHost(env, r)
    ensures Verdict(env, connected, r) == None
            <==> KnownMethod(r) && KnownVersion(r) && HostOf(r.fields).Some? && !ForbiddenHost(env, r)
                 && (connected || env.resolves(HostOf(r.fields).value))
    ensures Verdict(env, connected, r).Some? ==> Verdict(env, connected, r).value in {501, 403, 400}
  {
    ReadsRequest(r);
  }

  lemma ThreeDigits()
    ensures PrintLong(501) == "501" && PrintLong(403) == "403" && PrintLong(400) == "400"
  {
    assert Decimal(501) == Decimal(50) + "1" && Decimal(50) == Decimal(5) + "0";
    assert Decimal(403) == Decimal(40) + "3" && Decimal(400) == Decimal(40) + "0" && Decimal(40) == Decimal(4) + "0";
  }

  lemma CodeIsPrinted(code: int)
    requires code in {501, 403, 400}
    ensures CodeText(code) == PrintLong(code)
  {
    ThreeDigits();
  }

  /** A refused request is logged once with its code and length 0 and answered with an error
      page, and nothing is written to any host; after a 403, and only then, the connection ends. */
  lemma Refused(env: Env, c: Conn, r: Request, code: int)
    requires WellFormed(r) && c.full == TextOf(r) && Verdict(env, c.host.Some?, r) == Some(code)
    ensures OnRequest(env, c)
            == c.(log := c.log + [LogLine(r.line, PrintLong(code), 0)],
                  toClient := c.toClient + [ErrorPage(code, OrEmpty(VersionOf(r)))],
                  full := "", open := c.open && code != 403)
    ensures PrintLong(code) == if !KnownMethod(r) then "501"
                               else if KnownVersion(r) && ForbiddenHost(env, r) then "403" else "400"
  {
    VerdictIsRefusal(env, c.host.Some?, r);
    ReadsRequest(r);
    CodeIsPrinted(code);
    ThreeDigits();
  }

  /** Where the next forwarded request goes. */
  function Destination(host: Option<string>, r: Request): string {
    if host.Some? then host.value else OrEmpty(HostOf(r.fields))
  }

  lemma AcceptedIsForwarded(env: Env, c: Conn, r: Request)
    requires WellFormed(r) && c.full == TextOf(r) && Verdict(env, c.host.Some?, r) == None
    ensures OnRequest(env, c) == Forward(env, c, Destination(c.host, r), StaysOpen(r))
    ensures FirstLine(c.full) == r.line
  {
    VerdictIsRefusal(env, c.host.Some?, r);
    ReadsRequest(r);
  }

  lemma ForwardWrites(env: Env, c: Conn, to: string, persistent: bool)
    requires |c.full| >= 2 && env.hostWrites(c.forwards)
    ensures Forward(env, c, to, persistent).host == Some(to)
    ensures Forward(env, c, to, persistent).toHost == c.toHost + [(to, ForwardText(env, c.full))]
    ensures Forward(env, c, to, persistent).forwards == c.forwards + 1
  {
  }

  /** Every other request goes, with the field added, to the host of the connection. That is the
      host it names exactly when none was connected before or the same one was. */
  lemma Forwarded(env: Env, c: Conn, r: Request)
    requires WellFormed(r) && c.full == TextOf(r)
    requires Verdict(env, c.host.Some?, r) == None && env.hostWrites(c.forwards)
    ensures OnRequest(env, c).toHost
            == c.toHost + [(Destination(c.host, r), TextOf(WithField(r, ForwardedField(env))))]
    ensures Addresses(env) ==> AddedFor(env, ForwardedField(env))
    ensures OnRequest(env, c).host == Some(Destination(c.host, r)) && OnRequest(env, c).forwards == c.forwards + 1
    ensures HostOf(r.fields) == Some(Destination(c.host, r)) <==> c.host.None? || c.host == HostOf(r.fields)
  {
    AcceptedIsForwarded(env, c, r);
    VerdictIsRefusal(env, c.host.Some?, r);
    ForwardWrites(env, c, Destination(c.host, r), StaysOpen(r));
    ForwardAddsField(env, r);
  }

  // ---- how the response goes --------------------------------------------------------

  /** The first chunk has a Content-Length or its blank line. */
  predicate GoodResponse(chunks: seq<string>) {
    chunks == [] || ContentLengthAt(CText(chunks[0]), 0, "").Some? || BlankAt(CText(chunks[0])) >= 0
  }

  predicate Written(env: Env, k: nat) {
    forall j :: 0 <= j < |env.responses(k)| ==> env.clientWrites(k, j)
  }

  /** The browser gets the whole response to the k-th forwarded request. */
  predicate Answered(env: Env, k: nat) { GoodResponse(env.responses(k)) && Written(env, k) }

  function Chunks(texts: seq<string>): seq<ClientWrite> {
    if texts == [] then [] else [Chunk(texts[0])] + Chunks(texts[1..])
  }

  /** The first chunk from j on whose write to the browser fails, if any. */
  function WrittenUpTo(env: Env, k: nat, chunks: seq<string>, j: nat): (f: nat)
    requires j <= |chunks|
    ensures j <= f <= |chunks| && (f < |chunks| ==> !env.clientWrites(k, f))
    ensures forall i :: j <= i < f ==> env.clientWrites(k, i)
    decreases |chunks| - j
  {
    if j == |chunks| || !env.clientWrites(k, j) then j else WrittenUpTo(env, k, chunks, j + 1)
  }

  /** What strlen counts in the chunks. */
  function TextLength(chunks: seq<string>): nat {
    if chunks == [] then 0 else |CText(chunks[0])| + TextLength(chunks[1..])
  }

  /** After the first chunk only the length counted and the texts sent change. */
  lemma {:induction false} RelayLater(env: Env, k: nat, line: string, chunks: seq<string>, j: nat, r: Relay)
    requires 0 < j <= |chunks| && !r.failed && !r.crashed
    ensures var e := RelayFrom(env, k, line, chunks, j, r);
            && !e.crashed && e.code == r.code && e.hasLength == r.hasLength && e.log == r.log
            && (e.failed <==> exists i :: j <= i < |chunks| && !env.clientWrites(k, i))
            && e.sent == r.sent + Chunks(chunks[j..WrittenUpTo(env, k, chunks, j)])
            && (!e.failed ==> e.length == r.length + if r.hasLength then 0 else TextLength(chunks[j..]))
    decreases |chunks| - j
  {
    if j < |chunks| {
      RoundKeeps(line, r, chunks, j);
      assert chunks[j..][0] == chunks[j] && chunks[j..][1..] == chunks[j + 1..];
      var f := WrittenUpTo(env, k, chunks, j);
      if env.clientWrites(k, j) {
        assert chunks[j..f][0] == chunks[j] && chunks[j..f][1..] == chunks[j + 1..f];
        var r' := RelayNext(r, chunks[j]);
        RelayLater(env, k, line, chunks, j + 1, r'.(sent := r'.sent + [Chunk(chunks[j])]));
      }
    }
  }

  lemma RelayBegins(env: Env, k: nat, line: string, code: string)
    requires env.responses(k) != []
    ensures var chunks, e := env.responses(k), RelayAll(env, k, line, code);
            var first := RelayFirst(line, NewRelay(code), chunks[0]);
            && first.crashed == !GoodResponse(chunks) && first.sent == []
            && e == if first.crashed then first
                    else if env.clientWrites(k, 0) then RelayFrom(env, k, line, chunks, 1, first.(sent := [Chunk(chunks[0])]))
                    else first.(failed := true)
  {
    assert [] + [Chunk(env.responses(k)[0])] == [Chunk(env.responses(k)[0])];
  }

  /** What the browser gets of a response: the chunks up to the first failing write. */
  lemma RelaySends(env: Env, k: nat, line: string, code: string)
    requires GoodResponse(env.responses(k))
    ensures RelayAll(env, k, line, code).sent == Chunks(env.responses(k)[..WrittenUpTo(env, k, env.responses(k), 0)])
    ensures Written(env, k) <==> WrittenUpTo(env, k, env.responses(k), 0) == |env.responses(k)|
  {
    var chunks := env.responses(k);
    if chunks != [] {
      RelayBegins(env, k, line, code);
      var first := RelayFirst(line, NewRelay(code), chunks[0]);
      if env.clientWrites(k, 0) {
        RelayLater(env, k, line, chunks, 1, first.(sent := [Chunk(chunks[0])]));
        var f := WrittenUpTo(env, k, chunks, 1);
        assert chunks[..f][0] == chunks[0] && chunks[..f][1..] == chunks[1..f];
      }
    }
  }

  /** The program crashes exactly when the first chunk has neither a Content-Length nor a blank
      line; otherwise the response fails exactly when a write to the browser does. */
  lemma RelayOutcome(env: Env, k: nat, line: string, code: string)
    ensures var e := RelayAll(env, k, line, code);
            && (e.crashed <==> !GoodResponse(env.responses(k)))
            && (e.failed <==> GoodResponse(env.responses(k)) && !Written(env, k))
            && |e.log| == (if e.hasLength then 1 else 0)
            && (e.crashed ==> e.log == [] && e.sent == [])
  {
    var chunks := env.responses(k);
    if chunks != [] {
      RelayBegins(env, k, line, code);
      var first := RelayFirst(line, NewRelay(code), chunks[0]);
      if !first.crashed && env.clientWrites(k, 0) {
        RelayLater(env, k, line, chunks, 1, first.(sent := [Chunk(chunks[0])]));
      }
    }
  }

  /** A forwarded request gets the response, chunk by chunk up to the first failing write; if
      all writes work it gets the whole of it, and then the connection stays open exactly for
      HTTP/1.1 or a field that asks to keep it alive. A response whose first chunk has neither a
      Content-Length nor a blank line crashes the program instead: nothing of it is sent or
      logged. */
  lemma ResponseRelayed(env: Env, c: Conn, r: Request)
    requires WellFormed(r) && c.full == TextOf(r) && !c.crashed
    requires Verdict(env, c.host.Some?, r) == None && env.hostWrites(c.forwards)
    ensures OnRequest(env, c).crashed <==> !GoodResponse(env.responses(c.forwards))
    ensures OnRequest(env, c).open == (Answered(env, c.forwards) && StaysOpen(r))
    ensures StaysOpen(r) <==> VersionOf(r) == Some("HTTP/1.1") || KeepsAlive(r.fields)
    ensures Written(env, c.forwards) <==>
              WrittenUpTo(env, c.forwards, env.responses(c.forwards), 0) == |env.responses(c.forwards)|
    ensures GoodResponse(env.responses(c.forwards)) ==>
              OnRequest(env, c).toClient
              == c.toClient + Chunks(env.responses(c.forwards)[..WrittenUpTo(env, c.forwards, env.responses(c.forwards), 0)])
    ensures !GoodResponse(env.responses(c.forwards)) ==>
              OnRequest(env, c).toClient == c.toClient && OnRequest(env, c).log == c.log
  {
    AcceptedIsForwarded(env, c, r);
    RelayOutcome(env, c.forwards, FirstLine(c.full), c.responseCode);
    if GoodResponse(env.responses(c.forwards)) { RelaySends(env, c.forwards, FirstLine(c.full), c.responseCode); }
  }

  // ---- a connection of well-formed requests -----------------------------------------

  predicate AllWellFormed(requests: seq<Request>) {
    forall i :: 0 <= i < |requests| ==> WellFormed(requests[i])
  }

  function TextsOf(requests: seq<Request>): seq<string> {
    if requests == [] then [] else [TextOf(requests[0])] + TextsOf(requests[1..])
  }

  /** What a connection sends on, and where, from the lines of its requests: the accepted ones
      in order, each with the field added, all to the host of the first; it stops at a 403, at a
      failed write, at a crash, or behind a request that does not keep the connection. */
  function Deliveries(env: Env, field: string, host: Option<string>, k: nat, requests: seq<Request>): seq<(string, string)>
    decreases |requests|
  {
    if requests == [] then []
    else
      var r := requests[0];
      match Verdict(env, host.Some?, r)
      case Some(code) => if code == 403 then [] else Deliveries(env, field, host, k, requests[1..])
      case None =>
        if !env.hostWrites(k) then []
        else
          var to := Destination(host, r);
          [(to, TextOf(WithField(r, field)))]
          + if Answered(env, k) && StaysOpen(r) then Deliveries(env, field, Some(to), k + 1, requests[1..]) else []
  }

  lemma HasBlank(r: Request)
    requires WellFormed(r)
    ensures BlankAt(TextOf(r)) == |TextOf(r)| - 4 >= 0
  {
    BlankBeforeBody(r.line, r.fields, "");
    assert MessageText(r.line, r.fields, "") == TextOf(r);
  }

  lemma {:induction false} TextsComplete(requests: seq<Request>)
    requires AllWellFormed(requests)
    ensures Complete(TextsOf(requests)) && |TextsOf(requests)| == |requests|
  {
    if requests != [] {
      HasBlank(requests[0]);
      TextsComplete(requests[1..]);
    }
  }

  /** When the write to the host fails, the connection ends without an answer or a log line. */
  lemma UnwrittenCloses(env: Env, c: Conn, r: Request)
    requires WellFormed(r) && c.full == TextOf(r)
    requires Verdict(env, c.host.Some?, r) == None && !env.hostWrites(c.forwards)
    ensures OnRequest(env, c) == c.(host := Some(Destination(c.host, r)), open := false, full := "")
  {
    AcceptedIsForwarded(env, c, r);
  }

  /** What one request changes of the state that the later requests meet. */
  predicate Accounted(env: Env, field: string, c: Conn, r: Request, next: Conn) {
    match Verdict(env, c.host.Some?, r)
    case Some(code) =>
      next.toHost == c.toHost && next.host == c.host && next.forwards == c.forwards
      && next.open == (code != 403) && !next.crashed
    case None =>
      if !env.hostWrites(c.forwards) then next.toHost == c.toHost && !next.open
      else
        && next.toHost == c.toHost + [(Destination(c.host, r), TextOf(WithField(r, field)))]
        && next.host == Some(Destination(c.host, r)) && next.forwards == c.forwards + 1
        && next.open == (Answered(env, c.forwards) && StaysOpen(r)) && (next.open ==> !next.crashed)
  }

  lemma RequestAccounted(env: Env, c: Conn, r: Request)
    requires WellFormed(r) && c.full == TextOf(r) && c.open && !c.crashed
    ensures Accounted(env, ForwardedField(env), c, r, OnRequest(env, c))
  {
    match Verdict(env, c.host.Some?, r) {
      case Some(code) => Refused(env, c, r, code);
      case None =>
        if env.hostWrites(c.forwards) {
          Forwarded(env, c, r);
          ResponseRelayed(env, c, r);
        } else {
          UnwrittenCloses(env, c, r);
        }
    }
  }

  lemma DeliveriesStep(env: Env, field: string, c: Conn, next: Conn, requests: seq<Request>, sent: seq<(string, string)>)
    requires requests != [] && Accounted(env, field, c, requests[0], next)
    requires sent == next.toHost + if next.open then Deliveries(env, field, next.host, next.forwards, requests[1..]) else []
    ensures sent == c.toHost + Deliveries(env, field, c.host, c.forwards, requests)
  {
  }

  lemma {:induction false} DeliversExactly(env: Env, c: Conn, requests: seq<Request>)
    requires c.open && !c.crashed && AllWellFormed(requests) && Complete(TextsOf(requests))
    ensures HandleAll(env, c, TextsOf(requests)).toHost == c.toHost + Deliveries(env, ForwardedField(env), c.host, c.forwards, requests)
    decreases |requests|
  {
    if requests != [] {
      var rest := requests[1..];
      var c' := c.(full := TextOf(requests[0]));
      RequestAccounted(env, c', requests[0]);
      assert Accounted(env, ForwardedField(env), c, requests[0], OnRequest(env, c'));
      TextsComplete(rest);
      assert TextsOf(requests)[1..] == TextsOf(rest);
      if OnRequest(env, c').open { DeliversExactly(env, OnRequest(env, c'), rest); }
      DeliveriesStep(env, ForwardedField(env), c, OnRequest(env, c'), requests, HandleAll(env, OnRequest(env, c'), TextsOf(rest)).toHost);
    }
  }

  // ---- requests cut into reads

  /** Non-empty pieces that make up the requests, each ending with its blank line. */
  predicate CutsOf(cuts: seq<seq<string>>, requests: seq<Request>) {
    && |cuts| == |requests|
    && forall i :: 0 <= i < |cuts| ==> "" !in cuts[i] && Concat(cuts[i]) == TextOf(requests[i])
  }

  function Reads(cuts: seq<seq<string>>): seq<string> {
    if cuts == [] then [] else cuts[0] + Reads(cuts[1..])
  }

  lemma {:induction false} CollectChunks(pending: string, chunks: seq<string>, more: seq<string>, full: string)
    requires chunks != [] && "" !in chunks && pending + Concat(chunks) == full && NulFreeText(full)
    requires BlankAt(full) >= 0 && forall k :: 0 <= k < |full| ==> BlankAt(full[..k]) < 0
    ensures Requests(pending, chunks + more) == [full] + Requests("", more)
    decreases |chunks|
  {
    var chunk, rest := chunks[0], chunks[1..];
    assert (chunks + more)[0] == chunk && (chunks + more)[1..] == rest + more;
    assert full == pending + chunk + Concat(rest);
    assert full[..|pending + chunk|] == pending + chunk;
    assert forall i :: 0 <= i < |chunk| ==> chunk[i] == full[|pending| + i];
    assert CText(chunk) == chunk;
    if rest == [] {
      assert rest + more == more && pending + chunk == full;
    } else {
      assert Concat(rest) == rest[0] + Concat(rest[1..]) && rest[0] in chunks;
      CollectChunks(pending + chunk, rest, more, full);
    }
  }

  lemma NoBlankYet(r: Request, k: nat)
    requires WellFormed(r) && k < |TextOf(r)|
    ensures BlankAt(TextOf(r)[..k]) < 0
  {
    var i := BlankAt(TextOf(r)[..k]);
    NamedLines(r.fields);
    if i >= 0 { BlankEndsRequest(r.line, r.fields, i); }
  }

  /** However the requests are cut into reads, they are handled whole and once. */
  lemma {:induction false} CutsAreRequests(cuts: seq<seq<string>>, requests: seq<Request>)
    requires AllWellFormed(requests) && CutsOf(cuts, requests)
    ensures Requests("", Reads(cuts)) == TextsOf(requests)
    decreases |cuts|
  {
    if cuts != [] {
      var r := requests[0];
      HasBlank(r);
      HeadNulFree(r.line, r.fields);
      forall k | 0 <= k < |TextOf(r)|
        ensures BlankAt(TextOf(r)[..k]) < 0
      {
        NoBlankYet(r, k);
      }
      CollectChunks("", cuts[0], Reads(cuts[1..]), TextOf(r));
      CutsAreRequests(cuts[1..], requests[1..]);
    }
  }

  /** Over every connection of well-formed requests, each cut anywhere: what is written to the
      remote host is exactly the accepted requests, in order, with the field added. */
  lemma ForwardedExactly(env: Env, garbage: string, requests: seq<Request>, cuts: seq<seq<string>>)
    requires AllWellFormed(requests) && CutsOf(cuts, requests)
    ensures RunFrom(env, Fresh(garbage), Reads(cuts)).toHost == Deliveries(env, ForwardedField(env), None, 0, requests)
    ensures Addresses(env) ==> AddedFor(env, ForwardedField(env))
  {
    RunIsRequests(env, Fresh(garbage), Reads(cuts));
    CutsAreRequests(cuts, requests);
    TextsComplete(requests);
    DeliversExactly(env, Fresh(garbage), requests);
    if Addresses(env) { FieldIsAdded(env); }
  }

  // ---- a second host

  const GET_LINE := "GET / HTTP/1.1"

  function GetFrom(host: string): Request { Request(GET_LINE, ["Host: " + host]) }

  lemma ThreeWords(a: string, b: string, c: string)
    requires IsWord(a) && IsWord(b) && IsWord(c)
    ensures Word1(a + [' '] + (b + [' '] + c)) == Some(a) && Word3(a + [' '] + (b + [' '] + c)) == Some(c)
  {
    var tail := b + [' '] + c;
    ScanFirstWord(a, ' ', tail);
    ScanSpaced(' ', tail);
    ScanFirstWord(b, ' ', c);
    ScanSpaced(' ', c);
    ScanOneWord(c);
  }

  lemma GetLineSplit()
    ensures GET_LINE == "GET" + [' '] + ("/" + [' '] + "HTTP/1.1")
  {
  }

  lemma GetIsLine()
    ensures OneLine(GET_LINE)
  {
  }

  lemma GetLineWords()
    ensures Word1(GET_LINE) == Some("GET") && Word3(GET_LINE) == Some("HTTP/1.1")
  {
    GetLineSplit();
    ThreeWords("GET", "/", "HTTP/1.1");
  }

  lemma HostFieldWords(host: string)
    requires IsWord(host) && NulFreeText(host)
    ensures Named("Host: " + host) && HostOf(["Host: " + host]) == Some(host)
  {
    var field := "Host: " + host;
    assert field == "Host:" + [' '] + host;
    ScanFirstWord("Host:", ' ', host);
    ScanSpaced(' ', host);
    ScanOneWord(host);
    assert LastHostAt([field], 0);
    HostIsLastValue([field], 0);
  }

  lemma GetIsAccepted(env: Env, connected: bool, host: string)
    requires IsWord(host) && NulFreeText(host) && host !in env.sites && (connected || env.resolves(host))
    ensures WellFormed(GetFrom(host)) && Verdict(env, connected, GetFrom(host)) == None
    ensures StaysOpen(GetFrom(host)) && HostOf(GetFrom(host).fields) == Some(host)
  {
    GetIsLine();
    GetLineWords();
    HostFieldWords(host);
  }

  /** For any two hosts: a request for b on a connection to a goes to a. */
  lemma SecondHostIgnored(env: Env, garbage: string, a: string, b: string)
    requires IsWord(a) && IsWord(b) && NulFreeText(a) && NulFreeText(b) && a != b
    requires a !in env.sites && b !in env.sites && env.resolves(a)
    requires env.hostWrites(0) && env.hostWrites(1) && Answered(env, 0)
    ensures var sent := RunFrom(env, Fresh(garbage), [TextOf(GetFrom(a)), TextOf(GetFrom(b))]).toHost;
            |sent| == 2 && sent[1] == (a, ForwardText(env, TextOf(GetFrom(b))))
  {
    GetIsAccepted(env, false, a);
    GetIsAccepted(env, true, b);
    TwoReads(env, garbage, GetFrom(a), GetFrom(b));
    ForwardAddsField(env, GetFrom(b));
    SecondDelivery(env, GetFrom(a), GetFrom(b), a);
  }

  lemma ReadsOfTwo(s: string, t: string)
    ensures Reads([[s], [t]]) == [s, t]
  {
    var cuts := [[s], [t]];
    assert cuts[1..] == [[t]] && [[t]][1..] == [];
    assert Reads([[t]]) == [t] + Reads([]);
  }

  lemma TwoReads(env: Env, garbage: string, r: Request, q: Request)
    requires WellFormed(r) && WellFormed(q)
    ensures RunFrom(env, Fresh(garbage), [TextOf(r), TextOf(q)]).toHost == Deliveries(env, ForwardedField(env), None, 0, [r, q])
  {
    var requests, cuts := [r, q], [[TextOf(r)], [TextOf(q)]];
    ConcatOne(TextOf(r));
    ConcatOne(TextOf(q));
    HasBlank(r);
    HasBlank(q);
    ForwardedExactly(env, garbage, requests, cuts);
    ReadsOfTwo(TextOf(r), TextOf(q));
  }

  lemma SecondDelivery(env: Env, r: Request, q: Request, host: string)
    requires Verdict(env, false, r) == None && Verdict(env, true, q) == None
    requires env.hostWrites(0) && env.hostWrites(1) && Answered(env, 0) && StaysOpen(r)
    requires HostOf(r.fields) == Some(host)
    ensures var sent := Deliveries(env, ForwardedField(env), None, 0, [r, q]);
            |sent| == 2 && sent[1] == (host, TextOf(WithField(q, ForwardedField(env))))
  {
    var rest := [r, q][1..];
    assert rest == [q] && rest[1..] == [];
    assert Deliveries(env, ForwardedField(env), Some(host), 2, []) == [];
  }
}
