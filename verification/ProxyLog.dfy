/** What the hw5 proxy logs, over every run of one connection. */
module ProxyLog {
  import opened Text
  import opened HttpText
  import opened Proxy
  import opened ProxyRuns

  // ---- crashes ----------------------------------------------------------------------

  /** Since forward number `from`, the program has crashed exactly if some response was bad. */
  ghost predicate CrashKnown(env: Env, from: nat, c: Conn) {
    && (c.crashed ==> !c.open)
    && (c.crashed <==> exists k :: from <= k < c.forwards && !GoodResponse(env.responses(k)))
  }

  lemma ForwardCrashes(env: Env, c: Conn, to: string, persistent: bool)
    requires |c.full| >= 2 && !c.crashed
    ensures var next := Forward(env, c, to, persistent);
            if env.hostWrites(c.forwards)
            then next.forwards == c.forwards + 1
                 && (next.crashed <==> !GoodResponse(env.responses(c.forwards))) && (next.crashed ==> !next.open)
            else next.forwards == c.forwards && !next.crashed
  {
    RelayOutcome(env, c.forwards, FirstLine(c.full), c.responseCode);
  }

  lemma GoesOn(env: Env, c: Conn) returns (to: string, persistent: bool)
    requires |c.full| >= 2 && Refusal(env, c.host.Some?, c.full).None?
    ensures OnRequest(env, c) == Forward(env, c, to, persistent)
  {
    to := if c.host.Some? then c.host.value else OrEmpty(Headers(c.full).host);
    persistent := Headers(c.full).persistent;
  }

  lemma StaysKnown(env: Env, from: nat, c: Conn, next: Conn)
    requires !c.crashed && from <= c.forwards && CrashKnown(env, from, c)
    requires || (next.forwards == c.forwards && !next.crashed)
             || (next.forwards == c.forwards + 1 && (next.crashed ==> !next.open)
                 && (next.crashed <==> !GoodResponse(env.responses(c.forwards))))
    ensures CrashKnown(env, from, next)
  {
  }

  lemma CrashStep(env: Env, from: nat, c: Conn)
    requires |c.full| >= 2 && !c.crashed && from <= c.forwards && CrashKnown(env, from, c)
    ensures CrashKnown(env, from, OnRequest(env, c)) && from <= OnRequest(env, c).forwards
  {
    if Refusal(env, c.host.Some?, c.full).None? {
      var to, persistent := GoesOn(env, c);
      ForwardCrashes(env, c, to, persistent);
      StaysKnown(env, from, c, Forward(env, c, to, persistent));
    }
  }

  lemma {:induction false} CrashAll(env: Env, from: nat, c: Conn, requests: seq<string>)
    requires Complete(requests) && from <= c.forwards && CrashKnown(env, from, c)
    ensures CrashKnown(env, from, HandleAll(env, c, requests))
    decreases |requests|
  {
    if requests != [] && c.open {
      var c' := c.(full := requests[0]);
      CrashStep(env, from, c');
      CrashAll(env, from, OnRequest(env, c'), requests[1..]);
    }
  }

  /** Over every run: the program crashes exactly if the first chunk of some response has
      neither a Content-Length nor a blank line. */
  lemma CrashesExactly(env: Env, garbage: string, texts: seq<string>)
    ensures var e := RunFrom(env, Fresh(garbage), texts);
            e.crashed <==> exists k :: 0 <= k < e.forwards && !GoodResponse(env.responses(k))
  {
    RunIsRequests(env, Fresh(garbage), texts);
    CrashAll(env, 0, Fresh(garbage), Requests("", texts));
  }

  // ---- one line per request ---------------------------------------------------------

  /** No write to the host or to the browser fails for the k-th forwarded request. */
  predicate Works(env: Env, k: nat) { env.hostWrites(k) && Written(env, k) }

  function OneIf(b: bool): nat { if b then 1 else 0 }

  lemma ForwardLogs(env: Env, c: Conn, to: string, persistent: bool)
    requires |c.full| >= 2 && Works(env, c.forwards) && !c.crashed
    ensures var next := Forward(env, c, to, persistent);
            |next.log| + OneIf(next.crashed) == |c.log| + 1 && c.log <= next.log
  {
    RelayOutcome(env, c.forwards, FirstLine(c.full), c.responseCode);
  }

  /** Whatever the request, it adds exactly one log line if no socket operation fails and the
      program does not crash. */
  lemma OneLogLine(env: Env, c: Conn)
    requires |c.full| >= 2 && Works(env, c.forwards) && !c.crashed
    ensures |OnRequest(env, c).log| + OneIf(OnRequest(env, c).crashed) == |c.log| + 1
    ensures c.log <= OnRequest(env, c).log
  {
    if Refusal(env, c.host.Some?, c.full).None? {
      var to, persistent := GoesOn(env, c);
      ForwardLogs(env, c, to, persistent);
    }
  }

  /** The complete requests that a connection handles before it is closed. */
  function Handled(env: Env, c: Conn, requests: seq<string>): nat
    requires Complete(requests)
    decreases |requests|
  {
    if requests == [] || !c.open then 0
    else 1 + Handled(env, OnRequest(env, c.(full := requests[0])), requests[1..])
  }

  lemma {:induction false} LinesOfAll(env: Env, c: Conn, requests: seq<string>)
    requires Complete(requests) && (forall k :: Works(env, k)) && CrashKnown(env, 0, c)
    ensures var e := HandleAll(env, c, requests);
            |e.log| + OneIf(e.crashed) == |c.log| + OneIf(c.crashed) + Handled(env, c, requests)
    decreases |requests|
  {
    if requests != [] && c.open {
      var c' := c.(full := requests[0]);
      CrashStep(env, 0, c');
      OneLogLine(env, c');
      LinesOfAll(env, OnRequest(env, c'), requests[1..]);
    }
  }

  /** Over every run in which no write fails: one log line for each complete request handled,
      except the one on which the program crashes, if it does. */
  lemma OneLinePerRequest(env: Env, garbage: string, texts: seq<string>)
    requires forall k :: Works(env, k)
    ensures var e := RunFrom(env, Fresh(garbage), texts);
            |e.log| + OneIf(e.crashed) == Handled(env, Fresh(garbage), Requests("", texts))
    ensures (forall k :: GoodResponse(env.responses(k))) ==>
              |RunFrom(env, Fresh(garbage), texts).log| == Handled(env, Fresh(garbage), Requests("", texts))
  {
    RunIsRequests(env, Fresh(garbage), texts);
    LinesOfAll(env, Fresh(garbage), Requests("", texts));
    CrashesExactly(env, garbage, texts);
  }

  // ---- responses in their usual shape -----------------------------------------------

  datatype Response = Response(status: string, fields: seq<string>, body: string)

  function HeadOf(a: Response): string { RequestText(a.status, a.fields) }

  /** The chunks are this response, and its header section lies in the first of them. */
  predicate Carries(chunks: seq<string>, a: Response) {
    && chunks != [] && Concat(chunks) == MessageText(a.status, a.fields, a.body)
    && |HeadOf(a)| <= |chunks[0]| && Named(a.status) && AllNamed(a.fields)
  }

  /** The part of the body in the first chunk, as far as the program looks. */
  function FirstBody(chunks: seq<string>, a: Response): string
    requires Carries(chunks, a)
  {
    CText(chunks[0][|HeadOf(a)|..])
  }

  /** The word taken for the status code. */
  function CodeOf(status: string, fields: seq<string>, more: string): string {
    OrEmpty(SecondWord(status, Following(fields, more)))
  }

  /** The length announced in the fields, or in what the body looks like. */
  function Announced(chunks: seq<string>, a: Response): Option<string>
    requires Carries(chunks, a)
  {
    LengthFound(a.fields, CRLF + FirstBody(chunks, a), "")
  }

  lemma {:induction false} CTextAfter(head: string, rest: string)
    requires NulFreeText(head)
    ensures CText(head + rest) == head + CText(rest)
  {
    if head == [] {
      assert head + rest == rest;
    } else {
      assert (head + rest)[1..] == head[1..] + rest;
      CTextAfter(head[1..], rest);
    }
  }

  lemma StatusCode(status: string, fields: seq<string>, more: string)
    requires Named(status) && AllNamed(fields)
    ensures OrEmpty(Word2(Opening(status, fields, more))) == CodeOf(status, fields, more)
  {
    FollowingWord(fields, more);
    TwoWords(status, Lines(fields) + more);
  }

  lemma FirstText(chunks: seq<string>, a: Response)
    requires Carries(chunks, a)
    ensures CText(chunks[0]) == MessageText(a.status, a.fields, FirstBody(chunks, a))
  {
    assert chunks[0] == Concat(chunks)[..|chunks[0]|];
    assert chunks[0] == HeadOf(a) + chunks[0][|HeadOf(a)|..];
    HeadNulFree(a.status, a.fields);
    CTextAfter(HeadOf(a), chunks[0][|HeadOf(a)|..]);
  }

  /** What the program reads in the first chunk. */
  lemma FirstChunk(chunks: seq<string>, a: Response)
    requires Carries(chunks, a)
    ensures OrEmpty(Word2(CText(chunks[0]))) == CodeOf(a.status, a.fields, CRLF + FirstBody(chunks, a))
    ensures BlankAt(CText(chunks[0])) == |HeadOf(a)| - 4 >= 0
    ensures ContentLengthAt(CText(chunks[0]), 0, "") == Announced(chunks, a)
  {
    var first := FirstBody(chunks, a);
    FirstText(chunks, a);
    MessageOpens(a.status, a.fields, first);
    StatusCode(a.status, a.fields, CRLF + first);
    BlankBeforeBody(a.status, a.fields, first);
    ScanFindsLength(a.status, a.fields, CRLF + first);
  }

  lemma NulFreeAppend(a: string, b: string)
    ensures NulFreeText(a + b) <==> NulFreeText(a) && NulFreeText(b)
  {
    assert forall i :: 0 <= i < |a| ==> (a + b)[i] == a[i];
    assert forall i :: 0 <= i < |b| ==> (a + b)[|a| + i] == b[i];
  }

  lemma {:induction false} TextLengthIsLength(chunks: seq<string>)
    ensures TextLength(chunks) <= |Concat(chunks)|
    ensures TextLength(chunks) == |Concat(chunks)| <==> NulFreeText(Concat(chunks))
  {
    if chunks != [] {
      TextLengthIsLength(chunks[1..]);
      NulFreeAppend(chunks[0], Concat(chunks[1..]));
    }
  }

  // ---- the line logged for a response -----------------------------------------------

  /** What strlen counts of the chunks behind the header section. */
  function CountedLength(chunks: seq<string>, a: Response): int {
    TextLength(chunks) - |HeadOf(a)|
  }

  function LengthLogged(chunks: seq<string>, a: Response): int
    requires Carries(chunks, a)
  {
    if Announced(chunks, a).Some? then Atol(Announced(chunks, a).value) else CountedLength(chunks, a)
  }

  function LineLogged(firstLine: string, chunks: seq<string>, a: Response): LogLine
    requires Carries(chunks, a)
  {
    LogLine(firstLine, CodeOf(a.status, a.fields, CRLF + FirstBody(chunks, a)), LengthLogged(chunks, a))
  }

  /** An announced length is logged with the first chunk, a counted one after the last. */
  function LinesFor(env: Env, k: nat, firstLine: string, a: Response): seq<LogLine>
    requires Carries(env.responses(k), a)
  {
    if Announced(env.responses(k), a).Some? || Written(env, k) then [LineLogged(firstLine, env.responses(k), a)] else []
  }

  /** What the forwarding of the k-th request adds to the log. */
  function Logged(line: string, e: Relay): seq<LogLine> {
    if e.failed || e.crashed || e.hasLength then e.log else e.log + [LogLine(line, e.code, e.length)]
  }

  lemma FirstRelay(env: Env, k: nat, line: string, code: string, text: string, found: Option<string>)
    requires env.responses(k) != [] && text == CText(env.responses(k)[0])
    requires found == ContentLengthAt(text, 0, "") && (found.Some? || BlankAt(text) >= 0)
    ensures !RelayAll(env, k, line, code).crashed && RelayAll(env, k, line, code).code == OrEmpty(Word2(text))
    ensures RelayAll(env, k, line, code).hasLength == found.Some?
    ensures RelayAll(env, k, line, code).log
            == if found.Some? then [LogLine(line, OrEmpty(Word2(text)), Atol(found.value))] else []
    ensures found.None? && !RelayAll(env, k, line, code).failed ==>
              RelayAll(env, k, line, code).length == TextLength(env.responses(k)) - BlankAt(text) - 4
  {
    var chunks := env.responses(k);
    RelayBegins(env, k, line, code);
    var first := RelayFirst(line, NewRelay(code), chunks[0]);
    RelayLater(env, k, line, chunks, 1, first.(sent := [Chunk(chunks[0])]));
  }

  /** With the announced length the line is there in any case; else it comes at the end. */
  lemma LoggedOf(line: string, e: Relay, code: string, found: Option<string>, length: int)
    requires !e.crashed && e.code == code && e.hasLength == found.Some?
    requires e.log == if found.Some? then [LogLine(line, code, Atol(found.value))] else []
    requires found.None? && !e.failed ==> e.length == length
    ensures Logged(line, e)
            == if found.Some? then [LogLine(line, code, Atol(found.value))]
               else if e.failed then [] else [LogLine(line, code, length)]
  {
  }

  lemma ResponseLogs(env: Env, k: nat, line: string, code: string, a: Response)
    requires Carries(env.responses(k), a)
    ensures Logged(line, RelayAll(env, k, line, code)) == LinesFor(env, k, line, a)
  {
    var chunks := env.responses(k);
    FirstChunk(chunks, a);
    FirstRelay(env, k, line, code, CText(chunks[0]), Announced(chunks, a));
    RelayOutcome(env, k, line, code);
    LoggedOf(line, RelayAll(env, k, line, code), CodeOf(a.status, a.fields, CRLF + FirstBody(chunks, a)),
             Announced(chunks, a), CountedLength(chunks, a));
  }

  lemma ForwardAdds(env: Env, c: Conn, to: string, persistent: bool)
    requires |c.full| >= 2 && env.hostWrites(c.forwards)
    ensures Forward(env, c, to, persistent).log
            == c.log + Logged(FirstLine(c.full), RelayAll(env, c.forwards, FirstLine(c.full), c.responseCode))
  {
  }

  /** A forwarded request adds the line of its response, if any write to the browser that comes
      before it works. */
  lemma ForwardedLogs(env: Env, c: Conn, r: Request, a: Response)
    requires WellFormed(r) && c.full == TextOf(r) && Verdict(env, c.host.Some?, r) == None
    requires env.hostWrites(c.forwards) && Carries(env.responses(c.forwards), a)
    ensures OnRequest(env, c).log == c.log + LinesFor(env, c.forwards, r.line, a)
  {
    AcceptedIsForwarded(env, c, r);
    ForwardAdds(env, c, Destination(c.host, r), StaysOpen(r));
    ResponseLogs(env, c.forwards, r.line, c.responseCode, a);
  }

  // ---- the logged length ------------------------------------------------------------

  lemma CountsBody(chunks: seq<string>, a: Response)
    requires Carries(chunks, a)
    ensures CountedLength(chunks, a) == |a.body| <==> NulFreeText(a.body)
  {
    TextLengthIsLength(chunks);
    HeadNulFree(a.status, a.fields);
    NulFreeAppend(HeadOf(a), a.body);
  }

  /** What the scan finds in the blank line and the body, with the word it has read before. */
  function BodyAnnounces(chunks: seq<string>, a: Response): Option<string>
    requires Carries(chunks, a)
  {
    var first := FirstBody(chunks, a);
    ContentLengthAt(BLANK + first, 0, Carried(a.fields, CRLF + first, ""))
  }

  lemma AnnouncedBehind(chunks: seq<string>, a: Response)
    requires Carries(chunks, a) && NoLengthField(a.fields)
    ensures Announced(chunks, a) == BodyAnnounces(chunks, a)
    ensures Announced(chunks, a).None? <==> QuietBody(FirstBody(chunks, a))
  {
    FoundInBody(a.fields, FirstBody(chunks, a));
  }

  /** For a response without a Content-Length field whose header section lies in the first
      chunk, one line is logged. Its length is that of the body, for every cutting into chunks,
      if and only if nothing in the first chunk's part of the body looks like a Content-Length
      line and the body has no NUL, or something does and happens to announce that length. */
  lemma LoggedLength(env: Env, c: Conn, r: Request, a: Response)
    requires WellFormed(r) && c.full == TextOf(r)
    requires Verdict(env, c.host.Some?, r) == None && Works(env, c.forwards)
    requires Carries(env.responses(c.forwards), a) && NoLengthField(a.fields)
    ensures OnRequest(env, c).log == c.log + [LineLogged(r.line, env.responses(c.forwards), a)]
    ensures LengthLogged(env.responses(c.forwards), a) == |a.body|
            <==> || (QuietBody(FirstBody(env.responses(c.forwards), a)) && NulFreeText(a.body))
                 || (!QuietBody(FirstBody(env.responses(c.forwards), a))
                     && Atol(OrEmpty(BodyAnnounces(env.responses(c.forwards), a))) == |a.body|)
  {
    ForwardedLogs(env, c, r, a);
    LengthOfBody(env.responses(c.forwards), a);
  }

  lemma LengthOfBody(chunks: seq<string>, a: Response)
    requires Carries(chunks, a) && NoLengthField(a.fields)
    ensures BodyAnnounces(chunks, a).None? <==> QuietBody(FirstBody(chunks, a))
    ensures LengthLogged(chunks, a) == |a.body|
            <==> || (QuietBody(FirstBody(chunks, a)) && NulFreeText(a.body))
                 || (!QuietBody(FirstBody(chunks, a)) && Atol(OrEmpty(BodyAnnounces(chunks, a))) == |a.body|)
  {
    AnnouncedBehind(chunks, a);
    CountsBody(chunks, a);
  }

  /** What the scan finds in the lines of the first chunk, wherever the header section ends, is
      logged with that chunk, once, even if the browser goes away during the response. */
  lemma AnnouncedLine(env: Env, c: Conn, r: Request, status: string, fields: seq<string>, more: string)
    requires WellFormed(r) && c.full == TextOf(r)
    requires Verdict(env, c.host.Some?, r) == None && env.hostWrites(c.forwards) && env.responses(c.forwards) != []
    requires CText(env.responses(c.forwards)[0]) == Opening(status, fields, more)
    requires Named(status) && AllNamed(fields) && LengthFound(fields, more, "").Some?
    ensures OnRequest(env, c).log
            == c.log + [LogLine(r.line, CodeOf(status, fields, more), Atol(LengthFound(fields, more, "").value))]
    ensures !c.crashed ==> !OnRequest(env, c).crashed
  {
    AcceptedIsForwarded(env, c, r);
    ForwardAdds(env, c, Destination(c.host, r), StaysOpen(r));
    StatusCode(status, fields, more);
    ScanFindsLength(status, fields, more);
    FirstRelay(env, c.forwards, r.line, c.responseCode, Opening(status, fields, more), LengthFound(fields, more, ""));
  }

  /** With a Content-Length field in the first chunk, the number at the first one is logged. A
      field without a value has the word instead for its value. */
  lemma AnnouncedLength(env: Env, c: Conn, r: Request, status: string, fields: seq<string>, more: string, i: nat)
    requires WellFormed(r) && c.full == TextOf(r)
    requires Verdict(env, c.host.Some?, r) == None && env.hostWrites(c.forwards) && env.responses(c.forwards) != []
    requires CText(env.responses(c.forwards)[0]) == Opening(status, fields, more)
    requires Named(status) && AllNamed(fields) && FirstLengthAt(fields, i)
    ensures OnRequest(env, c).log
            == c.log + [LogLine(r.line, CodeOf(status, fields, more),
                                Atol(if Word2(fields[i]).Some? then Word2(fields[i]).value
                                     else WordInstead(fields, i, more, "")))]
    ensures !c.crashed ==> !OnRequest(env, c).crashed
  {
    FoundAtFirst(fields, i, more, "");
    AnnouncedLine(env, c, r, status, fields, more);
  }

  // ---- responses that go wrong

  const STATUS := "A 200"

  lemma StatusWords()
    ensures Named(STATUS) && Word2(STATUS) == Some("200")
  {
    assert STATUS == "A" + [' '] + "200";
    ScanFirstWord("A", ' ', "200");
    ScanSpaced(' ', "200");
    ScanOneWord("200");
  }

  /** A whole response without fields in one chunk. */
  lemma OneChunk(chunk: string, a: Response)
    requires Named(a.status) && a.fields == [] && chunk == HeadOf(a) + a.body
    ensures Carries([chunk], a) && FirstBody([chunk], a) == CText(a.body)
    ensures CountedLength([chunk], a) == |CText(a.body)|
  {
    ConcatOne(chunk);
    HeadNulFree(a.status, []);
    CTextAfter(HeadOf(a), a.body);
    assert chunk[|HeadOf(a)|..] == a.body;
    assert TextLength([chunk]) == |CText(chunk)| + TextLength([chunk][1..]) && [chunk][1..] == [];
  }

  const NUL_RESPONSE := "A 200\r\n\r\nab\0cd"
  const NUL_BODY := Response(STATUS, [], "ab\0cd")

  lemma NulResponseSplit()
    ensures NUL_RESPONSE == HeadOf(NUL_BODY) + NUL_BODY.body
  {
    assert HeadOf(NUL_BODY) == "A 200\r\n\r\n";
  }

  lemma NulInside()
    ensures CText("ab\0cd") == "ab"
  {
    assert "ab\0cd" == "ab" + "\0cd";
    assert CText("\0cd") == "" && "ab" + "" == "ab";
    CTextAfter("ab", "\0cd");
  }

  lemma NulResponse()
    ensures Carries([NUL_RESPONSE], NUL_BODY) && LengthLogged([NUL_RESPONSE], NUL_BODY) == 2
  {
    StatusWords();
    NulResponseSplit();
    NulInside();
    OneChunk(NUL_RESPONSE, NUL_BODY);
    AnnouncedBehind([NUL_RESPONSE], NUL_BODY);
    QuietAb();
  }

  lemma QuietAb()
    ensures ContentLengthAt(BLANK + "ab", 0, "") == None
  {
    ScanOneWord("ab");
    PlainBody("ab", "");
  }

  /** Of a body with a NUL only what is in front of it is counted: here 2 for 5. */
  lemma NulBodyLogged(env: Env, c: Conn, r: Request)
    requires WellFormed(r) && c.full == TextOf(r)
    requires Verdict(env, c.host.Some?, r) == None && Works(env, c.forwards)
    requires env.responses(c.forwards) == [NUL_RESPONSE]
    ensures OnRequest(env, c).log == c.log + [LogLine(r.line, "200", 2)]
  {
    StatusWords();
    NulResponse();
    LoggedLength(env, c, r, NUL_BODY);
  }

  const LENGTH_RESPONSE := "A 200\r\n\r\nContent-Length: 7"
  const LENGTH_BODY := Response(STATUS, [], "Content-Length: 7")

  lemma LengthResponseSplit()
    ensures LENGTH_RESPONSE == HeadOf(LENGTH_BODY) + LENGTH_BODY.body
  {
    assert HeadOf(LENGTH_BODY) == "A 200\r\n\r\n";
  }

  /** The field as a line, with any value of one word. */
  function LengthText(value: string): string { "Content-Length:" + [' '] + value }

  lemma LengthWords(value: string)
    requires IsWord(value)
    ensures Word1(LengthText(value)) == Some("Content-Length:") && Word2(LengthText(value)) == Some(value)
  {
    ScanFirstWord("Content-Length:", ' ', value);
    ScanSpaced(' ', value);
    ScanOneWord(value);
  }

  lemma LengthBodyPlain()
    ensures LENGTH_BODY.body == LengthText("7") && NulFreeText(LENGTH_BODY.body) && '\r' !in LENGTH_BODY.body
  {
  }

  lemma LengthResponse()
    ensures Carries([LENGTH_RESPONSE], LENGTH_BODY) && LengthLogged([LENGTH_RESPONSE], LENGTH_BODY) == 7
  {
    StatusWords();
    LengthResponseSplit();
    LengthWords("7");
    LengthBodyPlain();
    OneChunk(LENGTH_RESPONSE, LENGTH_BODY);
    AnnouncedBehind([LENGTH_RESPONSE], LENGTH_BODY);
    PlainBody(LENGTH_BODY.body, "");
    AtolOfPrintLong(7);
    assert PrintLong(7) == "7";
  }

  /** A body that reads like the field is taken for it: here 7 for 17. */
  lemma LengthBodyLogged(env: Env, c: Conn, r: Request)
    requires WellFormed(r) && c.full == TextOf(r)
    requires Verdict(env, c.host.Some?, r) == None && Works(env, c.forwards)
    requires env.responses(c.forwards) == [LENGTH_RESPONSE]
    ensures OnRequest(env, c).log == c.log + [LogLine(r.line, "200", 7)]
    ensures |LENGTH_BODY.body| == 17 && NulFreeText(LENGTH_BODY.body)
  {
    StatusWords();
    LengthBodyPlain();
    LengthResponse();
    LoggedLength(env, c, r, LENGTH_BODY);
  }

  const HEAD_START := "A 200\r\nX"

  lemma HeadStartIsBad(rest: seq<string>)
    ensures !GoodResponse([HEAD_START] + rest)
  {
    StatusWords();
    ScanOneWord("X");
    assert HEAD_START == Opening(STATUS, [], "X");
    assert NulFreeText(HEAD_START);
    ScanFindsLength(STATUS, [], "X");
    CutLine("X", "");
    assert BlankAt(HEAD_START) < 0;
  }

  /** A header section that comes in two reads, without a Content-Length in the first, crashes
      the program, and the request is not logged. */
  lemma SplitHeadCrashes(env: Env, c: Conn, r: Request, rest: seq<string>)
    requires WellFormed(r) && c.full == TextOf(r) && !c.crashed
    requires Verdict(env, c.host.Some?, r) == None && env.hostWrites(c.forwards)
    requires env.responses(c.forwards) == [HEAD_START] + rest
    ensures OnRequest(env, c).crashed && !OnRequest(env, c).open && OnRequest(env, c).log == c.log
  {
    HeadStartIsBad(rest);
    ResponseRelayed(env, c, r);
  }

  const CUT_FIELD := "A 200\r\nContent-Length: 1"

  lemma CutFieldOpens()
    ensures CUT_FIELD == Opening(STATUS, [], LengthText("1")) && NulFreeText(CUT_FIELD) && '\r' !in LengthText("1")
  {
  }

  lemma CutFieldWords()
    ensures LengthFound([], LengthText("1"), "") == Some("1") && CodeOf(STATUS, [], LengthText("1")) == "200"
  {
    CutFieldOpens();
    LengthWords("1");
    CutLine(LengthText("1"), "");
    StatusWords();
  }

  /** A Content-Length that the end of the first read cuts in two announces its first digits:
      here 1, whatever the later reads bring. */
  lemma CutFieldLogged(env: Env, c: Conn, r: Request, rest: seq<string>)
    requires WellFormed(r) && c.full == TextOf(r)
    requires Verdict(env, c.host.Some?, r) == None && env.hostWrites(c.forwards)
    requires env.responses(c.forwards) == [CUT_FIELD] + rest
    ensures OnRequest(env, c).log == c.log + [LogLine(r.line, "200", 1)]
  {
    CutFieldOpens();
    CutFieldWords();
    StatusWords();
    AnnouncedLine(env, c, r, STATUS, [], LengthText("1"));
    AtolOfPrintLong(1);
    assert PrintLong(1) == "1";
  }

  // ---- the log of a connection ------------------------------------------------------

  /** Each response is empty, or one whose header section lies in its first chunk. */
  ghost predicate Responses(env: Env, answers: nat -> Response) {
    forall k :: Answers(env, k, answers(k))
  }

  predicate Answers(env: Env, k: nat, a: Response) { env.responses(k) == [] || Carries(env.responses(k), a) }

  /** What is logged for the k-th response; an empty one is logged with the status code that an
      earlier response left. */
  function ResponseLines(env: Env, k: nat, firstLine: string, a: Response, code: string): seq<LogLine>
    requires Answers(env, k, a)
  {
    if env.responses(k) == [] then [LogLine(firstLine, code, 0)] else LinesFor(env, k, firstLine, a)
  }

  function CodeAfter(env: Env, k: nat, a: Response, code: string): string
    requires Answers(env, k, a)
  {
    if env.responses(k) == [] then code else CodeOf(a.status, a.fields, CRLF + FirstBody(env.responses(k), a))
  }

  /** What one request adds to the log, when it is the k-th to be forwarded if it is. */
  function OwnLines(env: Env, connected: bool, k: nat, code: string, r: Request, a: Response): seq<LogLine>
    requires Answers(env, k, a)
  {
    match Verdict(env, connected, r)
    case Some(refusal) => [LogLine(r.line, PrintLong(refusal), 0)]
    case None => if env.hostWrites(k) then ResponseLines(env, k, r.line, a, code) else []
  }

  /** What the next request meets: the host connected to, the forwards made, the status code. */
  datatype Standing = Standing(host: Option<string>, k: nat, code: string)

  function Continues(env: Env, st: Standing, r: Request, a: Response): Option<Standing>
    requires Answers(env, st.k, a)
  {
    match Verdict(env, st.host.Some?, r)
    case Some(refusal) => if refusal == 403 then None else Some(st)
    case None =>
      if env.hostWrites(st.k) && Answered(env, st.k) && StaysOpen(r)
      then Some(Standing(Some(Destination(st.host, r)), st.k + 1, CodeAfter(env, st.k, a, st.code)))
      else None
  }

  /** What a connection logs, from the lines of its requests and responses alone. */
  ghost function LogLines(env: Env, answers: nat -> Response, st: Standing, requests: seq<Request>): seq<LogLine>
    requires Responses(env, answers)
    decreases |requests|
  {
    if requests == [] then []
    else
      OwnLines(env, st.host.Some?, st.k, st.code, requests[0], answers(st.k))
      + match Continues(env, st, requests[0], answers(st.k))
        case Some(next) => LogLines(env, answers, next, requests[1..])
        case None => []
  }

  function StandingOf(c: Conn): Standing { Standing(c.host, c.forwards, c.responseCode) }

  lemma EmptyRelay(env: Env, k: nat, line: string, code: string)
    requires env.responses(k) == []
    ensures RelayAll(env, k, line, code) == NewRelay(code)
  {
  }

  lemma ForwardCode(env: Env, c: Conn, to: string, persistent: bool)
    requires |c.full| >= 2 && env.hostWrites(c.forwards)
    ensures Forward(env, c, to, persistent).responseCode
            == RelayAll(env, c.forwards, FirstLine(c.full), c.responseCode).code
  {
  }

  lemma RelayLogs(env: Env, k: nat, line: string, code: string, a: Response)
    requires Answers(env, k, a)
    ensures Logged(line, RelayAll(env, k, line, code)) == ResponseLines(env, k, line, a, code)
  {
    if env.responses(k) == [] { EmptyRelay(env, k, line, code); } else { ResponseLogs(env, k, line, code, a); }
  }

  lemma RelayCode(env: Env, k: nat, line: string, code: string, a: Response)
    requires Answers(env, k, a)
    ensures RelayAll(env, k, line, code).code == CodeAfter(env, k, a, code)
  {
    if env.responses(k) == [] {
      EmptyRelay(env, k, line, code);
    } else {
      FirstChunk(env.responses(k), a);
      FirstRelay(env, k, line, code, CText(env.responses(k)[0]), Announced(env.responses(k), a));
    }
  }

  /** What a forwarded request logs, and the code it leaves. */
  lemma ForwardedLines(env: Env, c: Conn, r: Request, a: Response)
    requires WellFormed(r) && c.full == TextOf(r) && Verdict(env, c.host.Some?, r) == None
    requires env.hostWrites(c.forwards) && Answers(env, c.forwards, a)
    ensures OnRequest(env, c).log == c.log + ResponseLines(env, c.forwards, r.line, a, c.responseCode)
    ensures OnRequest(env, c).responseCode == CodeAfter(env, c.forwards, a, c.responseCode)
  {
    AcceptedIsForwarded(env, c, r);
    ForwardAdds(env, c, Destination(c.host, r), StaysOpen(r));
    ForwardCode(env, c, Destination(c.host, r), StaysOpen(r));
    RelayLogs(env, c.forwards, r.line, c.responseCode, a);
    RelayCode(env, c.forwards, r.line, c.responseCode, a);
  }

  lemma RequestLogs(env: Env, c: Conn, r: Request, a: Response)
    requires WellFormed(r) && c.full == TextOf(r) && Answers(env, c.forwards, a)
    ensures OnRequest(env, c).log == c.log + OwnLines(env, c.host.Some?, c.forwards, c.responseCode, r, a)
    ensures Verdict(env, c.host.Some?, r).Some? ==> OnRequest(env, c).responseCode == c.responseCode
    ensures Verdict(env, c.host.Some?, r).None? && env.hostWrites(c.forwards) ==>
              OnRequest(env, c).responseCode == CodeAfter(env, c.forwards, a, c.responseCode)
  {
    match Verdict(env, c.host.Some?, r) {
      case Some(code) => Refused(env, c, r, code);
      case None =>
        if env.hostWrites(c.forwards) {
          ForwardedLines(env, c, r, a);
        } else {
          AcceptedIsForwarded(env, c, r);
        }
    }
  }

  lemma OpenContinues(env: Env, field: string, c: Conn, r: Request, a: Response, next: Conn)
    requires Accounted(env, field, c, r, next) && Answers(env, c.forwards, a)
    requires Verdict(env, c.host.Some?, r).Some? ==> next.responseCode == c.responseCode
    requires Verdict(env, c.host.Some?, r).None? && env.hostWrites(c.forwards) ==>
               next.responseCode == CodeAfter(env, c.forwards, a, c.responseCode)
    ensures Continues(env, StandingOf(c), r, a) == if next.open then Some(StandingOf(next)) else None
    ensures next.open ==> !next.crashed
  {
  }

  lemma {:induction false} LogsExactly(env: Env, answers: nat -> Response, c: Conn, requests: seq<Request>)
    requires Responses(env, answers)
    requires c.open && !c.crashed && AllWellFormed(requests) && Complete(TextsOf(requests))
    ensures HandleAll(env, c, TextsOf(requests)).log == c.log + LogLines(env, answers, StandingOf(c), requests)
    decreases |requests|
  {
    if requests != [] {
      var next := LogFirst(env, c, requests, answers(c.forwards));
      if next.open {
        LogsExactly(env, answers, next, requests[1..]);
        Associates(c.log, OwnLines(env, c.host.Some?, c.forwards, c.responseCode, requests[0], answers(c.forwards)),
                   LogLines(env, answers, StandingOf(next), requests[1..]));
      }
    }
  }

  /** The first request of several. */
  lemma LogFirst(env: Env, c: Conn, requests: seq<Request>, a: Response) returns (next: Conn)
    requires requests != [] && AllWellFormed(requests) && Complete(TextsOf(requests)) && c.open && !c.crashed
    requires Answers(env, c.forwards, a)
    ensures AllWellFormed(requests[1..]) && Complete(TextsOf(requests[1..]))
    ensures HandleAll(env, c, TextsOf(requests)) == HandleAll(env, next, TextsOf(requests[1..]))
    ensures next.log == c.log + OwnLines(env, c.host.Some?, c.forwards, c.responseCode, requests[0], a)
    ensures Continues(env, StandingOf(c), requests[0], a) == if next.open then Some(StandingOf(next)) else None
    ensures next.open ==> !next.crashed
  {
    var c' := c.(full := TextOf(requests[0]));
    next := OnRequest(env, c');
    RequestAccounted(env, c', requests[0]);
    RequestLogs(env, c', requests[0], a);
    OpenContinues(env, ForwardedField(env), c', requests[0], a, next);
    TextsComplete(requests[1..]);
    assert TextsOf(requests)[1..] == TextsOf(requests[1..]);
  }

  /** Over every connection of well-formed requests, each cut anywhere, and of responses that are
      empty or have their header sections in their first chunks: the log is exactly these lines,
      in order, with the codes 501, 403 and 400 for the requests refused. */
  lemma LoggedExactly(env: Env, answers: nat -> Response, garbage: string, requests: seq<Request>, cuts: seq<seq<string>>)
    requires Responses(env, answers) && AllWellFormed(requests) && CutsOf(cuts, requests)
    ensures RunFrom(env, Fresh(garbage), Reads(cuts)).log
            == LogLines(env, answers, Standing(None, 0, garbage), requests)
    ensures PrintLong(501) == "501" && PrintLong(403) == "403" && PrintLong(400) == "400"
  {
    RunIsRequests(env, Fresh(garbage), Reads(cuts));
    CutsAreRequests(cuts, requests);
    TextsComplete(requests);
    LogsExactly(env, answers, Fresh(garbage), requests);
    ThreeDigits();
  }
}
