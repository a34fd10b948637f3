/** The text scanning that the hw5 proxy does with strstr and sscanf, and the shape of the
    requests it is meant for (section 3 of RFC 7230). */
module HttpText {
  import opened Text

  const CRLF := "\r\n"
  const BLANK := "\r\n\r\n"

  // ---- sscanf "%s" ------------------------------------------------------------------

  function SkipSpace(s: string): (t: string)
    ensures t != [] ==> !IsSpace(t[0])
  {
    if s != [] && IsSpace(s[0]) then SkipSpace(s[1..]) else s
  }

  function WordLength(s: string): (k: nat)
    ensures k <= |s|
  {
    if s == [] || IsSpace(s[0]) then 0 else 1 + WordLength(s[1..])
  }

  /** One "%s" conversion: the word, if any is left, and the text behind it. */
  function ScanWord(s: string): (Option<string>, string) {
    var t := SkipSpace(s);
    if t == [] then (None, []) else (Some(t[..WordLength(t)]), t[WordLength(t)..])
  }

  function Word1(s: string): Option<string> { ScanWord(s).0 }
  function Word2(s: string): Option<string> { ScanWord(ScanWord(s).1).0 }
  function Word3(s: string): Option<string> { ScanWord(ScanWord(ScanWord(s).1).1).0 }

  /** A buffer that was zeroed before the conversion. */
  function OrEmpty(w: Option<string>): string { if w.Some? then w.value else "" }

  lemma {:induction false} SkipSpaceAppend(s: string, more: string)
    requires SkipSpace(s) != []
    ensures SkipSpace(s + more) == SkipSpace(s) + more
  {
    if s != [] && IsSpace(s[0]) {
      assert (s + more)[1..] == s[1..] + more;
      SkipSpaceAppend(s[1..], more);
    }
  }

  lemma {:induction false} WordLengthAppend(s: string, c: char, more: string)
    requires IsSpace(c)
    ensures WordLength(s + [c] + more) == WordLength(s)
  {
    if s != [] && !IsSpace(s[0]) {
      assert (s + [c] + more)[1..] == s[1..] + [c] + more;
      WordLengthAppend(s[1..], c, more);
    }
  }

  /** Text behind a white space does not disturb the words before it. */
  lemma ScanWordAppend(s: string, c: char, more: string)
    requires IsSpace(c) && ScanWord(s).0.Some?
    ensures ScanWord(s + [c] + more) == (ScanWord(s).0, ScanWord(s).1 + [c] + more)
  {
    var t := SkipSpace(s);
    assert s + [c] + more == s + ([c] + more) && t + [c] + more == t + ([c] + more);
    SkipSpaceAppend(s, [c] + more);
    WordLengthAppend(t, c, more);
    var k := WordLength(t);
    assert (t + [c] + more)[..k] == t[..k];
    assert (t + [c] + more)[k..] == t[k..] + [c] + more;
  }

  lemma {:induction false} SkipBlankPart(s: string, t: string)
    requires SkipSpace(s) == []
    ensures SkipSpace(s + t) == SkipSpace(t)
  {
    if s == [] {
      assert s + t == t;
    } else {
      assert (s + t)[1..] == s[1..] + t;
      SkipBlankPart(s[1..], t);
    }
  }

  predicate IsWord(w: string) { w != "" && forall i :: 0 <= i < |w| ==> !IsSpace(w[i]) }

  lemma {:induction false} WholeWord(w: string)
    requires forall i :: 0 <= i < |w| ==> !IsSpace(w[i])
    ensures WordLength(w) == |w|
  {
    if w != [] { WholeWord(w[1..]); }
  }

  lemma ScanOneWord(w: string)
    requires IsWord(w)
    ensures ScanWord(w) == (Some(w), [])
  {
    WholeWord(w);
    assert SkipSpace(w) == w && w[..|w|] == w && w[|w|..] == [];
  }

  lemma ScanFirstWord(w: string, c: char, more: string)
    requires IsWord(w) && IsSpace(c)
    ensures ScanWord(w + [c] + more) == (Some(w), [c] + more)
  {
    ScanOneWord(w);
    ScanWordAppend(w, c, more);
    assert [] + [c] + more == [c] + more;
  }

  lemma {:induction false} SpacesOnly(s: string) returns (n: nat)
    ensures n <= |s| && SkipSpace(s) == s[n..] && forall i :: 0 <= i < n ==> IsSpace(s[i])
  {
    n := 0;
    if s != [] && IsSpace(s[0]) {
      var k := SpacesOnly(s[1..]);
      n := k + 1;
    }
  }

  lemma {:induction false} WordStops(s: string)
    ensures forall i :: 0 <= i < WordLength(s) ==> !IsSpace(s[i])
    ensures WordLength(s) < |s| ==> IsSpace(s[WordLength(s)])
  {
    if s != [] && !IsSpace(s[0]) {
      WordStops(s[1..]);
      assert forall i :: 1 <= i < WordLength(s) ==> s[i] == s[1..][i - 1];
    }
  }

  /** Any text is white space, a word, and a rest that starts with white space; or white space
      only. */
  lemma ScanWordCuts(s: string) returns (n: nat)
    ensures n <= |s| && forall i :: 0 <= i < n ==> IsSpace(s[i])
    ensures ScanWord(s).0.None? ==> n == |s| && ScanWord(s).1 == []
    ensures ScanWord(s).0.Some? ==>
              && IsWord(ScanWord(s).0.value) && s[n..] == ScanWord(s).0.value + ScanWord(s).1
              && (ScanWord(s).1 == [] || IsSpace(ScanWord(s).1[0]))
  {
    n := SpacesOnly(s);
    var t := SkipSpace(s);
    WordStops(t);
    assert t == t[..WordLength(t)] + t[WordLength(t)..];
  }

  /** White space before a word does not matter. */
  lemma ScanSpaced(c: char, more: string)
    requires IsSpace(c)
    ensures ScanWord([c] + more) == ScanWord(more)
  {
    assert ([c] + more)[1..] == more;
  }

  // ---- strstr for the blank line ----------------------------------------------------

  predicate BlankHere(s: string, i: int) {
    0 <= i && i + 4 <= |s| && s[i] == '\r' && s[i + 1] == '\n' && s[i + 2] == '\r' && s[i + 3] == '\n'
  }

  /** Where the first blank line starts, or -1. */
  function BlankAt(s: string): (k: int)
    ensures -1 <= k && (k >= 0 ==> BlankHere(s, k))
    ensures forall i :: 0 <= i < (if k < 0 then |s| else k) ==> !BlankHere(s, i)
  {
    if |s| < 4 then -1
    else if BlankHere(s, 0) then 0
    else
      var r := BlankAt(s[1..]);
      assert forall i :: 1 <= i ==> BlankHere(s, i) == BlankHere(s[1..], i - 1);
      if r < 0 then -1 else r + 1
  }

  // ---- requests ---------------------------------------------------------------------

  function Lines(fields: seq<string>): string {
    if fields == [] then "" else fields[0] + CRLF + Lines(fields[1..])
  }

  /** A request line, header fields, and the blank line. */
  function RequestText(line: string, fields: seq<string>): string {
    line + CRLF + Lines(fields) + CRLF
  }

  predicate OneLine(s: string) {
    s != "" && forall i :: 0 <= i < |s| ==> s[i] != '\r' && s[i] != '\n' && s[i] != '\0'
  }

  /** A header field has a name, such as "Host: example.org" or "Accept:" do. */
  predicate Named(field: string) {
    OneLine(field) && Word1(field).Some?
  }

  predicate AllNamed(fields: seq<string>) {
    forall i :: 0 <= i < |fields| ==> Named(fields[i])
  }

  lemma {:induction false} LinesAppend(fields: seq<string>, field: string)
    ensures Lines(fields + [field]) == Lines(fields) + field + CRLF
  {
    if fields == [] {
      assert fields + [field] == [field];
      assert Lines([field]) == field + CRLF + Lines([]);
    } else {
      assert (fields + [field])[1..] == fields[1..] + [field];
      LinesAppend(fields[1..], field);
    }
  }

  // ---- what the words behind a '\r' are ---------------------------------------------

  /** The first word behind a line: that of the next field, or of what stands behind them. */
  function Following(fields: seq<string>, more: string): Option<string> {
    if fields == [] then Word1(more) else Word1(fields[0])
  }

  /** The second word that "%s%s" finds at a field: its value, or what follows when it has none. */
  function SecondWord(field: string, following: Option<string>): Option<string> {
    if Word2(field).Some? then Word2(field) else following
  }

  lemma ScanBreak(s: string)
    ensures ScanWord(CRLF + s) == ScanWord(s)
  {
    var t := CRLF + s;
    assert t[1..][1..] == s;
    assert SkipSpace(t) == SkipSpace(t[1..]) == SkipSpace(t[1..][1..]);
  }

  /** One conversion from a line on: its first word, or when it has none that of what follows. */
  lemma ScanLine(line: string, rest: string)
    ensures ScanWord(line + CRLF + rest)
            == if ScanWord(line).0.Some? then (ScanWord(line).0, ScanWord(line).1 + CRLF + rest) else ScanWord(rest)
  {
    if ScanWord(line).0.Some? {
      var more := ['\n'] + rest;
      assert line + CRLF + rest == line + ['\r'] + more;
      ScanWordAppend(line, '\r', more);
      assert ScanWord(line).1 + ['\r'] + more == ScanWord(line).1 + CRLF + rest;
    } else {
      assert line + CRLF + rest == line + (CRLF + rest);
      SkipBlankPart(line, CRLF + rest);
      ScanBreak(rest);
    }
  }

  /** Two words are scanned from a field and the line break behind it. */
  lemma TwoWords(field: string, rest: string)
    requires Word1(field).Some?
    ensures Word1(field + CRLF + rest) == Word1(field)
    ensures Word2(field + CRLF + rest) == SecondWord(field, Word1(rest))
  {
    ScanLine(field, rest);
    ScanLine(ScanWord(field).1, rest);
  }

  lemma FollowingWord(fields: seq<string>, more: string)
    requires AllNamed(fields)
    ensures Word1(Lines(fields) + more) == Following(fields, more)
  {
    if fields == [] {
      assert Lines(fields) + more == more;
    } else {
      var rest := Lines(fields[1..]) + more;
      assert Lines(fields) + more == fields[0] + CRLF + rest;
      TwoWords(fields[0], rest);
    }
  }

  lemma WordsAfterCR(field: string, fields: seq<string>, more: string)
    requires Named(field) && AllNamed(fields)
    ensures var s := CRLF + field + CRLF + (Lines(fields) + more);
            Word1(s) == Word1(field) && Word2(s) == SecondWord(field, Following(fields, more))
  {
    var rest := Lines(fields) + more;
    assert CRLF + field + CRLF + rest == CRLF + (field + CRLF + rest);
    ScanBreak(field + CRLF + rest);
    FollowingWord(fields, more);
    TwoWords(field, rest);
  }

  lemma NoWordsInBreaks()
    ensures ScanWord("") == (None, []) && ScanWord(CRLF) == (None, []) && ScanWord(BLANK) == (None, [])
  {
    assert CRLF == CRLF + "" && BLANK == CRLF + CRLF;
    ScanBreak("");
    ScanBreak(CRLF);
  }

  lemma FollowingEnd(fields: seq<string>)
    ensures Following(fields, CRLF) == Following(fields, "")
  {
    NoWordsInBreaks();
  }

  // ---- the words of a request line --------------------------------------------------

  /** The first word of a request, from a line without a word on. */
  function FirstOf(line: string, fields: seq<string>): Option<string> {
    if Word1(line).Some? then Word1(line) else Following(fields, "")
  }

  /** The third word of a request: words that the line lacks are taken from the fields. */
  function ThirdOf(line: string, fields: seq<string>): Option<string>
    decreases |fields|
  {
    if Word3(line).Some? then Word3(line)
    else if Word2(line).Some? then Following(fields, "")
    else if fields == [] then None
    else if Word1(line).Some? then SecondWord(fields[0], Following(fields[1..], ""))
    else ThirdOf(fields[0], fields[1..])
  }

  lemma SecondInFields(fields: seq<string>)
    requires AllNamed(fields)
    ensures Word2(Lines(fields) + CRLF)
            == if fields == [] then None else SecondWord(fields[0], Following(fields[1..], ""))
  {
    NoWordsInBreaks();
    if fields == [] {
      assert Lines(fields) + CRLF == CRLF;
    } else {
      var rest := Lines(fields[1..]) + CRLF;
      assert Lines(fields) + CRLF == fields[0] + CRLF + rest;
      FollowingWord(fields[1..], CRLF);
      FollowingEnd(fields[1..]);
      TwoWords(fields[0], rest);
    }
  }

  lemma {:induction false} LineWords(line: string, fields: seq<string>)
    requires AllNamed(fields)
    ensures Word1(line + CRLF + (Lines(fields) + CRLF)) == FirstOf(line, fields)
    ensures Word3(line + CRLF + (Lines(fields) + CRLF)) == ThirdOf(line, fields)
    decreases |fields|
  {
    var rest := Lines(fields) + CRLF;
    NoWordsInBreaks();
    FollowingWord(fields, CRLF);
    FollowingEnd(fields);
    ScanLine(line, rest);
    if Word1(line).Some? {
      ScanLine(ScanWord(line).1, rest);
      if Word2(line).Some? {
        ScanLine(ScanWord(ScanWord(line).1).1, rest);
      } else {
        SecondInFields(fields);
      }
    } else if fields == [] {
      assert rest == CRLF;
    } else {
      assert rest == fields[0] + CRLF + (Lines(fields[1..]) + CRLF);
      LineWords(fields[0], fields[1..]);
    }
  }

  // ---- the scan at each '\r' of a request ---------------------------------------------

  datatype Scan = Scan(host: Option<string>, persistent: bool)

  function Note(acc: Scan, name: string, value: string): Scan {
    Scan(if name == "Host:" then Some(value) else acc.host,
         acc.persistent || (name == "Proxy-Connection:" && value == "Keep-Alive"))
  }

  function HeaderScan(full: string, p: nat, acc: Scan): Scan
    decreases |full| - p
  {
    if p >= |full| then acc
    else if full[p] == '\r' then
      HeaderScan(full, p + 1, Note(acc, OrEmpty(Word1(full[p..])), OrEmpty(Word2(full[p..]))))
    else HeaderScan(full, p + 1, acc)
  }

  /** The name and the value the scan takes for the first of these fields. */
  function NameOf(fields: seq<string>): string
    requires fields != []
  {
    OrEmpty(Word1(fields[0]))
  }

  function ValueOf(fields: seq<string>): string
    requires fields != []
  {
    OrEmpty(SecondWord(fields[0], Following(fields[1..], "")))
  }

  /** The host taken from the fields, the last Host field deciding. */
  function HostOf(fields: seq<string>): Option<string> {
    if fields == [] then None
    else if HostOf(fields[1..]).Some? then HostOf(fields[1..])
    else if NameOf(fields) == "Host:" then Some(ValueOf(fields))
    else None
  }

  predicate KeepsAlive(fields: seq<string>) {
    fields != [] &&
    ((NameOf(fields) == "Proxy-Connection:" && ValueOf(fields) == "Keep-Alive") || KeepsAlive(fields[1..]))
  }

  predicate HostField(field: string) { Word1(field) == Some("Host:") }

  predicate LastHostAt(fields: seq<string>, i: int) {
    0 <= i < |fields| && HostField(fields[i]) && forall j :: i < j < |fields| ==> !HostField(fields[j])
  }

  lemma {:induction false} HostInFields(fields: seq<string>)
    ensures HostOf(fields).None? <==> forall i :: 0 <= i < |fields| ==> !HostField(fields[i])
    ensures forall i :: LastHostAt(fields, i) ==> HostOf(fields) == Some(ValueOf(fields[i..]))
  {
    if fields != [] {
      var rest := fields[1..];
      HostInFields(rest);
      assert fields[0..] == fields;
      forall i | LastHostAt(fields, i)
        ensures HostOf(fields) == Some(ValueOf(fields[i..]))
      {
        if i > 0 {
          assert LastHostAt(rest, i - 1) && rest[i - 1..] == fields[i..];
        }
      }
      if exists i :: 0 <= i < |fields| && HostField(fields[i]) {
        var i :| 0 <= i < |fields| && HostField(fields[i]);
        assert i > 0 ==> HostField(rest[i - 1]);
      }
    }
  }

  /** The host is the value of the last Host field exactly when that field has a value. When it
      has none, the name of the next field is taken for the host, or the empty text. */
  lemma HostIsLastValue(fields: seq<string>, i: int)
    requires LastHostAt(fields, i)
    ensures HostOf(fields) == Word2(fields[i]) <==> Word2(fields[i]).Some?
    ensures Word2(fields[i]).None? ==>
              HostOf(fields) == Some(if i + 1 < |fields| then OrEmpty(Word1(fields[i + 1])) else "")
  {
    HostInFields(fields);
    assert fields[i..][0] == fields[i];
    if i + 1 < |fields| {
      assert fields[i..][1..][0] == fields[i + 1];
    } else {
      assert fields[i..][1..] == [] && ScanWord("") == (None, []);
    }
  }

  /** "Host:" before "X: y" makes "X:" the host. */
  lemma NextNameIsHost()
    ensures HostOf(["Host:", "X: y"]) == Some("X:")
  {
    var fields := ["Host:", "X: y"];
    ScanOneWord("Host:");
    assert ScanWord("") == (None, []);
    assert "X: y" == "X:" + [' '] + "y";
    ScanFirstWord("X:", ' ', "y");
    assert LastHostAt(fields, 0);
    HostIsLastValue(fields, 0);
  }

  lemma {:induction false} KeepsAliveAt(fields: seq<string>)
    ensures KeepsAlive(fields)
            <==> exists i :: 0 <= i < |fields| && NameOf(fields[i..]) == "Proxy-Connection:" && ValueOf(fields[i..]) == "Keep-Alive"
    decreases |fields|
  {
    if fields != [] {
      var rest := fields[1..];
      KeepsAliveAt(rest);
      assert fields[0..] == fields;
      assert forall i :: 0 <= i < |rest| ==> rest[i..] == fields[i + 1..];
      if i :| 0 <= i < |fields| && NameOf(fields[i..]) == "Proxy-Connection:" && ValueOf(fields[i..]) == "Keep-Alive" {
        assert i > 0 ==> rest[i - 1..] == fields[i..];
      }
    }
  }

  lemma KeepAliveSplit()
    ensures "Proxy-Connection: Keep-Alive" == "Proxy-Connection:" + [' '] + "Keep-Alive"
    ensures IsWord("Proxy-Connection:") && IsWord("Keep-Alive") && OneLine("Proxy-Connection: Keep-Alive")
  {
  }

  /** The field that asks to keep the connection, as it stands in a request. */
  lemma KeepAliveField()
    ensures Named("Proxy-Connection: Keep-Alive") && KeepsAlive(["Proxy-Connection: Keep-Alive"])
  {
    KeepAliveSplit();
    ScanFirstWord("Proxy-Connection:", ' ', "Keep-Alive");
    ScanSpaced(' ', "Keep-Alive");
    ScanOneWord("Keep-Alive");
  }

  lemma {:induction false} SkipPlain(full: string, p: nat, stop: nat, acc: Scan)
    requires p <= stop <= |full| && forall i :: p <= i < stop ==> full[i] != '\r'
    ensures HeaderScan(full, p, acc) == HeaderScan(full, stop, acc)
    decreases stop - p
  {
    if p < stop { SkipPlain(full, p + 1, stop, acc); }
  }

  lemma EndScan(before: string, acc: Scan)
    ensures HeaderScan(before + BLANK, |before|, acc) == acc
  {
    var full := before + BLANK;
    var p := |before|;
    assert full[p..] == BLANK && full[p + 2..] == CRLF;
    NoWordsInBreaks();
    assert Note(acc, "", "") == acc;
    assert HeaderScan(full, p, acc) == HeaderScan(full, p + 1, acc) == HeaderScan(full, p + 2, acc);
    assert HeaderScan(full, p + 2, acc) == HeaderScan(full, p + 3, acc) == HeaderScan(full, p + 4, acc);
  }

  /** From behind the '\r' before a line to its end there is no other. */
  lemma NoBreakInLine(before: string, line: string, more: string, i: nat)
    requires OneLine(line) && |before| < i < |before + CRLF + line|
    ensures (before + CRLF + line + more)[i] != '\r'
  {
  }

  lemma RestOfLine(before: string, line: string, more: string, acc: Scan)
    requires OneLine(line)
    ensures var full := before + CRLF + line + more;
            HeaderScan(full, |before| + 1, acc) == HeaderScan(full, |before + CRLF + line|, acc)
  {
    var full := before + CRLF + line + more;
    forall i | |before| + 1 <= i < |before + CRLF + line|
      ensures full[i] != '\r'
    {
      NoBreakInLine(before, line, more, i);
    }
    SkipPlain(full, |before| + 1, |before + CRLF + line|, acc);
  }

  lemma FieldStep(before: string, fields: seq<string>, acc: Scan)
    requires fields != [] && AllNamed(fields)
    ensures var full := before + CRLF + Lines(fields) + CRLF;
            HeaderScan(full, |before|, acc)
            == HeaderScan(full, |before + CRLF + fields[0]|, Note(acc, NameOf(fields), ValueOf(fields)))
  {
    var field, rest := fields[0], fields[1..];
    var full, more := before + CRLF + Lines(fields) + CRLF, Lines(rest) + CRLF;
    assert full == before + CRLF + field + (CRLF + more);
    assert full[|before|] == '\r' && full[|before|..] == CRLF + field + CRLF + more;
    WordsAfterCR(field, rest, CRLF);
    FollowingEnd(rest);
    RestOfLine(before, field, CRLF + more, Note(acc, NameOf(fields), ValueOf(fields)));
  }

  /** The fields one by one, from an accumulated result on. */
  lemma {:induction false} FieldsScan(before: string, fields: seq<string>, acc: Scan)
    requires AllNamed(fields)
    ensures HeaderScan(before + CRLF + Lines(fields) + CRLF, |before|, acc)
            == Scan(if HostOf(fields).Some? then HostOf(fields) else acc.host, acc.persistent || KeepsAlive(fields))
    decreases |fields|
  {
    var full := before + CRLF + Lines(fields) + CRLF;
    if fields == [] {
      assert full == before + BLANK;
      EndScan(before, acc);
    } else {
      var next := before + CRLF + fields[0];
      assert full == next + CRLF + Lines(fields[1..]) + CRLF;
      FieldStep(before, fields, acc);
      FieldsScan(next, fields[1..], Note(acc, NameOf(fields), ValueOf(fields)));
    }
  }

  /** On a request of named fields, the scan from the end of the request line yields the host
      of HostOf, and whether a field asks to keep alive. */
  lemma ScanFindsLastHost(line: string, fields: seq<string>, persistent: bool)
    requires AllNamed(fields)
    ensures HeaderScan(RequestText(line, fields), |line|, Scan(None, persistent))
            == Scan(HostOf(fields), persistent || KeepsAlive(fields))
  {
    FieldsScan(line, fields, Scan(None, persistent));
  }

  // ---- the scan for Content-Length in a response ------------------------------------

  /** The value behind the first Content-Length line at a '\r'; `value` is what an earlier
      conversion left in cmd2. */
  function ContentLengthAt(chunk: string, p: nat, value: string): Option<string>
    decreases |chunk| - p
  {
    if p >= |chunk| then None
    else if chunk[p] != '\r' then ContentLengthAt(chunk, p + 1, value)
    else
      var second := Word2(chunk[p..]);
      var value' := if second.Some? then second.value else value;
      if Word1(chunk[p..]) == Some("Content-Length:") then Some(value') else ContentLengthAt(chunk, p + 1, value')
  }

  function MessageText(line: string, fields: seq<string>, body: string): string {
    RequestText(line, fields) + body
  }

  /** A message as far as it is known: a line, some of its fields, and what stands behind. */
  function Opening(line: string, fields: seq<string>, more: string): string {
    line + CRLF + (Lines(fields) + more)
  }

  lemma MessageOpens(line: string, fields: seq<string>, body: string)
    ensures MessageText(line, fields, body) == Opening(line, fields, CRLF + body)
  {
  }

  predicate LengthField(field: string) { Word1(field) == Some("Content-Length:") }

  /** What cmd2 holds behind the conversion at the first of these fields. */
  function CarriedOver(fields: seq<string>, more: string, stale: string): string
    requires fields != []
  {
    var second := SecondWord(fields[0], Following(fields[1..], more));
    if second.Some? then second.value else stale
  }

  /** What cmd2 holds behind the fields. */
  function Carried(fields: seq<string>, more: string, stale: string): string {
    if fields == [] then stale else Carried(fields[1..], more, CarriedOver(fields, more, stale))
  }

  /** What the scan finds, field by field, and then in the text behind them. */
  function LengthFound(fields: seq<string>, more: string, stale: string): Option<string> {
    if fields == [] then ContentLengthAt(CRLF + more, 0, stale)
    else if LengthField(fields[0]) then Some(CarriedOver(fields, more, stale))
    else LengthFound(fields[1..], more, CarriedOver(fields, more, stale))
  }

  predicate FirstLengthAt(fields: seq<string>, i: int) {
    0 <= i < |fields| && LengthField(fields[i]) && forall j :: 0 <= j < i ==> !LengthField(fields[j])
  }

  /** What is taken for the value of field i when it has none: the name of the next field, or
      the next word behind the fields, or the word that an earlier conversion left. */
  function WordInstead(fields: seq<string>, i: nat, more: string, stale: string): string
    requires i < |fields|
  {
    if i + 1 < |fields| then OrEmpty(Word1(fields[i + 1]))
    else if Word1(more).Some? then Word1(more).value
    else if i == 0 then stale
    else OrEmpty(SecondWord(fields[i - 1], Word1(fields[i])))
  }

  lemma {:induction false} FoundAtFirst(fields: seq<string>, i: nat, more: string, stale: string)
    requires AllNamed(fields) && FirstLengthAt(fields, i)
    ensures LengthFound(fields, more, stale)
            == Some(if Word2(fields[i]).Some? then Word2(fields[i]).value else WordInstead(fields, i, more, stale))
    decreases |fields|
  {
    if i > 0 {
      var rest := fields[1..];
      assert !LengthField(fields[0]) && FirstLengthAt(rest, i - 1);
      FoundAtFirst(rest, i - 1, more, CarriedOver(fields, more, stale));
    }
  }

  predicate NoLengthField(fields: seq<string>) {
    forall i :: 0 <= i < |fields| ==> !LengthField(fields[i])
  }

  lemma {:induction false} FoundBehind(fields: seq<string>, more: string, stale: string)
    requires NoLengthField(fields)
    ensures LengthFound(fields, more, stale) == ContentLengthAt(CRLF + more, 0, Carried(fields, more, stale))
    decreases |fields|
  {
    if fields != [] { FoundBehind(fields[1..], more, CarriedOver(fields, more, stale)); }
  }

  lemma {:induction false} SkipToBreak(s: string, p: nat, stop: nat, value: string)
    requires p <= stop <= |s| && forall i :: p <= i < stop ==> s[i] != '\r'
    ensures ContentLengthAt(s, p, value) == ContentLengthAt(s, stop, value)
    decreases stop - p
  {
    if p < stop { SkipToBreak(s, p + 1, stop, value); }
  }

  /** Text in front of where the scan stands does not matter. */
  lemma {:induction false} ScanFromHere(before: string, s: string, p: nat, value: string)
    ensures ContentLengthAt(before + s, |before| + p, value) == ContentLengthAt(s, p, value)
    decreases |s| - p
  {
    if p < |s| {
      assert (before + s)[|before| + p..] == s[p..];
      var second := Word2(s[p..]);
      ScanFromHere(before, s, p + 1, if s[p] == '\r' && second.Some? then second.value else value);
    }
  }

  lemma LineSkipped(before: string, line: string, more: string, value: string)
    requires OneLine(line)
    ensures var s := before + CRLF + line + more;
            ContentLengthAt(s, |before| + 1, value) == ContentLengthAt(s, |before + CRLF + line|, value)
  {
    var s := before + CRLF + line + more;
    forall i | |before| + 1 <= i < |before + CRLF + line|
      ensures s[i] != '\r'
    {
      NoBreakInLine(before, line, more, i);
    }
    SkipToBreak(s, |before| + 1, |before + CRLF + line|, value);
  }

  lemma LengthStep(before: string, fields: seq<string>, more: string, stale: string)
    requires fields != [] && AllNamed(fields)
    ensures LengthField(fields[0]) ==>
              ContentLengthAt(Opening(before, fields, more), |before|, stale) == Some(CarriedOver(fields, more, stale))
    ensures !LengthField(fields[0]) ==>
              ContentLengthAt(Opening(before, fields, more), |before|, stale)
              == ContentLengthAt(Opening(before, fields, more), |before + CRLF + fields[0]|, CarriedOver(fields, more, stale))
  {
    var field, rest := fields[0], fields[1..];
    var s, tail := Opening(before, fields, more), Lines(rest) + more;
    assert s == before + CRLF + field + (CRLF + tail);
    assert s[|before|] == '\r' && s[|before|..] == CRLF + field + CRLF + tail;
    WordsAfterCR(field, rest, more);
    LineSkipped(before, field, CRLF + tail, CarriedOver(fields, more, stale));
  }

  lemma OpensLater(before: string, fields: seq<string>, more: string)
    requires fields != []
    ensures Opening(before, fields, more) == Opening(before + CRLF + fields[0], fields[1..], more)
  {
  }

  lemma {:induction false} LengthScan(before: string, fields: seq<string>, more: string, stale: string)
    requires AllNamed(fields)
    ensures ContentLengthAt(Opening(before, fields, more), |before|, stale) == LengthFound(fields, more, stale)
    decreases |fields|
  {
    if fields == [] {
      assert Opening(before, fields, more) == before + (CRLF + more);
      ScanFromHere(before, CRLF + more, 0, stale);
    } else {
      LengthStep(before, fields, more, stale);
      if !LengthField(fields[0]) {
        OpensLater(before, fields, more);
        LengthScan(before + CRLF + fields[0], fields[1..], more, CarriedOver(fields, more, stale));
      }
    }
  }

  /** From the start of a message the scan goes through the fields and what stands behind. */
  lemma ScanFindsLength(line: string, fields: seq<string>, more: string)
    requires OneLine(line) && AllNamed(fields)
    ensures ContentLengthAt(Opening(line, fields, more), 0, "") == LengthFound(fields, more, "")
  {
    SkipToBreak(Opening(line, fields, more), 0, |line|, "");
    LengthScan(line, fields, more, "");
  }

  /** With a Content-Length field the scan yields the value of the first one exactly when that
      has a value; otherwise it yields the word instead. */
  lemma LengthIsFirstValue(line: string, fields: seq<string>, i: nat, more: string)
    requires OneLine(line) && AllNamed(fields) && FirstLengthAt(fields, i)
    ensures ContentLengthAt(Opening(line, fields, more), 0, "") == Word2(fields[i]) <==> Word2(fields[i]).Some?
    ensures Word2(fields[i]).None? ==>
              ContentLengthAt(Opening(line, fields, more), 0, "") == Some(WordInstead(fields, i, more, ""))
  {
    ScanFindsLength(line, fields, more);
    FoundAtFirst(fields, i, more, "");
  }

  // ---- the same scan behind the fields

  predicate LengthLine(s: string, p: int) {
    0 <= p < |s| && s[p] == '\r' && Word1(s[p..]) == Some("Content-Length:")
  }

  /** Nothing behind the fields looks like a Content-Length line. */
  predicate QuietBody(body: string) {
    forall p :: 0 <= p < |BLANK + body| ==> !LengthLine(BLANK + body, p)
  }

  lemma {:induction false} NoLengthLine(s: string, p: nat, value: string)
    ensures ContentLengthAt(s, p, value).None? <==> forall q :: p <= q < |s| ==> !LengthLine(s, q)
    decreases |s| - p
  {
    if p < |s| {
      var second := Word2(s[p..]);
      NoLengthLine(s, p + 1, if s[p] == '\r' && second.Some? then second.value else value);
      assert (forall q :: p <= q < |s| ==> !LengthLine(s, q))
             <==> !LengthLine(s, p) && forall q :: p + 1 <= q < |s| ==> !LengthLine(s, q);
    }
  }

  /** In the blank line and the body the scan finds nothing exactly when the body is quiet. */
  lemma QuietExactly(body: string, value: string)
    ensures ContentLengthAt(BLANK + body, 0, value).None? <==> QuietBody(body)
  {
    NoLengthLine(BLANK + body, 0, value);
  }

  /** Without a Content-Length field, what the body looks like decides. */
  lemma FoundInBody(fields: seq<string>, body: string)
    requires NoLengthField(fields)
    ensures LengthFound(fields, CRLF + body, "") == ContentLengthAt(BLANK + body, 0, Carried(fields, CRLF + body, ""))
    ensures LengthFound(fields, CRLF + body, "").None? <==> QuietBody(body)
  {
    FoundBehind(fields, CRLF + body, "");
    assert CRLF + (CRLF + body) == BLANK + body;
    QuietExactly(body, Carried(fields, CRLF + body, ""));
  }

  /** Of a line that the text breaks off in, the first two words so far decide. */
  lemma CutLine(more: string, value: string)
    requires '\r' !in more
    ensures ContentLengthAt(CRLF + more, 0, value)
            == if Word1(more) != Some("Content-Length:") then None
               else if Word2(more).Some? then Word2(more) else Some(value)
  {
    var s := CRLF + more;
    var value' := if Word2(more).Some? then Word2(more).value else value;
    assert s[0..] == s;
    ScanBreak(more);
    assert forall p :: 2 <= p < |s| ==> s[p] == more[p - 2] && more[p - 2] in more;
    SkipToBreak(s, 1, |s|, value');
  }

  lemma BlankWords(body: string)
    ensures ScanWord(BLANK + body) == ScanWord(body) && ScanWord((BLANK + body)[2..]) == ScanWord(body)
  {
    assert BLANK + body == CRLF + (CRLF + body) && (BLANK + body)[2..] == CRLF + body;
    ScanBreak(CRLF + body);
    ScanBreak(body);
  }

  lemma PlainTail(body: string, value: string)
    requires '\r' !in body
    ensures ContentLengthAt(BLANK + body, 3, value) == None
  {
    var s := BLANK + body;
    assert forall p :: 4 <= p < |s| ==> s[p] == body[p - 4] && body[p - 4] in body;
    SkipToBreak(s, 3, |s|, value);
  }

  /** Of a body without carriage returns the first two words decide. */
  lemma PlainBody(body: string, value: string)
    requires '\r' !in body
    ensures ContentLengthAt(BLANK + body, 0, value)
            == if Word1(body) != Some("Content-Length:") then None
               else if Word2(body).Some? then Word2(body) else Some(value)
  {
    var s := BLANK + body;
    var value' := if Word2(body).Some? then Word2(body).value else value;
    assert s[0..] == s;
    BlankWords(body);
    PlainTail(body, value');
    assert ContentLengthAt(s, 1, value') == ContentLengthAt(s, 2, value');
  }

  // ---- where the blank line is ------------------------------------------------------

  /** Lines of text hold no blank line before the one that ends the request. */
  lemma {:induction false} NoBlankInside(fields: seq<string>, i: nat)
    requires forall k :: 0 <= k < |fields| ==> OneLine(fields[k])
    requires BlankHere(Lines(fields) + CRLF, i)
    ensures i + 4 == |Lines(fields) + CRLF|
    decreases |fields|
  {
    if fields != [] {
      var field, rest := fields[0], fields[1..];
      var s, tail := Lines(fields) + CRLF, Lines(rest) + CRLF;
      assert s == field + CRLF + tail;
      assert forall k :: 0 <= k < |field| ==> s[k] == field[k];
      StartsBlank(rest);
      if i != |field| {
        assert s[|field|] == '\r' && s[|field| + 1] == '\n';
        assert BlankHere(tail, i - |field| - 2);
        NoBlankInside(rest, i - |field| - 2);
      }
    }
  }

  lemma StartsBlank(fields: seq<string>)
    requires forall k :: 0 <= k < |fields| ==> OneLine(fields[k])
    ensures (Lines(fields) + CRLF)[0] == '\r' <==> fields == []
  {
    if fields != [] {
      assert (Lines(fields) + CRLF)[0] == fields[0][0];
    }
  }

  /** A request's only blank line is its end. */
  lemma BlankEndsRequest(line: string, fields: seq<string>, i: nat)
    requires OneLine(line) && forall k :: 0 <= k < |fields| ==> OneLine(fields[k])
    ensures BlankHere(RequestText(line, fields), i) <==> i + 4 == |RequestText(line, fields)|
  {
    var all := [line] + fields;
    assert all[1..] == fields;
    assert RequestText(line, fields) == Lines(all) + CRLF;
    if BlankHere(RequestText(line, fields), i) { NoBlankInside(all, i); }
    LinesEnd(all);
  }

  lemma {:induction false} LinesEnd(fields: seq<string>)
    requires fields != []
    ensures var s := Lines(fields);
            |s| >= 2 && s[|s| - 2] == '\r' && s[|s| - 1] == '\n'
    decreases |fields|
  {
    if |fields| == 1 {
      assert Lines(fields) == fields[0] + CRLF + "";
    } else {
      LinesEnd(fields[1..]);
    }
  }

  lemma BlankStays(s: string, more: string)
    requires BlankAt(s) >= 0
    ensures BlankAt(s + more) == BlankAt(s)
  {
    assert BlankHere(s + more, BlankAt(s));
    assert forall i :: 0 <= i && i + 4 <= |s| ==> BlankHere(s + more, i) == BlankHere(s, i);
  }

  lemma NamedLines(fields: seq<string>)
    requires AllNamed(fields)
    ensures forall k :: 0 <= k < |fields| ==> OneLine(fields[k])
  {
  }

  /** In a message the first blank line is the one before the body. */
  lemma BlankBeforeBody(line: string, fields: seq<string>, body: string)
    requires OneLine(line) && AllNamed(fields)
    ensures BlankAt(MessageText(line, fields, body)) == |RequestText(line, fields)| - 4 >= 0
  {
    var head := RequestText(line, fields);
    NamedLines(fields);
    BlankEndsRequest(line, fields, |head| - 4);
    assert BlankHere(head, |head| - 4);
    BlankEndsRequest(line, fields, BlankAt(head));
    BlankStays(head, body);
  }

  lemma {:induction false} LinesNulFree(fields: seq<string>)
    requires AllNamed(fields)
    ensures NulFreeText(Lines(fields))
  {
    if fields != [] { LinesNulFree(fields[1..]); }
  }

  lemma HeadNulFree(line: string, fields: seq<string>)
    requires OneLine(line) && AllNamed(fields)
    ensures NulFreeText(RequestText(line, fields))
  {
    LinesNulFree(fields);
  }
}
