/** The C text conventions the programs rely on: "%ld" printing, atol, and strtok. */
module Text {

  datatype Option<+T> = None | Some(value: T)

  // ---- decimal numbers --------------------------------------------------------------

  predicate IsDigit(c: char) { '0' <= c <= '9' }

  predicate IsSpace(c: char) {
    c == ' ' || '\t' <= c <= '\r'
  }

  /** What isspace calls white space (section 7.4.1.10 of ISO C11), by character codes. */
  lemma SpaceCodes(c: char)
    ensures IsSpace(c) <==> c as int in {9, 10, 11, 12, 13, 32}
  {
  }

  function DigitChar(d: nat): char
    requires d < 10
  {
    '0' + d as char
  }

  function DigitValue(c: char): nat
    requires IsDigit(c)
  {
    c as nat - '0' as nat
  }

  function Decimal(n: nat): (s: string)
    ensures s != [] && forall i :: 0 <= i < |s| ==> IsDigit(s[i])
  {
    if n < 10 then [DigitChar(n)] else Decimal(n / 10) + [DigitChar(n % 10)]
  }

  /** sprintf "%ld" (and "%d"). */
  function PrintLong(n: int): (s: string)
    ensures s != []
  {
    if n < 0 then "-" + Decimal(-n) else Decimal(n)
  }

  function DigitsFrom(s: string, acc: nat): nat {
    if s == [] || !IsDigit(s[0]) then acc else DigitsFrom(s[1..], 10 * acc + DigitValue(s[0]))
  }

  /** atol and atoi: leading white space, an optional sign, then digits up to the first non-digit. */
  function Atol(s: string): int {
    if s == [] then 0
    else if IsSpace(s[0]) then Atol(s[1..])
    else if s[0] == '-' then -(DigitsFrom(s[1..], 0) as int)
    else if s[0] == '+' then DigitsFrom(s[1..], 0)
    else DigitsFrom(s, 0)
  }

  lemma {:induction false} DigitsOfDecimal(n: nat, rest: string)
    ensures DigitsFrom(Decimal(n) + rest, 0) == DigitsFrom(rest, n)
  {
    if n < 10 {
      assert (Decimal(n) + rest)[1..] == rest;
    } else {
      var last := [DigitChar(n % 10)];
      assert Decimal(n) + rest == Decimal(n / 10) + (last + rest);
      DigitsOfDecimal(n / 10, last + rest);
      assert (last + rest)[1..] == rest;
    }
  }

  /** Printing a number and reading it back gives the number, negative ones included. */
  lemma AtolOfPrintLong(n: int)
    ensures Atol(PrintLong(n)) == n
  {
    var magnitude: nat := if n < 0 then -n else n;
    DigitsOfDecimal(magnitude, []);
    assert Decimal(magnitude) + [] == Decimal(magnitude);
    if n < 0 {
      assert PrintLong(n)[1..] == Decimal(magnitude);
    }
  }

  lemma {:induction false} DigitsStop(rest: string, acc: nat)
    requires rest == [] || !IsDigit(rest[0])
    ensures DigitsFrom(rest, acc) == acc
  {
  }

  lemma {:induction false} AtolSkips(space: string, s: string)
    requires forall i :: 0 <= i < |space| ==> IsSpace(space[i])
    ensures Atol(space + s) == Atol(s)
  {
    if space == [] {
      assert space + s == s;
    } else {
      assert (space + s)[1..] == space[1..] + s;
      AtolSkips(space[1..], s);
    }
  }

  lemma AtolDigits(n: nat, rest: string)
    requires rest == [] || !IsDigit(rest[0])
    ensures Atol(Decimal(n) + rest) == n
  {
    DigitsOfDecimal(n, rest);
    DigitsStop(rest, n);
    assert IsDigit((Decimal(n) + rest)[0]);
  }

  lemma AtolSigned(n: nat, rest: string)
    requires rest == [] || !IsDigit(rest[0])
    ensures Atol("-" + (Decimal(n) + rest)) == -(n as int) && Atol("+" + (Decimal(n) + rest)) == n
  {
    DigitsOfDecimal(n, rest);
    DigitsStop(rest, n);
    assert ("-" + (Decimal(n) + rest))[1..] == Decimal(n) + rest == ("+" + (Decimal(n) + rest))[1..];
  }

  lemma AtolPositive(n: nat, rest: string)
    requires rest == [] || !IsDigit(rest[0])
    ensures Atol(PrintLong(n) + rest) == n && Atol("+" + (PrintLong(n) + rest)) == n
  {
    AtolDigits(n, rest);
    AtolSigned(n, rest);
  }

  lemma MinusFirst(m: nat, rest: string)
    requires m > 0
    ensures PrintLong(-(m as int)) + rest == "-" + (Decimal(m) + rest)
  {
    var digits := Decimal(m);
    assert "-" + digits + rest == "-" + (digits + rest);
  }

  lemma AtolNegative(m: nat, rest: string)
    requires m > 0 && (rest == [] || !IsDigit(rest[0]))
    ensures Atol(PrintLong(-(m as int)) + rest) == -(m as int)
  {
    var text := "-" + (Decimal(m) + rest);
    MinusFirst(m, rest);
    assert Atol(text) == -(m as int) by { AtolSigned(m, rest); }
  }

  /** White space in front, a plus sign, and what follows the digits do not matter. */
  lemma AtolReads(space: string, n: int, rest: string)
    requires forall i :: 0 <= i < |space| ==> IsSpace(space[i])
    requires rest == [] || !IsDigit(rest[0])
    ensures Atol(space + (PrintLong(n) + rest)) == n
    ensures n >= 0 ==> Atol(space + ("+" + (PrintLong(n) + rest))) == n
  {
    if n < 0 { AtolNegative(-n, rest); } else { AtolPositive(n, rest); }
    AtolSkips(space, PrintLong(n) + rest);
    AtolSkips(space, "+" + (PrintLong(n) + rest));
  }

  // ---- strtok -----------------------------------------------------------------------

  predicate Free(s: string, d: char) { d !in s }

  /** A field that strtok gives back whole: non-empty and without the delimiter. */
  predicate IsField(s: string, d: char) { s != [] && Free(s, d) }

  function SkipAll(s: string, d: char): (t: string)
    ensures |t| <= |s|
  {
    if s != [] && s[0] == d then SkipAll(s[1..], d) else s
  }

  function IndexOf(s: string, d: char): (k: nat)
    ensures k <= |s| && Free(s[..k], d)
    ensures k < |s| ==> s[k] == d
  {
    if s == [] || s[0] == d then 0
    else
      assert s[..1 + IndexOf(s[1..], d)] == [s[0]] + s[1..][..IndexOf(s[1..], d)];
      1 + IndexOf(s[1..], d)
  }

  /** One strtok call: the token found, if any, and the text the next call starts from. */
  function Strtok(s: string, d: char): (r: (Option<string>, string))
    ensures r.0.Some? ==> |r.1| < |s|
  {
    var t := SkipAll(s, d);
    if t == [] then (None, [])
    else
      var k := IndexOf(t, d);
      (Some(t[..k]), if k < |t| then t[k + 1..] else [])
  }

  lemma {:induction false} IndexOfJoin(f: string, d: char, rest: string)
    requires Free(f, d)
    ensures IndexOf(f + [d] + rest, d) == |f|
    ensures IndexOf(f, d) == |f|
  {
    if f != [] {
      assert (f + [d] + rest)[1..] == f[1..] + [d] + rest;
      IndexOfJoin(f[1..], d, rest);
    }
  }

  /** Joining a field to more text with a delimiter and cutting it off again. */
  lemma StrtokJoin(f: string, d: char, rest: string)
    requires IsField(f, d)
    ensures Strtok(f + [d] + rest, d) == (Some(f), rest)
    ensures Strtok(f, d) == (Some(f), [])
  {
    IndexOfJoin(f, d, rest);
    var s := f + [d] + rest;
    assert s[0] == f[0] && f[0] in f;
    assert SkipAll(s, d) == s && SkipAll(f, d) == f;
    assert s[..|f|] == f && s[|f| + 1..] == rest;
    assert f[..|f|] == f;
  }

  lemma {:induction false} SkipAllStops(s: string, d: char)
    ensures SkipAll(s, d) != [] ==> SkipAll(s, d)[0] != d
  {
    if s != [] && s[0] == d { SkipAllStops(s[1..], d); }
  }

  /** Whatever the text, a token that strtok finds is a field. */
  lemma TokenIsField(s: string, d: char)
    ensures Strtok(s, d).0.Some? ==> IsField(Strtok(s, d).0.value, d)
  {
    SkipAllStops(s, d);
  }

  /** The last field of a text, with or without a delimiter behind it. */
  lemma StrtokLast(f: string, d: char, tail: string)
    requires IsField(f, d) && (tail == [] || tail == [d])
    ensures Strtok(f + tail, d) == (Some(f), [])
  {
    StrtokJoin(f, d, []);
    assert f + [] == f && f + [d] + [] == f + [d];
  }

  lemma Regroup(a: string, b: string, c: string, e: string, d: char)
    ensures a + [d] + b + [d] + c + [d] + e == a + [d] + (b + [d] + (c + [d] + e))
  {
  }

  /** Four fields joined with single delimiters come back in order from four strtok calls. */
  lemma FourFields(a: string, b: string, c: string, e: string, tail: string, d: char)
    requires IsField(a, d) && IsField(b, d) && IsField(c, d) && IsField(e, d)
    requires tail == [] || tail == [d]
    ensures Strtok(a + [d] + b + [d] + c + [d] + (e + tail), d) == (Some(a), b + [d] + (c + [d] + (e + tail)))
    ensures Strtok(b + [d] + (c + [d] + (e + tail)), d) == (Some(b), c + [d] + (e + tail))
    ensures Strtok(c + [d] + (e + tail), d) == (Some(c), e + tail)
    ensures Strtok(e + tail, d) == (Some(e), [])
  {
    Regroup(a, b, c, e + tail, d);
    StrtokJoin(a, d, b + [d] + (c + [d] + (e + tail)));
    StrtokJoin(b, d, c + [d] + (e + tail));
    StrtokJoin(c, d, e + tail);
    StrtokLast(e, d, tail);
  }

  lemma {:induction false} SkipsOnly(s: string, d: char) returns (n: nat)
    ensures n <= |s| && SkipAll(s, d) == s[n..] && forall i :: 0 <= i < n ==> s[i] == d
  {
    n := 0;
    if s != [] && s[0] == d {
      var k := SkipsOnly(s[1..], d);
      n := k + 1;
    }
  }

  /** Any text is delimiters, the token, and, unless the text ends there, one delimiter and the
      rest; or delimiters only. */
  lemma StrtokCuts(s: string, d: char) returns (n: nat)
    ensures n <= |s| && forall i :: 0 <= i < n ==> s[i] == d
    ensures Strtok(s, d).0.None? ==> n == |s|
    ensures Strtok(s, d).0.Some? ==>
              || s[n..] == Strtok(s, d).0.value + [d] + Strtok(s, d).1
              || (s[n..] == Strtok(s, d).0.value && Strtok(s, d).1 == [])
  {
    n := SkipsOnly(s, d);
    var t := SkipAll(s, d);
    var k := IndexOf(t, d);
    if k < |t| { assert t == t[..k] + [d] + t[k + 1..]; } else { assert t[..k] == t; }
  }

  lemma PrintLongIsField(n: int, d: char)
    requires !IsDigit(d) && d != '-'
    ensures IsField(PrintLong(n), d)
  {
  }

  // ---- texts in pieces --------------------------------------------------------------

  function Concat(pieces: seq<string>): string {
    if pieces == [] then "" else pieces[0] + Concat(pieces[1..])
  }

  lemma {:induction false} ConcatAppend(a: seq<string>, b: seq<string>)
    ensures Concat(a + b) == Concat(a) + Concat(b)
  {
    if a == [] {
      assert a + b == b;
    } else {
      assert (a + b)[1..] == a[1..] + b;
      ConcatAppend(a[1..], b);
    }
  }

  lemma ConcatOne(piece: string)
    ensures Concat([piece]) == piece
  {
    assert [piece][1..] == [];
  }

  // ---- strlen -----------------------------------------------------------------------

  predicate NulFreeText(s: string) { forall i :: 0 <= i < |s| ==> s[i] != '\0' }

  /** What strlen, strcat, strstr and sscanf see of a buffer: the text before its first NUL. */
  function CText(s: string): (t: string)
    ensures t <= s && NulFreeText(t)
    ensures t == s <==> NulFreeText(s)
    ensures |t| < |s| ==> s[|t|] == '\0'
  {
    if s == [] || s[0] == '\0' then []
    else
      assert s == [s[0]] + s[1..];
      [s[0]] + CText(s[1..])
  }
}
