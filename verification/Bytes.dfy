/** File contents, C strings and buffered reads, as both downloaders use them. */
module Bytes {

  newtype byte = x: int | 0 <= x < 256

  predicate NulFree(s: seq<byte>) {
    forall i :: 0 <= i < |s| ==> s[i] != 0
  }

  /** The bytes that strcpy or a "%s" conversion carries: everything before the first NUL. */
  function CString(s: seq<byte>): (r: seq<byte>)
    ensures r <= s && NulFree(r)
    ensures r == s <==> NulFree(s)
  {
    if s == [] || s[0] == 0 then []
    else
      assert s == [s[0]] + s[1..];
      [s[0]] + CString(s[1..])
  }

  /** It stops at the first NUL and not before. */
  lemma {:induction false} CStringStops(s: seq<byte>)
    ensures |CString(s)| < |s| ==> s[|CString(s)|] == 0
  {
    if s != [] && s[0] != 0 {
      CStringStops(s[1..]);
      assert CString(s) == [s[0]] + CString(s[1..]);
    }
  }

  /** fread of n bytes at offset pos: short at the end of the file. */
  function ReadAt(file: seq<byte>, pos: nat, n: nat): (r: seq<byte>)
    ensures |r| <= n
    ensures pos + n <= |file| ==> r == file[pos..pos + n]
  {
    if pos >= |file| then []
    else if pos + n <= |file| then file[pos..pos + n]
    else file[pos..]
  }

  /** A read never goes past the end of the file, and is short only there. */
  lemma ReadIsClamped(file: seq<byte>, pos: nat, n: nat)
    ensures |ReadAt(file, pos, n)| == if pos + n <= |file| then n else if pos < |file| then |file| - pos else 0
    ensures forall i :: 0 <= i < |ReadAt(file, pos, n)| ==> ReadAt(file, pos, n)[i] == file[pos + i]
  {
  }

  function Flatten(parts: seq<seq<byte>>): seq<byte> {
    if parts == [] then [] else parts[0] + Flatten(parts[1..])
  }

  lemma {:induction false} FlattenAppend(a: seq<seq<byte>>, b: seq<seq<byte>>)
    ensures Flatten(a + b) == Flatten(a) + Flatten(b)
  {
    if a == [] {
      assert a + b == b;
    } else {
      assert (a + b)[1..] == a[1..] + b;
      FlattenAppend(a[1..], b);
    }
  }

  lemma FlattenOne(part: seq<byte>)
    ensures Flatten([part]) == part
  {
    assert Flatten([part]) == part + Flatten([]);
  }

  lemma NulFreeConcat(a: seq<byte>, b: seq<byte>)
    ensures NulFree(a + b) <==> NulFree(a) && NulFree(b)
  {
    assert forall i :: 0 <= i < |a| ==> (a + b)[i] == a[i];
    assert forall i :: 0 <= i < |b| ==> (a + b)[|a| + i] == b[i];
  }

  /** Two concatenations whose left parts are prefix-related agree only if both halves agree. */
  lemma SplitEqual(a: seq<byte>, b: seq<byte>, c: seq<byte>, d: seq<byte>)
    requires |a| <= |c| && |b| <= |d| && a + b == c + d
    ensures a == c && b == d
  {
    assert |a + b| == |a| + |b|;
    assert a == (a + b)[..|a|] && c == (c + d)[..|c|];
    assert b == (a + b)[|a|..] && d == (c + d)[|c|..];
  }
}
