/** How both clients cut a file of `size` bytes into `parts` byte ranges with inclusive ends. */
module Ranges {
  import opened Bytes

  function PartStart(size: nat, parts: nat, i: nat): int
    requires 0 < parts
  {
    i * (size / parts)
  }

  function PartEnd(size: nat, parts: nat, i: nat): int
    requires 0 < parts
  {
    if i == parts - 1 then size - 1 else (i + 1) * (size / parts) - 1
  }

  lemma PrefixFits(size: nat, parts: nat, i: nat)
    requires 0 < parts && i <= parts
    ensures 0 <= i * (size / parts) <= size
  {
    var single := size / parts;
    assert parts * single <= size;
    assert i * single <= parts * single by {
      assert (parts - i) * single >= 0;
      assert (parts - i) * single == parts * single - i * single;
    }
  }

  /** The ranges tile [0, size): they start at 0, end at size - 1, and each starts where
      the one before it stopped. A range may be empty (end == start - 1). */
  lemma Tiling(size: nat, parts: nat, i: nat)
    requires i < parts
    ensures 0 <= PartStart(size, parts, i) <= PartEnd(size, parts, i) + 1 <= size
    ensures i == 0 ==> PartStart(size, parts, i) == 0
    ensures PartEnd(size, parts, i) + 1 == if i + 1 < parts then PartStart(size, parts, i + 1) else size
  {
    PrefixFits(size, parts, i);
    PrefixFits(size, parts, i + 1);
    var single := size / parts;
    assert (i + 1) * single == i * single + single;
  }

  /** The bytes of range i. */
  function Part(file: seq<byte>, parts: nat, i: nat): seq<byte>
    requires i < parts
  {
    Tiling(|file|, parts, i);
    file[PartStart(|file|, parts, i)..PartEnd(|file|, parts, i) + 1]
  }

  /** The first k ranges laid end to end. */
  function Joined(file: seq<byte>, parts: nat, k: nat): seq<byte>
    requires k <= parts
  {
    if k == 0 then [] else Joined(file, parts, k - 1) + Part(file, parts, k - 1)
  }

  lemma {:induction false} JoinedIsPrefix(file: seq<byte>, parts: nat, k: nat)
    requires 0 < parts && k <= parts
    ensures k < parts ==> 0 <= PartStart(|file|, parts, k) <= |file|
    ensures Joined(file, parts, k) == if k < parts then file[..PartStart(|file|, parts, k)] else file
  {
    if k == 0 {
      Tiling(|file|, parts, 0);
    } else {
      JoinedIsPrefix(file, parts, k - 1);
      Tiling(|file|, parts, k - 1);
      if k < parts { Tiling(|file|, parts, k); }
    }
  }

  /** Conservation: the ranges put back together are the file, whatever the part count. */
  lemma PartsRebuildFile(file: seq<byte>, parts: nat)
    requires 0 < parts
    ensures Joined(file, parts, parts) == file
  {
    JoinedIsPrefix(file, parts, parts);
  }
}
