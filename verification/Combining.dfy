/** combinefile (HW4) and combine_file (HW3): the parts stored as numbered files, joined. */
module Combining {
  import opened Bytes
  import opened Text
  import opened Ranges

  /** The text written for files 0 up to k - 1; None when one of them is missing. */
  function Combined(files: map<nat, seq<byte>>, k: nat): Option<seq<byte>> {
    if k == 0 then Some([])
    else
      var earlier := Combined(files, k - 1);
      if earlier.None? || k - 1 !in files then None else Some(earlier.value + files[k - 1])
  }

  /** The numbered files one after the other; a missing one counts as empty. */
  function FilesUpTo(files: map<nat, seq<byte>>, k: nat): seq<seq<byte>> {
    seq(k, i requires 0 <= i < k => if i in files then files[i] else [])
  }

  /** What is combined: the files laid end to end, whatever they hold, unless one is missing. */
  lemma {:induction false} CombinedIs(files: map<nat, seq<byte>>, k: nat)
    ensures Combined(files, k).None? <==> exists i :: 0 <= i < k && i !in files
    ensures Combined(files, k).Some? ==> Combined(files, k).value == Flatten(FilesUpTo(files, k))
  {
    if k > 0 {
      CombinedIs(files, k - 1);
      if Combined(files, k).Some? {
        assert FilesUpTo(files, k) == FilesUpTo(files, k - 1) + [files[k - 1]];
        FlattenAppend(FilesUpTo(files, k - 1), [files[k - 1]]);
        FlattenOne(files[k - 1]);
      }
    }
  }

  method CombineFile(files: map<nat, seq<byte>>, count: nat) returns (target: Option<seq<byte>>)
    ensures target == Combined(files, count)
    ensures target.None? <==> exists i :: 0 <= i < count && i !in files
    ensures target.Some? ==> target.value == Flatten(FilesUpTo(files, count))
  {
    CombinedIs(files, count);
    var text: seq<byte> := [];
    var i := 0;
    while i < count
      invariant i <= count && Combined(files, i) == Some(text)
    {
      if i !in files {
        MissingStays(files, i + 1, count);
        return None;
      }
      var fd := files[i];
      var pos := 0;
      ghost var earlier := text;
      while pos < |fd|
        invariant pos <= |fd| && text == earlier + fd[..pos]
      {
        text := text + [fd[pos]];
        pos := pos + 1;
      }
      assert fd[..pos] == fd;
      i := i + 1;
    }
    target := Some(text);
  }

  lemma MissingStays(files: map<nat, seq<byte>>, i: nat, k: nat)
    requires i <= k && Combined(files, i).None?
    ensures Combined(files, k).None?
  {
  }

  lemma {:induction false} CombinedExists(files: map<nat, seq<byte>>, k: nat)
    requires forall i :: 0 <= i < k ==> i in files
    ensures Combined(files, k).Some?
  {
    if k > 0 { CombinedExists(files, k - 1); }
  }

  /** Files no longer than their ranges combine to the whole only if each is its whole range. */
  lemma {:induction false} CombinedExactly(file: seq<byte>, parts: nat, files: map<nat, seq<byte>>, k: nat)
    requires 0 < parts && k <= parts
    requires forall i :: 0 <= i < k && i in files ==> |files[i]| <= |Part(file, parts, i)|
    ensures Combined(files, k).Some? ==> |Combined(files, k).value| <= |Joined(file, parts, k)|
    ensures Combined(files, k) == Some(Joined(file, parts, k))
            <==> forall i :: 0 <= i < k ==> i in files && files[i] == Part(file, parts, i)
  {
    if k > 0 {
      CombinedExactly(file, parts, files, k - 1);
      var part := Part(file, parts, k - 1);
      if Combined(files, k).Some? && Combined(files, k).value == Joined(file, parts, k) {
        SplitEqual(Combined(files, k - 1).value, files[k - 1], Joined(file, parts, k - 1), part);
      }
    }
  }

  lemma {:induction false} NulFreeParts(file: seq<byte>, parts: nat, k: nat)
    requires 0 < parts && k <= parts
    ensures NulFree(Joined(file, parts, k)) <==> forall i :: 0 <= i < k ==> NulFree(Part(file, parts, i))
  {
    if k > 0 {
      NulFreeParts(file, parts, k - 1);
      NulFreeConcat(Joined(file, parts, k - 1), Part(file, parts, k - 1));
    }
  }

  /** If each numbered file is its range exactly when the range has no NUL, the combined text
      is the file exactly when the file has no NUL. */
  lemma CombinedIffNulFree(file: seq<byte>, parts: nat, files: map<nat, seq<byte>>)
    requires 0 < parts
    requires forall i :: 0 <= i < parts ==>
               && i in files && |files[i]| <= |Part(file, parts, i)|
               && (files[i] == Part(file, parts, i) <==> NulFree(Part(file, parts, i)))
    ensures Combined(files, parts).Some?
    ensures Combined(files, parts) == Some(file) <==> NulFree(file)
  {
    CombinedExactly(file, parts, files, parts);
    NulFreeParts(file, parts, parts);
    PartsRebuildFile(file, parts);
    CombinedExists(files, parts);
  }
}
