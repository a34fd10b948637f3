/** The TCP range transfer of HW3: server_upload_file and download_single_part. Each write of
    a package is one record for the reader. */
module RangeServer {
  import opened Bytes

  const BUFFER_SIZE := 1024
  const CMD_DOWNLOAD := "DWN"

  datatype Package = Package(cmd: string, content: seq<byte>, contentLength: nat, contentIsEnd: int)

  function DataPackage(data: seq<byte>, isEnd: int): Package {
    Package(CMD_DOWNLOAD, CString(data), |data|, isEnd)
  }

  function Max(a: int, b: int): int { if a < b then b else a }

  /** The upload loop comes to its last read: checkable before the call. */
  predicate Ends(file: seq<byte>, start: nat, end: int) {
    end - Max(start, |file|) <= BUFFER_SIZE - 1
  }

  /** The packages written from offset cur on. */
  function Packages(file: seq<byte>, cur: nat, end: int): seq<Package>
    requires cur <= end + 1 && Ends(file, cur, end)
    decreases end - cur
  {
    if end - cur > BUFFER_SIZE - 1 then
      var data := ReadAt(file, cur, BUFFER_SIZE - 1);
      [DataPackage(data, -1)] + Packages(file, cur + |data|, end)
    else [DataPackage(ReadAt(file, cur, end - cur + 1), 1)]
  }

  lemma RoundAdvances(file: seq<byte>, cur: nat, end: int, data: seq<byte>)
    requires cur <= end + 1 && Ends(file, cur, end) && end - cur > BUFFER_SIZE - 1
    requires data == ReadAt(file, cur, BUFFER_SIZE - 1)
    ensures 0 < |data| && cur + |data| <= end + 1 && Ends(file, cur + |data|, end)
  {
  }

  lemma UploadRound(file: seq<byte>, cur: nat, end: int, data: seq<byte>)
    requires cur <= end + 1 && Ends(file, cur, end) && end - cur > BUFFER_SIZE - 1
    requires data == ReadAt(file, cur, BUFFER_SIZE - 1)
    ensures 0 < |data| && cur + |data| <= end + 1 && Ends(file, cur + |data|, end)
    ensures Packages(file, cur, end) == [DataPackage(data, -1)] + Packages(file, cur + |data|, end)
  {
    RoundAdvances(file, cur, end, data);
  }

  lemma LastRound(file: seq<byte>, cur: nat, end: int)
    requires cur <= end + 1 && end - cur <= BUFFER_SIZE - 1
    ensures Packages(file, cur, end) == [DataPackage(ReadAt(file, cur, end - cur + 1), 1)]
  {
  }

  /** One round of the loop: read, fill the package, send it, and go on behind what was read. */
  method SendNext(file: seq<byte>, cur: nat, end: int, sent: seq<Package>) returns (sent': seq<Package>, cur': nat)
    requires cur <= end + 1 && Ends(file, cur, end) && end - cur > BUFFER_SIZE - 1
    ensures cur < cur' <= end + 1 && Ends(file, cur', end)
    ensures sent' + Packages(file, cur', end) == sent + Packages(file, cur, end)
  {
    var data := ReadAt(file, cur, BUFFER_SIZE - 1);
    UploadRound(file, cur, end, data);
    Regroup(sent, DataPackage(data, -1), Packages(file, cur + |data|, end));
    sent' := sent + [DataPackage(data, -1)];
    cur' := cur + |data|;
  }

  lemma Regroup(sent: seq<Package>, package: Package, rest: seq<Package>)
    ensures sent + ([package] + rest) == sent + [package] + rest
  {
  }

  method ServerUploadFile(file: seq<byte>, start: nat, end: int) returns (sent: seq<Package>)
    requires start <= end + 1 && Ends(file, start, end)
    ensures sent == Packages(file, start, end)
  {
    var cur: nat := start;
    sent := [];
    while end - cur > BUFFER_SIZE - 1
      invariant cur <= end + 1 && Ends(file, cur, end)
      invariant sent + Packages(file, cur, end) == Packages(file, start, end)
      decreases end - cur
    {
      sent, cur := SendNext(file, cur, end, sent);
    }
    LastRound(file, cur, end);
    sent := sent + [DataPackage(ReadAt(file, cur, end - cur + 1), 1)];
  }

  // ---- when the loop ends -----------------------------------------------------------

  /** The value of cur after k rounds, whether or not the loop goes on that long. */
  function CurAfter(file: seq<byte>, start: nat, end: int, k: nat): nat {
    if k == 0 then start
    else
      var cur := CurAfter(file, start, end, k - 1);
      if end - cur > BUFFER_SIZE - 1 then cur + |ReadAt(file, cur, BUFFER_SIZE - 1)| else cur
  }

  lemma {:induction false} NeverEnds(file: seq<byte>, start: nat, end: int, k: nat)
    requires !Ends(file, start, end)
    ensures CurAfter(file, start, end, k) <= Max(start, |file|)
    ensures end - CurAfter(file, start, end, k) > BUFFER_SIZE - 1
  {
    if k > 0 { NeverEnds(file, start, end, k - 1); }
  }

  lemma {:induction false} Progress(file: seq<byte>, start: nat, end: int, k: nat)
    requires Ends(file, start, end)
    ensures Ends(file, CurAfter(file, start, end, k), end)
    ensures CurAfter(file, start, end, k) >= start + k || end - CurAfter(file, start, end, k) <= BUFFER_SIZE - 1
  {
    if k > 0 { Progress(file, start, end, k - 1); }
  }

  /** The loop ends exactly for the requests that Ends describes. Past the end of the file
      fread gives nothing, cur stands still, and the loop goes round for ever. */
  lemma EndsExactly(file: seq<byte>, start: nat, end: int)
    ensures (exists k: nat :: end - CurAfter(file, start, end, k) <= BUFFER_SIZE - 1) <==> Ends(file, start, end)
  {
    if k: nat :| end - CurAfter(file, start, end, k) <= BUFFER_SIZE - 1 {
      if !Ends(file, start, end) { NeverEnds(file, start, end, k); }
    }
    if Ends(file, start, end) {
      Progress(file, start, end, Max(0, end));
    }
  }

  /** An upload of an empty file asked for 1025 bytes never gets past its first read. */
  lemma EmptyFileLoops(k: nat)
    ensures !Ends([], 0, BUFFER_SIZE)
    ensures CurAfter([], 0, BUFFER_SIZE, k) == 0
  {
    NeverEnds([], 0, BUFFER_SIZE, k);
  }

  lemma {:induction false} RoundsShift(file: seq<byte>, start: nat, end: int, k: nat)
    requires end - start > BUFFER_SIZE - 1
    ensures CurAfter(file, start, end, k + 1) == CurAfter(file, start + |ReadAt(file, start, BUFFER_SIZE - 1)|, end, k)
  {
    if k > 0 { RoundsShift(file, start, end, k - 1); }
  }

  lemma SomePackage(file: seq<byte>, start: nat, end: int)
    requires start <= end + 1 && Ends(file, start, end)
    ensures |Packages(file, start, end)| > 0
  {
  }

  lemma OnePackageMore(file: seq<byte>, start: nat, end: int) returns (next: nat)
    requires start <= end + 1 && Ends(file, start, end) && end - start > BUFFER_SIZE - 1
    ensures next == start + |ReadAt(file, start, BUFFER_SIZE - 1)| <= end + 1 && Ends(file, next, end)
    ensures |Packages(file, start, end)| == 1 + |Packages(file, next, end)| >= 2
  {
    var data := ReadAt(file, start, BUFFER_SIZE - 1);
    next := start + |data|;
    UploadRound(file, start, end, data);
    SomePackage(file, next, end);
  }

  lemma OnePackage(file: seq<byte>, start: nat, end: int, k: nat)
    requires start <= end + 1 && end - start <= BUFFER_SIZE - 1
    ensures |Packages(file, start, end)| == 1 && Over(file, start, end, k)
  {
    LastRound(file, start, end);
    StandsStill(file, start, end, k);
  }

  /** The test of the loop fails after k rounds. */
  predicate Over(file: seq<byte>, start: nat, end: int, k: nat) {
    end - CurAfter(file, start, end, k) <= BUFFER_SIZE - 1
  }

  lemma OverLater(file: seq<byte>, start: nat, end: int, k: nat)
    requires end - start > BUFFER_SIZE - 1
    ensures !Over(file, start, end, 0)
    ensures Over(file, start, end, k + 1) == Over(file, start + |ReadAt(file, start, BUFFER_SIZE - 1)|, end, k)
  {
    RoundsShift(file, start, end, k);
  }

  /** After k rounds the loop is over exactly when k reaches n - 1. */
  predicate OverFrom(file: seq<byte>, start: nat, end: int, k: nat, n: nat) {
    Over(file, start, end, k) <==> k >= n - 1
  }

  lemma OverNext(file: seq<byte>, start: nat, end: int, k: nat, next: nat, n: nat)
    requires end - start > BUFFER_SIZE - 1 && n > 0
    requires next == start + |ReadAt(file, start, BUFFER_SIZE - 1)|
    requires k > 0 ==> OverFrom(file, next, end, k - 1, n)
    ensures OverFrom(file, start, end, k, n + 1)
  {
    OverLater(file, start, end, if k > 0 then k - 1 else 0);
  }

  /** When the loop ends, a package goes out for each of its rounds, and one more behind it. */
  lemma {:induction false} RoundsExactly(file: seq<byte>, start: nat, end: int, k: nat)
    requires start <= end + 1 && Ends(file, start, end)
    ensures OverFrom(file, start, end, k, |Packages(file, start, end)|)
    decreases k
  {
    if end - start <= BUFFER_SIZE - 1 {
      OnePackage(file, start, end, k);
    } else {
      var next := OnePackageMore(file, start, end);
      if k > 0 { RoundsExactly(file, next, end, k - 1); }
      OverNext(file, start, end, k, next, |Packages(file, next, end)|);
    }
  }

  lemma {:induction false} StandsStill(file: seq<byte>, start: nat, end: int, k: nat)
    requires end - start <= BUFFER_SIZE - 1
    ensures CurAfter(file, start, end, k) == start
  {
    if k > 0 { StandsStill(file, start, end, k - 1); }
  }

  /** A range inside the file always ends. */
  lemma InsideEnds(file: seq<byte>, start: nat, end: int)
    requires end < |file|
    ensures Ends(file, start, end)
  {
  }

  // ---- what is sent -----------------------------------------------------------------

  function Payload(packages: seq<Package>): seq<byte> {
    if packages == [] then [] else packages[0].content + Payload(packages[1..])
  }

  /** Bytes of the last package, from the request alone. */
  function LastLength(start: nat, end: int): nat
    requires start <= end + 1
  {
    if end - start <= BUFFER_SIZE - 1 then end - start + 1
    else (end - start - 1) % (BUFFER_SIZE - 1) + 2
  }

  /** How many packages a range takes, from the request alone. */
  function PackageCount(start: nat, end: int): nat
    requires start <= end + 1
  {
    if end - start <= BUFFER_SIZE - 1 then 1 else (end - start - 1) / (BUFFER_SIZE - 1) + 1
  }

  predicate FlaggedAtEndOnly(packages: seq<Package>) {
    && packages != []
    && (forall i :: 0 <= i < |packages| ==> packages[i].cmd == CMD_DOWNLOAD)
    && (forall i :: 0 <= i < |packages| - 1 ==> packages[i].contentIsEnd == -1)
    && packages[|packages| - 1].contentIsEnd == 1
  }

  predicate FullBeforeLast(packages: seq<Package>) {
    forall i :: 0 <= i < |packages| - 1 ==> packages[i].contentLength == BUFFER_SIZE - 1
  }

  lemma LastLengthStep(start: nat, end: int)
    requires end - start > BUFFER_SIZE - 1
    ensures LastLength(start, end) == LastLength(start + BUFFER_SIZE - 1, end)
  {
  }

  lemma CountStep(start: nat, end: int)
    requires end - start > BUFFER_SIZE - 1
    ensures PackageCount(start, end) == 1 + PackageCount(start + BUFFER_SIZE - 1, end)
  {
  }

  lemma RangeStep(file: seq<byte>, start: nat, end: int)
    requires end < |file| && end - start > BUFFER_SIZE - 1
    ensures Packages(file, start, end)
            == [DataPackage(file[start..start + BUFFER_SIZE - 1], -1)] + Packages(file, start + BUFFER_SIZE - 1, end)
  {
    InsideEnds(file, start, end);
    UploadRound(file, start, end, file[start..start + BUFFER_SIZE - 1]);
  }

  lemma LastStep(file: seq<byte>, start: nat, end: int)
    requires start <= end + 1 && end < |file| && end - start <= BUFFER_SIZE - 1
    ensures Packages(file, start, end) == [DataPackage(file[start..end + 1], 1)]
  {
  }

  /** For a range inside the file: exactly the last package is flagged, every other one holds
      1023 bytes, and the last holds 0 to 1024, the full 1024 for one family of lengths. */
  lemma {:induction false} RangeShape(file: seq<byte>, start: nat, end: int)
    requires start <= end + 1 && end < |file|
    ensures FlaggedAtEndOnly(Packages(file, start, end)) && FullBeforeLast(Packages(file, start, end))
    ensures |Packages(file, start, end)| == PackageCount(start, end)
    ensures var packages := Packages(file, start, end);
            packages[|packages| - 1].contentLength == LastLength(start, end)
    decreases end - start
  {
    if end - start > BUFFER_SIZE - 1 {
      RangeStep(file, start, end);
      LastLengthStep(start, end);
      CountStep(start, end);
      RangeShape(file, start + BUFFER_SIZE - 1, end);
      ShapeCons(DataPackage(file[start..start + BUFFER_SIZE - 1], -1), Packages(file, start + BUFFER_SIZE - 1, end));
    } else {
      LastStep(file, start, end);
    }
  }

  lemma ShapeCons(first: Package, rest: seq<Package>)
    requires FlaggedAtEndOnly(rest) && FullBeforeLast(rest)
    requires first.cmd == CMD_DOWNLOAD && first.contentIsEnd == -1 && first.contentLength == BUFFER_SIZE - 1
    ensures FlaggedAtEndOnly([first] + rest) && FullBeforeLast([first] + rest)
    ensures ([first] + rest)[|rest|] == rest[|rest| - 1]
  {
  }

  lemma LastIsFull(start: nat, end: int)
    requires start <= end + 1
    ensures LastLength(start, end) <= BUFFER_SIZE
    ensures LastLength(start, end) == BUFFER_SIZE
            <==> end - start >= BUFFER_SIZE - 1 && (end - start) % (BUFFER_SIZE - 1) == 0
  {
  }

  lemma PayloadOne(only: Package)
    ensures Payload([only]) == only.content
  {
    assert Payload([only]) == only.content + Payload([]);
  }

  /** For a range inside the file the contents are exactly the range, for every length, if and
      only if the range has no NUL. */
  lemma RangePayload(file: seq<byte>, start: nat, end: int)
    requires start <= end + 1 && end < |file|
    ensures |Payload(Packages(file, start, end))| <= end - start + 1
    ensures Payload(Packages(file, start, end)) == file[start..end + 1] <==> NulFree(file[start..end + 1])
  {
    InsideEnds(file, start, end);
    AnyRangePayload(file, start, end);
  }

  lemma FirstPackage(data: seq<byte>, rest: seq<Package>, later: seq<byte>)
    requires |Payload(rest)| <= |later| && (Payload(rest) == later <==> NulFree(later))
    ensures |Payload([DataPackage(data, -1)] + rest)| <= |data + later|
    ensures Payload([DataPackage(data, -1)] + rest) == data + later <==> NulFree(data + later)
  {
    assert ([DataPackage(data, -1)] + rest)[1..] == rest;
    NulFreeConcat(data, later);
    if CString(data) + Payload(rest) == data + later {
      SplitEqual(CString(data), Payload(rest), data, later);
    }
  }

  /** Two reads behind one another are one read of both. */
  lemma ReadOn(file: seq<byte>, start: nat, end: int, data: seq<byte>)
    requires end - start > BUFFER_SIZE - 1 && data == ReadAt(file, start, BUFFER_SIZE - 1)
    ensures ReadAt(file, start, end - start + 1)
            == data + ReadAt(file, start + |data|, end - (start + |data|) + 1)
  {
  }

  /** The contents are these bytes, if and only if they have no NUL. */
  predicate Brings(packages: seq<Package>, bytes: seq<byte>) {
    |Payload(packages)| <= |bytes| && (Payload(packages) == bytes <==> NulFree(bytes))
  }

  lemma BringsMore(data: seq<byte>, rest: seq<Package>, later: seq<byte>)
    requires Brings(rest, later)
    ensures Brings([DataPackage(data, -1)] + rest, data + later)
  {
    FirstPackage(data, rest, later);
  }

  lemma BringsLast(data: seq<byte>)
    ensures Brings([DataPackage(data, 1)], data)
  {
    PayloadOne(DataPackage(data, 1));
  }

  /** Whatever ending range is asked for, also one past the end of the file: the contents are
      what the file holds of it, if and only if that has no NUL. */
  lemma {:induction false} AnyRangePayload(file: seq<byte>, start: nat, end: int)
    requires start <= end + 1 && Ends(file, start, end)
    ensures Brings(Packages(file, start, end), ReadAt(file, start, end - start + 1))
    decreases end - start
  {
    if end - start > BUFFER_SIZE - 1 {
      var data := ReadAt(file, start, BUFFER_SIZE - 1);
      var next := start + |data|;
      UploadRound(file, start, end, data);
      AnyRangePayload(file, next, end);
      ReadOn(file, start, end, data);
      BringsMore(data, Packages(file, next, end), ReadAt(file, next, end - next + 1));
    } else {
      LastRound(file, start, end);
      BringsLast(ReadAt(file, start, end - start + 1));
    }
  }

  // ---- the client's read loop -------------------------------------------------------

  /** What the part file holds after the records read; a closed connection ends the loop too. */
  function Collected(records: seq<Package>): seq<byte> {
    if records == [] then []
    else if records[0].cmd != CMD_DOWNLOAD then Collected(records[1..])
    else if records[0].contentIsEnd == 1 then CString(records[0].content)
    else CString(records[0].content) + Collected(records[1..])
  }

  /** The record on which the loop ends. */
  predicate EndsPart(p: Package) { p.cmd == CMD_DOWNLOAD && p.contentIsEnd == 1 }

  /** What the download records among these carry. */
  function Texts(records: seq<Package>): seq<seq<byte>> {
    if records == [] then []
    else (if records[0].cmd == CMD_DOWNLOAD then [CString(records[0].content)] else []) + Texts(records[1..])
  }

  function Own(p: Package): seq<byte> { if p.cmd == CMD_DOWNLOAD then CString(p.content) else [] }

  lemma TextsCons(p: Package, rest: seq<Package>)
    ensures Flatten(Texts([p] + rest)) == Own(p) + Flatten(Texts(rest))
  {
    assert ([p] + rest)[1..] == rest;
    var own := if p.cmd == CMD_DOWNLOAD then [CString(p.content)] else [];
    FlattenAppend(own, Texts(rest));
    if own != [] { FlattenOne(own[0]); }
  }

  /** Whatever is read: the part file gets what the download records carry, up to and including
      the first one with an end flag, or all of them when there is none. */
  lemma {:induction false} CollectedExactly(records: seq<Package>, j: nat)
    requires j <= |records| && forall i :: 0 <= i < j ==> !EndsPart(records[i])
    requires j < |records| ==> EndsPart(records[j])
    ensures Collected(records) == Flatten(Texts(if j < |records| then records[..j + 1] else records))
    decreases |records|
  {
    if records != [] {
      var p, rest := records[0], records[1..];
      var taken := if j < |records| then j + 1 else j;
      assert records[..taken] == [p] + rest[..taken - 1];
      TextsCons(p, rest[..taken - 1]);
      if j > 0 {
        CollectedExactly(rest, j - 1);
        assert rest[..|rest|] == rest && records[..|records|] == records;
      } else {
        assert rest[..0] == [] && Flatten([]) == [] && Own(p) + [] == Own(p);
      }
    }
  }

  method DownloadSinglePart(records: seq<Package>) returns (part: seq<byte>)
    ensures part == Collected(records)
  {
    part := [];
    var i := 0;
    while i < |records|
      invariant i <= |records|
      invariant part + Collected(records[i..]) == Collected(records)
    {
      var read := records[i];
      assert records[i..][1..] == records[i + 1..];
      i := i + 1;
      if read.cmd == CMD_DOWNLOAD {
        part := part + CString(read.content);
        if read.contentIsEnd == 1 { return; }
      }
    }
  }

  lemma {:induction false} CollectAll(packages: seq<Package>)
    requires FlaggedAtEndOnly(packages)
    requires forall i :: 0 <= i < |packages| ==> NulFree(packages[i].content)
    ensures Collected(packages) == Payload(packages)
  {
    if |packages| == 1 {
      assert Payload(packages) == packages[0].content + Payload([]);
    } else {
      CollectAll(packages[1..]);
    }
  }

  lemma CollectFirst(first: Package, rest: seq<Package>, k: nat)
    requires first.cmd == CMD_DOWNLOAD && first.contentIsEnd != 1 && 0 < k <= |rest| + 1
    ensures Collected(([first] + rest)[..k]) == CString(first.content) + Collected(rest[..k - 1])
  {
    assert ([first] + rest)[..k] == [first] + rest[..k - 1];
    assert ([first] + rest[..k - 1])[1..] == rest[..k - 1];
  }

  /** What a connection that closes too early leaves is shorter than a non-empty range. */
  lemma {:induction false} CutShort(file: seq<byte>, start: nat, end: int, k: nat)
    requires start <= end + 1 && end < |file| && k < |Packages(file, start, end)|
    ensures |Collected(Packages(file, start, end)[..k])| <= end - start + 1
    ensures start <= end ==> |Collected(Packages(file, start, end)[..k])| < end - start + 1
    decreases k
  {
    if k == 0 {
      assert Packages(file, start, end)[..0] == [];
    } else if end - start > BUFFER_SIZE - 1 {
      RangeStep(file, start, end);
      var next := start + BUFFER_SIZE - 1;
      var first, rest := DataPackage(file[start..next], -1), Packages(file, next, end);
      CutShort(file, next, end, k - 1);
      CollectFirst(first, rest, k);
    } else {
      LastStep(file, start, end);
    }
  }

  lemma JoinSlices(file: seq<byte>, a: nat, b: nat, c: nat)
    requires a <= b <= c <= |file|
    ensures file[a..b] + file[b..c] == file[a..c]
  {
  }

  /** What k packages before the last hold. */
  function FullBytes(k: nat): nat { 1023 * k }

  lemma CutOne(file: seq<byte>, start: nat, next: nat, stop: nat, rest: seq<Package>, k: nat)
    requires start <= next <= stop <= |file| && 0 < k <= |rest| + 1 && NulFree(file[start..next])
    requires Collected(rest[..k - 1]) == file[next..stop]
    ensures Collected(([DataPackage(file[start..next], -1)] + rest)[..k]) == file[start..stop]
  {
    CollectFirst(DataPackage(file[start..next], -1), rest, k);
    JoinSlices(file, start, next, stop);
  }

  lemma CutStep(file: seq<byte>, start: nat, end: int, k: nat)
    requires end < |file| && end - start > BUFFER_SIZE - 1 && NulFree(file[start..start + BUFFER_SIZE - 1])
    requires 0 < k && start + FullBytes(k) <= |file| && k - 1 < |Packages(file, start + BUFFER_SIZE - 1, end)|
    requires Collected(Packages(file, start + BUFFER_SIZE - 1, end)[..k - 1])
             == file[start + BUFFER_SIZE - 1..start + FullBytes(k)]
    ensures k < |Packages(file, start, end)|
    ensures Collected(Packages(file, start, end)[..k]) == file[start..start + FullBytes(k)]
  {
    RangeStep(file, start, end);
    var next := start + BUFFER_SIZE - 1;
    CutOne(file, start, next, start + FullBytes(k), Packages(file, next, end), k);
  }

  lemma NulFreeSplit(file: seq<byte>, start: nat, next: nat, stop: nat)
    requires start <= next <= stop <= |file| && NulFree(file[start..stop])
    ensures NulFree(file[start..next]) && NulFree(file[next..stop])
  {
    JoinSlices(file, start, next, stop);
    NulFreeConcat(file[start..next], file[next..stop]);
  }

  lemma CountBounds(start: nat, end: int, k: nat)
    requires start <= end + 1 && k < PackageCount(start, end)
    ensures start + FullBytes(k) <= end + 1
    ensures k > 0 ==> end - start > BUFFER_SIZE - 1 && k - 1 < PackageCount(start + BUFFER_SIZE - 1, end)
    ensures k > 0 ==> FullBytes(k) == BUFFER_SIZE - 1 + FullBytes(k - 1)
  {
    if k > 0 { CountStep(start, end); }
  }

  lemma CutNothing(file: seq<byte>, start: nat, end: int)
    requires start <= end + 1 && end < |file|
    ensures 0 < |Packages(file, start, end)| && Collected(Packages(file, start, end)[..0]) == []
  {
    RangeShape(file, start, end);
    assert Packages(file, start, end)[..0] == [];
  }

  /** A connection that closes after k records too early leaves, for a range without a NUL,
      exactly the bytes that these records cover. */
  lemma {:induction false} CutPrefix(file: seq<byte>, start: nat, end: int, k: nat)
    requires start <= end + 1 && end < |file| && k < PackageCount(start, end)
    requires NulFree(file[start..end + 1])
    ensures k < |Packages(file, start, end)| && start + FullBytes(k) <= |file|
    ensures Collected(Packages(file, start, end)[..k]) == file[start..start + FullBytes(k)]
    decreases k
  {
    CountBounds(start, end, k);
    if k == 0 {
      CutNothing(file, start, end);
    } else {
      var next := start + BUFFER_SIZE - 1;
      NulFreeSplit(file, start, next, end + 1);
      CutPrefix(file, next, end, k - 1);
      CutStep(file, start, end, k);
    }
  }

  lemma {:induction false} ContentsNulFree(file: seq<byte>, start: nat, end: int)
    requires start <= end + 1 && end < |file|
    ensures forall i :: 0 <= i < |Packages(file, start, end)| ==> NulFree(Packages(file, start, end)[i].content)
    decreases end - start
  {
    if end - start > BUFFER_SIZE - 1 {
      RangeStep(file, start, end);
      ContentsNulFree(file, start + BUFFER_SIZE - 1, end);
    }
  }

  lemma PartArrives(file: seq<byte>, start: nat, end: int)
    requires start <= end + 1 && end < |file|
    ensures |Collected(Packages(file, start, end))| <= end - start + 1
    ensures Collected(Packages(file, start, end)) == file[start..end + 1] <==> NulFree(file[start..end + 1])
  {
    RangeShape(file, start, end);
    ContentsNulFree(file, start, end);
    CollectAll(Packages(file, start, end));
    RangePayload(file, start, end);
  }

  /** A connection that brings at most k records before it closes brings the whole range. */
  predicate Suffices(start: nat, end: int, k: nat)
    requires start <= end + 1
  {
    start > end || k >= PackageCount(start, end)
  }

  /** The records of the stream that arrive. */
  function Arriving(sent: seq<Package>, k: nat): seq<Package> {
    if k < |sent| then sent[..k] else sent
  }

  /** One part from end to end: if the connection closes after k records, the part file is the
      range exactly when the range has no NUL and k records suffice for it. */
  lemma PartOutcome(file: seq<byte>, start: nat, end: int, k: nat)
    requires start <= end + 1 && end < |file|
    ensures var part := Collected(Arriving(Packages(file, start, end), k));
            && |part| <= end - start + 1
            && (part == file[start..end + 1] <==> NulFree(file[start..end + 1]) && Suffices(start, end, k))
  {
    RangeShape(file, start, end);
    if k < |Packages(file, start, end)| {
      CutShort(file, start, end, k);
    } else {
      PartArrives(file, start, end);
    }
  }
}
