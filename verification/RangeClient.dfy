/** The HW3 client: connecting, giving each live connection a part, and combining. */
module RangeClient {
  import opened Bytes
  import opened Text
  import opened Ranges
  import opened Combining
  import opened RangeServer

  const MAX_SOCK_SIZE := 1024

  /** One entry of thread_param_array. */
  datatype Param = Param(threadId: nat, socketfd: int, filePart: int, fileStart: int, fileEnd: int)

  function Positives(sockets: seq<int>): nat {
    if sockets == [] then 0
    else Positives(sockets[..|sockets| - 1]) + if sockets[|sockets| - 1] > 0 then 1 else 0
  }

  /** What valid_part counts: descriptors that are not negative, zeros included. */
  function NonNegatives(sockets: seq<int>): nat {
    if sockets == [] then 0
    else NonNegatives(sockets[..|sockets| - 1]) + if sockets[|sockets| - 1] >= 0 then 1 else 0
  }

  /** Connection attempts give -1 or a positive descriptor; entries never tried stay 0. */
  predicate Attempts(sockets: seq<int>, tried: nat) {
    && tried <= |sockets|
    && (forall i :: 0 <= i < tried ==> sockets[i] == -1 || sockets[i] > 0)
    && (forall i :: tried <= i < |sockets| ==> sockets[i] == 0)
  }

  /** The connection loop of main: `outcomes` is what build_connection gives per server. */
  method BuildSockets(outcomes: seq<int>, connectionNum: int) returns (sockets: array<int>, validConn: nat, ghost tried: nat)
    requires forall i :: 0 <= i < |outcomes| ==> outcomes[i] == -1 || outcomes[i] > 0
    ensures fresh(sockets) && sockets.Length == MAX_SOCK_SIZE && tried <= |outcomes|
    ensures Attempts(sockets[..], if tried == 0 then 1 else tried)
    ensures forall i :: 0 <= i < tried ==> sockets[i] == outcomes[i]
    ensures tried == 0 ==> sockets[0] == -1
    ensures validConn == Positives(sockets[..]) && validConn <= Max(0, connectionNum)
    ensures tried < |outcomes| && tried < MAX_SOCK_SIZE ==> validConn == Max(0, connectionNum)
  {
    sockets := new int[MAX_SOCK_SIZE](i => if i == 0 then -1 else 0);
    var socketidx, wanted := 0, connectionNum;
    validConn := 0;
    while socketidx < |outcomes| && socketidx < MAX_SOCK_SIZE && wanted > 0
      invariant socketidx <= |outcomes| && socketidx <= MAX_SOCK_SIZE
      invariant forall i :: 0 <= i < socketidx ==> sockets[i] == outcomes[i]
      invariant forall i :: socketidx <= i < MAX_SOCK_SIZE ==> sockets[i] == if i == 0 then -1 else 0
      invariant validConn == Positives(sockets[..socketidx])
      invariant validConn + Max(0, wanted) == Max(0, connectionNum) && (connectionNum > 0 ==> wanted >= 0)
    {
      sockets[socketidx] := outcomes[socketidx];
      assert sockets[..socketidx + 1][..socketidx] == sockets[..socketidx];
      if outcomes[socketidx] >= 0 {
        validConn := validConn + 1;
        wanted := wanted - 1;
      }
      socketidx := socketidx + 1;
    }
    tried := socketidx;
    assert sockets[..][..socketidx] == sockets[..socketidx];
    NoMorePositives(sockets[..], socketidx);
  }

  lemma {:induction false} NoMorePositives(sockets: seq<int>, k: nat)
    requires k <= |sockets| && forall i :: k <= i < |sockets| ==> sockets[i] <= 0
    ensures Positives(sockets) == Positives(sockets[..k])
    decreases |sockets|
  {
    if k == |sockets| {
      assert sockets[..k] == sockets;
    } else {
      var shorter := sockets[..|sockets| - 1];
      NoMorePositives(shorter, k);
      assert shorter[..k] == sockets[..k];
    }
  }

  function ParamFor(sockets: seq<int>, i: nat, filesize: nat, threadsnum: nat): Param
    requires i < |sockets| && 0 < threadsnum
  {
    if sockets[i] < 0 then Param(i, sockets[i], -1, -1, -1)
    else
      var part := NonNegatives(sockets[..i]);
      Param(i, sockets[i], part, PartStart(filesize, threadsnum, part), PartEnd(filesize, threadsnum, part))
  }

  /** The first loop of download_file. */
  method AssignParts(sockets: array<int>, filesize: nat, threadsnum: nat) returns (params: array<Param>)
    requires 0 < threadsnum
    ensures fresh(params) && params.Length == sockets.Length
    ensures forall i :: 0 <= i < params.Length ==> params[i] == ParamFor(sockets[..], i, filesize, threadsnum)
    ensures forall i :: 0 <= i < params.Length ==> params[i].threadId == i && params[i].socketfd == sockets[i]
    ensures forall i :: 0 <= i < params.Length && sockets[i] >= 0 ==>
              && params[i].filePart == NonNegatives(sockets[..i])
              && params[i].fileStart == params[i].filePart * (filesize / threadsnum)
              && params[i].fileEnd == if params[i].filePart == threadsnum - 1 then filesize - 1
                                      else (params[i].filePart + 1) * (filesize / threadsnum) - 1
  {
    params := new Param[sockets.Length](_ => Param(0, 0, 0, 0, 0));
    var validPart := 0;
    var singlePartLength := filesize / threadsnum;
    var i := 0;
    while i < sockets.Length
      invariant i <= sockets.Length && validPart == NonNegatives(sockets[..i])
      invariant forall j :: 0 <= j < i ==> params[j] == ParamFor(sockets[..], j, filesize, threadsnum)
    {
      assert sockets[..][..i] == sockets[..i];
      assert sockets[..i + 1][..i] == sockets[..i];
      if sockets[i] < 0 {
        params[i] := Param(i, sockets[i], -1, -1, -1);
      } else {
        var end := if validPart == threadsnum - 1 then filesize - 1 else (validPart + 1) * singlePartLength - 1;
        params[i] := Param(i, sockets[i], validPart, validPart * singlePartLength, end);
        validPart := validPart + 1;
      }
      i := i + 1;
    }
  }

  lemma {:induction false} CountsAgree(sockets: seq<int>, tried: nat, i: nat)
    requires Attempts(sockets, tried) && i <= |sockets|
    ensures i <= tried ==> NonNegatives(sockets[..i]) == Positives(sockets[..i])
    ensures Positives(sockets[..i]) <= Positives(sockets)
    ensures i < |sockets| && sockets[i] > 0 ==> Positives(sockets[..i]) < Positives(sockets)
    ensures i >= tried ==> NonNegatives(sockets[..i]) >= Positives(sockets)
  {
    if i > 0 {
      assert sockets[..i][..i - 1] == sockets[..i - 1];
      CountsAgree(sockets, tried, i - 1);
    }
    PositivesMonotone(sockets, i);
    if i >= tried {
      NoMorePositives(sockets, tried);
      NonNegativesMonotone(sockets[..i], tried);
      assert sockets[..i][..tried] == sockets[..tried];
      NonNegativesCover(sockets[..tried]);
    }
  }

  lemma {:induction false} NonNegativesCover(sockets: seq<int>)
    ensures Positives(sockets) <= NonNegatives(sockets)
  {
    if sockets != [] { NonNegativesCover(sockets[..|sockets| - 1]); }
  }

  lemma {:induction false} NonNegativesMonotone(sockets: seq<int>, i: nat)
    requires i <= |sockets|
    ensures NonNegatives(sockets[..i]) <= NonNegatives(sockets)
    decreases |sockets|
  {
    if i == |sockets| {
      assert sockets[..i] == sockets;
    } else {
      var shorter := sockets[..|sockets| - 1];
      NonNegativesMonotone(shorter, i);
      assert shorter[..i] == sockets[..i];
    }
  }

  lemma {:induction false} PositivesMonotone(sockets: seq<int>, i: nat)
    requires i <= |sockets|
    ensures Positives(sockets[..i]) <= Positives(sockets)
    ensures i < |sockets| && sockets[i] > 0 ==> Positives(sockets[..i]) < Positives(sockets)
    decreases |sockets|
  {
    if i == |sockets| {
      assert sockets[..i] == sockets;
    } else {
      var shorter := sockets[..|sockets| - 1];
      PositivesMonotone(shorter, i);
      assert shorter[..i] == sockets[..i];
    }
  }

  /** The socket that holds part k. */
  lemma {:induction false} SocketOfPart(sockets: seq<int>, k: nat) returns (i: nat)
    requires k < Positives(sockets)
    ensures i < |sockets| && sockets[i] > 0 && Positives(sockets[..i]) == k
    decreases |sockets|
  {
    var shorter := sockets[..|sockets| - 1];
    if k < Positives(shorter) {
      i := SocketOfPart(shorter, k);
      assert shorter[..i] == sockets[..i];
    } else {
      i := |sockets| - 1;
    }
  }

  /** Part assignment: each thread has its own number and socket; a positive socket gets the
      number of positive sockets before it, so the parts given out are 0 to t - 1 in
      order, with the ranges that tile the file; the parts given to the zeros of the tail are
      all beyond them. */
  lemma PartAssignment(sockets: seq<int>, tried: nat, filesize: nat, i: nat)
    requires Attempts(sockets, tried) && i < |sockets| && 0 < Positives(sockets)
    ensures var t := Positives(sockets);
            var p := ParamFor(sockets, i, filesize, t);
            && p.threadId == i && p.socketfd == sockets[i]
            && (sockets[i] > 0 ==>
                  && p.filePart == Positives(sockets[..i]) < t
                  && 0 <= p.fileStart == PartStart(filesize, t, p.filePart) <= p.fileEnd + 1 <= filesize
                  && p.fileEnd == PartEnd(filesize, t, p.filePart))
            && (sockets[i] == 0 ==> p.filePart >= t)
            && (sockets[i] < 0 ==> p.filePart == -1)
  {
    CountsAgree(sockets, tried, i);
    if sockets[i] > 0 {
      Tiling(filesize, Positives(sockets), Positives(sockets[..i]));
    }
  }

  /** Later positive sockets get later parts. */
  lemma PartsInOrder(sockets: seq<int>, i: nat, j: nat)
    requires i < j < |sockets| && sockets[i] > 0
    ensures Positives(sockets[..i]) < Positives(sockets[..j])
  {
    assert sockets[..j][..i] == sockets[..i];
    PositivesMonotone(sockets[..j], i);
  }

  // ---- the whole download -----------------------------------------------------------

  /** The k-th part arrives whole if its connection brings this many records. */
  predicate PartSuffices(size: nat, parts: nat, k: nat, records: nat)
    requires k < parts
  {
    Tiling(size, parts, k);
    Suffices(PartStart(size, parts, k), PartEnd(size, parts, k), records)
  }

  predicate PartFile(file: seq<byte>, parts: nat, k: nat, records: nat, content: seq<byte>) {
    && k < parts
    && |content| <= |Part(file, parts, k)|
    && (content == Part(file, parts, k) <==> NulFree(Part(file, parts, k)) && PartSuffices(|file|, parts, k, records))
  }

  /** One thread: request the range, receive the records into output.k; the connection closes
      after `records` of them if there are more. */
  method ThreadDownload(file: seq<byte>, start: int, end: int, records: nat) returns (part: seq<byte>)
    requires 0 <= start <= end + 1 <= |file|
    ensures |part| <= end - start + 1
    ensures part == file[start..end + 1] <==> NulFree(file[start..end + 1]) && Suffices(start, end, records)
  {
    InsideEnds(file, start, end);
    var sent := ServerUploadFile(file, start, end);
    part := DownloadSinglePart(Arriving(sent, records));
    PartOutcome(file, start, end, records);
  }

  lemma RangeIsPart(file: seq<byte>, parts: nat, k: nat)
    requires k < parts
    ensures 0 <= PartStart(|file|, parts, k) <= PartEnd(|file|, parts, k) + 1 <= |file|
    ensures Part(file, parts, k) == file[PartStart(|file|, parts, k)..PartEnd(|file|, parts, k) + 1]
  {
    Tiling(|file|, parts, k);
  }

  /** The first n sockets that are positive have their parts stored, each as its own connection
      brought it. */
  ghost predicate PartsStored(file: seq<byte>, sockets: seq<int>, records: int -> nat, files: map<nat, seq<byte>>, n: nat)
    requires n <= |sockets|
  {
    forall i :: 0 <= i < n && sockets[i] > 0 ==>
      && Positives(sockets[..i]) in files
      && PartFile(file, Positives(sockets), Positives(sockets[..i]), records(sockets[i]), files[Positives(sockets[..i])])
  }

  lemma StoreNext(file: seq<byte>, sockets: seq<int>, records: int -> nat, files: map<nat, seq<byte>>, i: nat, part: seq<byte>)
    requires i < |sockets| && sockets[i] > 0 && PartsStored(file, sockets, records, files, i)
    requires PartFile(file, Positives(sockets), Positives(sockets[..i]), records(sockets[i]), part)
    ensures PartsStored(file, sockets, records, files[Positives(sockets[..i]) := part], i + 1)
  {
    forall j | 0 <= j < i && sockets[j] > 0
      ensures Positives(sockets[..j]) != Positives(sockets[..i])
    {
      PartsInOrder(sockets, j, i);
    }
  }

  /** All threads and the joins. They share no state, so running one after the other stands
      for any interleaving. The connection behind a descriptor brings at most records(fd). */
  method DownloadParts(file: seq<byte>, params: array<Param>, records: int -> nat, ghost sockets: seq<int>, ghost tried: nat)
    returns (files: map<nat, seq<byte>>)
    requires Attempts(sockets, tried) && 0 < Positives(sockets) && params.Length == |sockets|
    requires forall i :: 0 <= i < params.Length ==> params[i] == ParamFor(sockets, i, |file|, Positives(sockets))
    ensures PartsStored(file, sockets, records, files, |sockets|)
  {
    files := map[];
    var i := 0;
    while i < params.Length
      invariant i <= params.Length && PartsStored(file, sockets, records, files, i)
    {
      PartAssignment(sockets, tried, |file|, i);
      if params[i].socketfd > 0 {
        RangeIsPart(file, Positives(sockets), params[i].filePart);
        var part := ThreadDownload(file, params[i].fileStart, params[i].fileEnd, records(params[i].socketfd));
        StoreNext(file, sockets, records, files, i, part);
        files := files[params[i].filePart as nat := part];
      }
      i := i + 1;
    }
  }

  /** Every live connection brings its whole part. */
  ghost predicate AllArrive(size: nat, sockets: seq<int>, records: int -> nat) {
    forall i :: 0 <= i < |sockets| && sockets[i] > 0 ==>
      && Positives(sockets[..i]) < Positives(sockets)
      && PartSuffices(size, Positives(sockets), Positives(sockets[..i]), records(sockets[i]))
  }

  lemma PartOfSocket(file: seq<byte>, sockets: seq<int>, records: int -> nat, files: map<nat, seq<byte>>, k: nat) returns (i: nat)
    requires PartsStored(file, sockets, records, files, |sockets|) && k < Positives(sockets)
    ensures i < |sockets| && sockets[i] > 0 && Positives(sockets[..i]) == k
    ensures k in files && PartFile(file, Positives(sockets), k, records(sockets[i]), files[k])
  {
    i := SocketOfPart(sockets, k);
  }

  /** The parts put together: the file exactly when it has no NUL and every connection brings
      its whole part. */
  lemma PartsTogether(file: seq<byte>, sockets: seq<int>, records: int -> nat, files: map<nat, seq<byte>>)
    requires 0 < Positives(sockets) && PartsStored(file, sockets, records, files, |sockets|)
    ensures Combined(files, Positives(sockets)).Some?
    ensures Combined(files, Positives(sockets)) == Some(file) <==> NulFree(file) && AllArrive(|file|, sockets, records)
  {
    var parts := Positives(sockets);
    forall k | 0 <= k < parts
      ensures k in files && |files[k]| <= |Part(file, parts, k)|
    {
      var i := PartOfSocket(file, sockets, records, files, k);
    }
    CombinedExactly(file, parts, files, parts);
    NulFreeParts(file, parts, parts);
    PartsRebuildFile(file, parts);
    CombinedExists(files, parts);
    if NulFree(file) && AllArrive(|file|, sockets, records) {
      forall k | 0 <= k < parts
        ensures files[k] == Part(file, parts, k)
      {
        var i := PartOfSocket(file, sockets, records, files, k);
      }
    }
    if Combined(files, parts) == Some(file) {
      WholeMeansArrived(file, sockets, records, files);
    }
  }

  lemma WholeMeansArrived(file: seq<byte>, sockets: seq<int>, records: int -> nat, files: map<nat, seq<byte>>)
    requires PartsStored(file, sockets, records, files, |sockets|)
    requires forall k :: 0 <= k < Positives(sockets) ==> k in files && files[k] == Part(file, Positives(sockets), k)
    ensures AllArrive(|file|, sockets, records)
    ensures forall k :: 0 <= k < Positives(sockets) ==> NulFree(Part(file, Positives(sockets), k))
  {
    forall i | 0 <= i < |sockets| && sockets[i] > 0
      ensures Positives(sockets[..i]) < Positives(sockets)
      ensures PartSuffices(|file|, Positives(sockets), Positives(sockets[..i]), records(sockets[i]))
    {
      PositivesMonotone(sockets, i);
    }
    forall k | 0 <= k < Positives(sockets)
      ensures NulFree(Part(file, Positives(sockets), k))
    {
      var i := PartOfSocket(file, sockets, records, files, k);
    }
  }

  /** End to end: for every list of connection outcomes with a live connection and every number
      of records that a connection brings before it closes, combining the parts gives back the
      file, for every length, exactly when it has no NUL and every part arrived whole. */
  method DownloadFile(file: seq<byte>, outcomes: seq<int>, connectionNum: int, records: int -> nat)
    returns (result: Option<seq<byte>>, validConn: nat, ghost tried: nat)
    requires forall i :: 0 <= i < |outcomes| ==> outcomes[i] == -1 || outcomes[i] > 0
    ensures tried <= |outcomes| && validConn == Positives(outcomes[..tried])
    ensures tried < |outcomes| && tried < MAX_SOCK_SIZE ==> validConn == Max(0, connectionNum)
    ensures validConn > 0 ==>
              && result.Some?
              && (result == Some(file) <==> NulFree(file) && AllArrive(|file|, outcomes[..tried], records))
    ensures validConn == 0 ==> result == None
    ensures 0 < connectionNum && (exists i :: 0 <= i < |outcomes| && i < MAX_SOCK_SIZE && outcomes[i] > 0) ==> validConn > 0
  {
    var sockets;
    sockets, validConn, tried := BuildSockets(outcomes, connectionNum);
    TriedSockets(sockets[..], outcomes, tried);
    if validConn == 0 {
      if i :| 0 <= i < |outcomes| && i < MAX_SOCK_SIZE && outcomes[i] > 0 && 0 < connectionNum {
        assert sockets[..][i] == outcomes[i];
        PositivesMonotone(sockets[..], i);
      }
      return None, 0, tried;
    }
    var params := AssignParts(sockets, |file|, validConn);
    var files := DownloadParts(file, params, records, sockets[..], if tried == 0 then 1 else tried);
    result := CombineFile(files, validConn);
    PartsTogether(file, sockets[..], records, files);
    ArriveOfTried(|file|, sockets[..], outcomes, tried, records);
  }

  /** The sockets that live are those of the outcomes tried. */
  lemma TriedSockets(sockets: seq<int>, outcomes: seq<int>, tried: nat)
    requires tried <= |outcomes| && tried <= |sockets|
    requires forall i :: 0 <= i < tried ==> sockets[i] == outcomes[i]
    requires forall i :: tried <= i < |sockets| ==> sockets[i] <= 0
    ensures sockets[..tried] == outcomes[..tried] && Positives(sockets) == Positives(outcomes[..tried])
  {
    NoMorePositives(sockets, tried);
  }

  lemma ArriveOfTried(size: nat, sockets: seq<int>, outcomes: seq<int>, tried: nat, records: int -> nat)
    requires tried <= |outcomes| && tried <= |sockets|
    requires forall i :: 0 <= i < tried ==> sockets[i] == outcomes[i]
    requires forall i :: tried <= i < |sockets| ==> sockets[i] <= 0
    ensures AllArrive(size, sockets, records) <==> AllArrive(size, outcomes[..tried], records)
  {
    TriedSockets(sockets, outcomes, tried);
    var live := outcomes[..tried];
    assert forall i :: 0 <= i < tried ==> sockets[..i] == live[..i];
  }
}
