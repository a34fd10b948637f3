/** The waiting-list reply of the chat protocol: printed by the server's printList, read back
    by the client's process_waiting_list and print_waiting_list. */
module WaitingList {
  import opened Text
  import opened Lists

  /** A waiting client. The serial stands for the address of the structure: two WAIT commands
      never share one. */
  datatype Client = Client(serial: nat, name: string, ip: string, port: int)

  function Names(clients: seq<Client>): (names: seq<string>)
    ensures |names| == |clients| && forall i :: 0 <= i < |clients| ==> names[i] == clients[i].name
  {
    seq(|clients|, i requires 0 <= i < |clients| => clients[i].name)
  }

  // ---- printing ---------------------------------------------------------------------

  function Body(names: seq<string>): string {
    if names == [] then "" else names[0] + ":" + Body(names[1..])
  }

  function ListText(names: seq<string>): string {
    "l:" + Body(names) + ":"
  }

  lemma {:induction false} BodyAppend(names: seq<string>, name: string)
    ensures Body(names + [name]) == Body(names) + name + ":"
  {
    if names == [] {
      assert names + [name] == [name];
      assert Body([name]) == name + ":" + Body([]);
    } else {
      assert (names + [name])[1..] == names[1..] + [name];
      BodyAppend(names[1..], name);
    }
  }

  /** The buffer size reported is the length of the text. */
  method PrintList(clients: GrowingList<Client>) returns (temp: string, bufsize: nat)
    requires clients.Valid()
    ensures temp == ListText(Names(clients.Contents())) && bufsize == |temp|
  {
    temp := "l:";
    var tLen := 2;
    var i := 0;
    ghost var names := Names(clients.Contents());
    while i < clients.occupied
      invariant i <= clients.occupied && temp == "l:" + Body(names[..i]) && tLen == |temp|
    {
      var item := clients.Get(i);
      tLen := tLen + |item.value.name| + 1;
      BodyAppend(names[..i], item.value.name);
      assert names[..i + 1] == names[..i] + [item.value.name];
      temp := temp + item.value.name;
      temp := temp + ":";
      i := i + 1;
    }
    assert names[..i] == names;
    temp := temp + ":";
    bufsize := tLen + 1;
  }

  // ---- printing the names -----------------------------------------------------------

  /** The names printed when the scan stands at j and the current name began at i. */
  function PrintedFrom(list: string, i: nat, j: nat): seq<string>
    requires i <= j
    decreases |list| - j
  {
    if j >= |list| - 1 then []
    else if list[j] == ':' then [list[i..j]] + PrintedFrom(list, j + 1, j + 1)
    else PrintedFrom(list, i, j + 1)
  }

  /** The list must have a character: with none, the unsigned bound of the loop wraps. */
  method PrintWaitingList(list: string) returns (printed: seq<string>)
    requires list != ""
    ensures printed == PrintedFrom(list, 2, 3)
  {
    var i, j := 2, 3;
    printed := [];
    while j < |list| - 1
      invariant 2 <= i <= j
      invariant printed + PrintedFrom(list, i, j) == PrintedFrom(list, 2, 3)
      decreases |list| - j
    {
      if list[j] == ':' {
        printed := printed + [list[i..j]];
        i := j + 1;
      }
      j := j + 1;
    }
  }

  predicate ColonFree(names: seq<string>) {
    forall i :: 0 <= i < |names| ==> Free(names[i], ':')
  }

  predicate AllFields(names: seq<string>) {
    forall i :: 0 <= i < |names| ==> IsField(names[i], ':')
  }

  /** Scanning over a colon-free name up to the colon behind it. */
  lemma {:induction false} ScanName(list: string, i: nat, j: nat, stop: nat)
    requires i <= j <= stop < |list| - 1 && list[stop] == ':'
    requires forall k :: j <= k < stop ==> list[k] != ':'
    ensures PrintedFrom(list, i, j) == [list[i..stop]] + PrintedFrom(list, stop + 1, stop + 1)
    decreases stop - j
  {
    if j < stop { ScanName(list, i, j + 1, stop); }
  }

  lemma {:induction false} ScanBody(before: string, names: seq<string>)
    requires ColonFree(names)
    ensures PrintedFrom(before + Body(names) + ":", |before|, |before|) == names
    decreases |names|
  {
    var list := before + Body(names) + ":";
    if names != [] {
      var name, rest := names[0], names[1..];
      var front := before + name + ":";
      assert list == front + Body(rest) + ":";
      var stop := |before| + |name|;
      assert list[|before|..stop] == name && list[stop] == ':';
      assert forall k :: |before| <= k < stop ==> list[k] == name[k - |before|] && name[k - |before|] in name;
      ScanName(list, |before|, |before|, stop);
      ScanBody(front, rest);
      assert names == [name] + rest;
    }
  }

  lemma {:induction false} LongFirst(list: string, i: nat, j: nat)
    requires i < j
    ensures PrintedFrom(list, i, j) != [] ==> PrintedFrom(list, i, j)[0] != ""
    decreases |list| - j
  {
    if j < |list| - 1 && list[j] != ':' { LongFirst(list, i, j + 1); }
  }

  /** For colon-free names, the client prints exactly the names of the reply in order, if and
      only if the first name is not empty: the scan starts one place too late to see that. */
  lemma ListRoundTrip(names: seq<string>)
    requires ColonFree(names)
    ensures PrintedFrom(ListText(names), 2, 3) == names <==> names == [] || names[0] != ""
  {
    var list := ListText(names);
    if names == [] {
      assert list == "l::";
    } else {
      ScanBody("l:", names);
      assert list == "l:" + Body(names) + ":";
      if names[0] == "" {
        LongFirst(list, 2, 3);
      } else {
        assert list[2] == names[0][0] && names[0][0] in names[0];
      }
    }
  }

  // ---- reading the reply in chunks --------------------------------------------------

  predicate DoubleAt(s: string, i: int) {
    0 <= i < |s| - 1 && s[i] == ':' && s[i + 1] == ':'
  }

  /** strstr(s, "::") finds something. */
  predicate HasDouble(s: string) {
    exists i :: 0 <= i < |s| - 1 && DoubleAt(s, i)
  }

  datatype Outcome =
    | NoClients                             // the message for an empty list
    | Shown(list: string, chunksRead: nat)  // stopped by itself
    | Awaiting(list: string)                // reads on; shown only when the connection closes

  /** process_waiting_list from chunk k on, with the text so far. */
  function ProcessFrom(chunks: seq<string>, k: nat, whole: string): Outcome
    decreases |chunks| - k
  {
    if k >= |chunks| then Awaiting(whole)
    else if k == 0 && chunks[0] == "l::" then NoClients
    else if HasDouble(chunks[k]) then Shown(whole + chunks[k], k + 1)
    else ProcessFrom(chunks, k + 1, whole + chunks[k])
  }

  method ProcessWaitingList(chunks: seq<string>) returns (outcome: Outcome)
    ensures outcome == ProcessFrom(chunks, 0, "")
  {
    var whole := "";
    var idx := 0;
    while idx < |chunks|
      invariant idx <= |chunks| && ProcessFrom(chunks, idx, whole) == ProcessFrom(chunks, 0, "")
    {
      var buf := chunks[idx];
      idx := idx + 1;
      if buf == "l::" && idx == 1 { return NoClients; }
      whole := whole + buf;
      if HasDouble(buf) { return Shown(whole, idx); }
    }
    outcome := Awaiting(whole);
  }

  /** With non-empty colon-free names, the only two colons in a row are the last two. */
  lemma {:induction false} DoubleInBody(names: seq<string>, i: int)
    requires AllFields(names)
    ensures var s := ":" + Body(names) + ":";
            DoubleAt(s, i) <==> i == |s| - 2
  {
    var s := ":" + Body(names) + ":";
    if names == [] {
      assert s == "::";
    } else {
      var name, rest := names[0], names[1..];
      var tail := ":" + Body(rest) + ":";
      assert s == ":" + name + tail;
      var k := i - 1 - |name|;
      DoubleInBody(rest, k);
      assert forall j :: 0 <= j < |name| ==> name[j] in name && s[1 + j] == name[j];
      if k >= 0 && i < |s| {
        assert s[i] == tail[k];
      }
    }
  }

  lemma DoubleInList(names: seq<string>, i: int)
    requires AllFields(names)
    ensures DoubleAt(ListText(names), i) <==> i == |ListText(names)| - 2
  {
    var s := ":" + Body(names) + ":";
    assert ListText(names) == "l" + s;
    DoubleInBody(names, i - 1);
  }

  lemma NextChunk(chunks: seq<string>, k: nat)
    requires k < |chunks|
    ensures Concat(chunks[..k + 1]) == Concat(chunks[..k]) + chunks[k]
  {
    assert chunks[..k + 1] == chunks[..k] + [chunks[k]];
    ConcatAppend(chunks[..k], [chunks[k]]);
    ConcatOne(chunks[k]);
  }

  lemma SplitChunks(chunks: seq<string>, k: nat)
    requires k <= |chunks|
    ensures Concat(chunks) == Concat(chunks[..k]) + Concat(chunks[k..])
  {
    assert chunks == chunks[..k] + chunks[k..];
    ConcatAppend(chunks[..k], chunks[k..]);
  }

  /** The chunks are the reply, cut anywhere. */
  predicate Chunking(chunks: seq<string>, text: string) {
    (forall k :: 0 <= k < |chunks| ==> chunks[k] != "") && Concat(chunks) == text
  }

  /** A chunk as a window on the whole text. */
  lemma ChunkWindow(names: seq<string>, chunks: seq<string>, k: nat) returns (before: nat)
    requires Chunking(chunks, ListText(names)) && k < |chunks|
    ensures before + |chunks[k]| <= |ListText(names)|
    ensures forall i :: 0 <= i < |chunks[k]| ==> ListText(names)[before + i] == chunks[k][i]
    ensures before + |chunks[k]| == |ListText(names)| <==> k == |chunks| - 1
  {
    before := |Concat(chunks[..k])|;
    NextChunk(chunks, k);
    SplitChunks(chunks, k + 1);
    if k == |chunks| - 1 {
      assert Concat(chunks[k + 1..]) == "";
    } else {
      assert chunks[k + 1..][0] == chunks[k + 1] != "";
    }
  }

  lemma ChunkDouble(names: seq<string>, chunks: seq<string>, k: nat)
    requires AllFields(names) && Chunking(chunks, ListText(names)) && k < |chunks|
    ensures HasDouble(chunks[k]) <==> k == |chunks| - 1 && |chunks[k]| >= 2
  {
    var before := ChunkWindow(names, chunks, k);
    if k == |chunks| - 1 && |chunks[k]| >= 2 {
      DoubleInList(names, |ListText(names)| - 2);
      assert DoubleAt(chunks[k], |chunks[k]| - 2);
    }
    if HasDouble(chunks[k]) {
      var i :| 0 <= i < |chunks[k]| - 1 && DoubleAt(chunks[k], i);
      DoubleInList(names, before + i);
    }
  }

  lemma {:induction false} ProcessSteps(names: seq<string>, chunks: seq<string>, k: nat)
    requires AllFields(names) && Chunking(chunks, ListText(names)) && k <= |chunks|
    requires chunks != ["l::"]
    ensures ProcessFrom(chunks, k, Concat(chunks[..k]))
            == if k < |chunks| && |chunks[|chunks| - 1]| >= 2 then Shown(ListText(names), |chunks|)
               else Awaiting(ListText(names))
    decreases |chunks| - k
  {
    if k == |chunks| {
      assert chunks[..k] == chunks;
    } else {
      NextChunk(chunks, k);
      ChunkDouble(names, chunks, k);
      assert |chunks| == 1 ==> chunks == [chunks[0]];
      if k == 0 && chunks[0] == "l::" {
        assert DoubleAt("l::", 1);
      }
      if k == |chunks| - 1 { assert chunks[..k + 1] == chunks; }
      ProcessSteps(names, chunks, k + 1);
    }
  }

  lemma SecondColon(names: seq<string>)
    requires AllFields(names)
    ensures ListText(names)[2] == ':' <==> names == []
  {
  }

  /** Under any chunking of the reply the reader never stops before the last chunk. It stops
      there with the whole list exactly when that chunk has two characters or more; when the
      final colon comes alone it reads on. */
  lemma ChunkedReply(names: seq<string>, chunks: seq<string>)
    requires AllFields(names) && Chunking(chunks, ListText(names))
    ensures chunks != []
    ensures ProcessFrom(chunks, 0, "")
            == if chunks == ["l::"] then NoClients
               else if |chunks[|chunks| - 1]| >= 2 then Shown(ListText(names), |chunks|)
               else Awaiting(ListText(names))
    ensures chunks == ["l::"] ==> names == []
  {
    assert Concat([]) == "" != ListText(names);
    if chunks != ["l::"] {
      assert chunks[..0] == [];
      ProcessSteps(names, chunks, 0);
    } else {
      ConcatOne("l::");
      SecondColon(names);
    }
  }
}
