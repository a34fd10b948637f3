/** The UDP range transfer of HW4: the command text, the server's packet loop and the
    client's receive loop. */
module Packets {
  import opened Bytes
  import opened Text

  const BUFFER_SIZE := 1024
  const CMD_DOWNLOAD := "DWN"
  const CMD_CHECKFILE := "CHK"
  const CMD_HANDSHAKE := "HSK"

  /** The slots of server_response_t that a download uses. */
  datatype Packet = Packet(cmd: string, content: seq<byte>, contentIsEnd: int)

  // ---- commands ---------------------------------------------------------------------

  datatype Request =
    | CheckFile(name: string)
    | Handshake
    | Download(name: string, start: int, end: int)
    | Unknown
    | Incomplete  // a strtok call found no token, and its null result is used

  function FormatDownload(name: string, start: int, end: int): string {
    CMD_DOWNLOAD + " " + name + " " + PrintLong(start) + " " + PrintLong(end)
  }

  function ParseRequest(text: string): Request {
    var (cmd, afterCmd) := Strtok(text, ' ');
    if cmd.None? then Incomplete
    else if cmd.value == CMD_HANDSHAKE then Handshake
    else if cmd.value == CMD_CHECKFILE then
      var (name, _) := Strtok(afterCmd, ' ');
      if name.None? then Incomplete else CheckFile(name.value)
    else if cmd.value == CMD_DOWNLOAD then
      var (name, afterName) := Strtok(afterCmd, ' ');
      var (start, afterStart) := Strtok(afterName, ' ');
      var (end, _) := Strtok(afterStart, ' ');
      if name.None? || start.None? || end.None? then Incomplete
      else Download(name.value, Atol(start.value), Atol(end.value))
    else Unknown
  }

  lemma ParseTokens(text: string, name: string, start: string, end: string, r0: string, r1: string, r2: string)
    requires Strtok(text, ' ') == (Some(CMD_DOWNLOAD), r0) && Strtok(r0, ' ') == (Some(name), r1)
    requires Strtok(r1, ' ') == (Some(start), r2) && Strtok(r2, ' ') == (Some(end), [])
    ensures ParseRequest(text) == Download(name, Atol(start), Atol(end))
  {
  }

  /** The server reads back the fields the client printed, for every range, including the
      empty first range whose end is printed as -1. */
  lemma DownloadRoundTrip(name: string, start: int, end: int)
    requires IsField(name, ' ')
    ensures ParseRequest(FormatDownload(name, start, end)) == Download(name, start, end)
  {
    var s, e := PrintLong(start), PrintLong(end);
    PrintLongIsField(start, ' ');
    PrintLongIsField(end, ' ');
    FourFields(CMD_DOWNLOAD, name, s, e, [], ' ');
    assert e + [] == e;
    ParseTokens(FormatDownload(name, start, end), name, s, e, name + [' '] + (s + [' '] + e), s + [' '] + e, e);
    AtolOfPrintLong(start);
    AtolOfPrintLong(end);
  }

  /** What the client sends to look for servers and for the file. */
  function FormatHandshake(): string { CMD_HANDSHAKE }
  function FormatCheckFile(name: string): string { CMD_CHECKFILE + " " + name }

  /** The two start-up commands read back as well. */
  lemma StartUpRoundTrip(name: string)
    requires IsField(name, ' ')
    ensures ParseRequest(FormatHandshake()) == Handshake
    ensures ParseRequest(FormatCheckFile(name)) == CheckFile(name)
  {
    StrtokLast(CMD_HANDSHAKE, ' ', []);
    assert CMD_HANDSHAKE + [] == CMD_HANDSHAKE;
    assert FormatCheckFile(name) == CMD_CHECKFILE + [' '] + name;
    StrtokJoin(CMD_CHECKFILE, ' ', name);
    StrtokJoin(name, ' ', []);
  }

  lemma NothingLeft(d: char)
    ensures Strtok([], d) == (None, [])
  {
  }

  /** A command with another first word is unknown, whatever follows. */
  lemma OtherRequest(cmd: string, rest: string)
    requires IsField(cmd, ' ') && cmd !in ["HSK", "CHK", "DWN"]
    ensures ParseRequest(cmd) == Unknown && ParseRequest(cmd + " " + rest) == Unknown
  {
    StrtokJoin(cmd, ' ', rest);
    assert cmd + " " + rest == cmd + [' '] + rest;
  }

  lemma BareRequests()
    ensures ParseRequest("") == Incomplete && ParseRequest("CHK") == Incomplete && ParseRequest("DWN") == Incomplete
  {
    NothingLeft(' ');
    StrtokJoin("CHK", ' ', []);
    StrtokJoin("DWN", ' ', []);
  }

  lemma RangeMissing(text: string, name: string, rest: string)
    requires IsField(name, ' ') && text == "DWN" + [' '] + (name + rest)
    requires rest == "" || exists start :: IsField(start, ' ') && rest == [' '] + start
    ensures ParseRequest(text) == Incomplete
  {
    NothingLeft(' ');
    StrtokJoin("DWN", ' ', name + rest);
    if rest == "" {
      assert name + rest == name;
      StrtokJoin(name, ' ', []);
    } else {
      var start :| IsField(start, ' ') && rest == [' '] + start;
      assert name + rest == name + [' '] + start;
      StrtokJoin(name, ' ', start);
      StrtokJoin(start, ' ', []);
    }
  }

  /** The texts that break off before a field the server uses. */
  lemma BrokenRequests(name: string, start: string)
    requires IsField(name, ' ') && IsField(start, ' ')
    ensures ParseRequest("") == Incomplete && ParseRequest("CHK") == Incomplete && ParseRequest("DWN") == Incomplete
    ensures ParseRequest("DWN " + name) == Incomplete && ParseRequest("DWN " + name + " " + start) == Incomplete
  {
    BareRequests();
    assert "DWN " + name == "DWN" + [' '] + (name + "");
    assert "DWN " + name + " " + start == "DWN" + [' '] + (name + ([' '] + start));
    RangeMissing("DWN " + name, name, "");
    RangeMissing("DWN " + name + " " + start, name, [' '] + start);
  }

  lemma SmallNumbers()
    ensures PrintLong(0) == "0" && PrintLong(-1) == "-1" && PrintLong(1023) == "1023"
  {
    assert Decimal(1023) == Decimal(102) + "3" && Decimal(102) == Decimal(10) + "2" && Decimal(10) == Decimal(1) + "0";
    assert "-" + Decimal(1) == "-1";
  }

  /** The commands as they go over the wire. */
  lemma WireTexts()
    ensures FormatDownload("a.txt", 0, 1023) == "DWN a.txt 0 1023"
    ensures FormatDownload("a.txt", 0, -1) == "DWN a.txt 0 -1"
    ensures FormatCheckFile("a.txt") == "CHK a.txt" && FormatHandshake() == "HSK"
  {
    SmallNumbers();
  }

  // ---- the server's packet loop -----------------------------------------------------

  function DataPacket(data: seq<byte>, isEnd: int): Packet {
    Packet(CMD_DOWNLOAD, CString(data), isEnd)
  }

  /** The packets that upload sends when the file position is pos. */
  function Stream(file: seq<byte>, pos: nat, start: int, end: int): seq<Packet>
    decreases end - start
  {
    if start >= end then []
    else if start + BUFFER_SIZE - 1 < end then
      var data := ReadAt(file, pos, BUFFER_SIZE);
      [DataPacket(data, 0)] + Stream(file, pos + |data|, start + BUFFER_SIZE, end)
    else [DataPacket(ReadAt(file, pos, end - start + 1), 1)]
  }

  /** fseek fails on a negative offset and leaves the position at 0. */
  function Seek(offset: int): (pos: nat)
    ensures offset < 0 ==> pos == 0
    ensures offset >= 0 ==> pos == offset
  {
    if offset < 0 then 0 else offset
  }

  lemma StreamNext(file: seq<byte>, pos: nat, start: int, end: int, endTemp: int, data: seq<byte>)
    requires start < end && endTemp == (if start + BUFFER_SIZE - 1 < end then start + BUFFER_SIZE - 1 else end)
    requires data == ReadAt(file, pos, endTemp - start + 1)
    ensures Stream(file, pos, start, end)
            == [DataPacket(data, if start + BUFFER_SIZE - 1 < end then 0 else 1)]
               + Stream(file, pos + |data|, endTemp + 1, end)
  {
    if start + BUFFER_SIZE - 1 >= end { assert Stream(file, pos + |data|, endTemp + 1, end) == []; }
  }

  lemma Regroup(sent: seq<Packet>, packet: Packet, rest: seq<Packet>)
    ensures sent + ([packet] + rest) == sent + [packet] + rest
  {
  }

  /** What is read for one packet, and whether it is the last. */
  method ReadNext(file: seq<byte>, pos: nat, start: int, end: int) returns (packet: Packet, endTemp: int, rt: nat)
    requires start < end
    ensures start <= endTemp
    ensures Stream(file, pos, start, end) == [packet] + Stream(file, pos + rt, endTemp + 1, end)
  {
    var isEnd;
    if start + BUFFER_SIZE - 1 < end {
      endTemp, isEnd := start + BUFFER_SIZE - 1, 0;
    } else {
      endTemp, isEnd := end, 1;
    }
    var data := ReadAt(file, pos, endTemp - start + 1);
    StreamNext(file, pos, start, end, endTemp, data);
    packet, rt := DataPacket(data, isEnd), |data|;
  }

  /** One round of the loop: the next packet goes out, and start and the position move on. */
  method SendNext(file: seq<byte>, pos: nat, start: int, end: int, sent: seq<Packet>)
    returns (sent': seq<Packet>, pos': nat, start': int)
    requires start < end
    ensures start < start'
    ensures sent' + Stream(file, pos', start', end) == sent + Stream(file, pos, start, end)
  {
    var packet, endTemp, rt := ReadNext(file, pos, start, end);
    sent', pos', start' := sent + [packet], pos + rt, endTemp + 1;
    Regroup(sent, packet, Stream(file, pos', start', end));
  }

  method Upload(file: seq<byte>, first: int, end: int) returns (sent: seq<Packet>)
    ensures sent == Stream(file, Seek(first), first, end)
  {
    var start := first;
    var pos: nat := Seek(first);
    sent := [];
    while start < end
      invariant sent + Stream(file, pos, start, end) == Stream(file, Seek(first), first, end)
      decreases end - start
    {
      sent, pos, start := SendNext(file, pos, start, end, sent);
    }
  }

  function Contents(packets: seq<Packet>): seq<seq<byte>> {
    seq(|packets|, i requires 0 <= i < |packets| => packets[i].content)
  }

  function Payload(packets: seq<Packet>): seq<byte> {
    Flatten(Contents(packets))
  }

  lemma PayloadAppend(a: seq<Packet>, b: seq<Packet>)
    ensures Payload(a + b) == Payload(a) + Payload(b)
  {
    assert Contents(a + b) == Contents(a) + Contents(b);
    FlattenAppend(Contents(a), Contents(b));
  }

  lemma PayloadOne(p: Packet)
    ensures Payload([p]) == p.content
  {
    assert Contents([p]) == [p.content];
    assert Flatten([p.content]) == p.content + Flatten([]);
  }

  predicate Flagged(packets: seq<Packet>) {
    packets != [] && packets[|packets| - 1].contentIsEnd == 1
  }

  /** The range is one that upload finishes with an end flag: checkable before asking. */
  predicate Deliverable(start: int, end: int) {
    start < end && (end - start) % BUFFER_SIZE != 0
  }

  /** The bytes upload tries to send for a range. */
  function SentRange(file: seq<byte>, start: nat, end: int): seq<byte>
    requires end < |file|
  {
    if start > end then []
    else if Deliverable(start, end) then file[start..end + 1]
    else file[start..end]
  }

  /** How many bytes of the range the first k packets cover. */
  function Covered(k: nat, total: nat): nat {
    if BUFFER_SIZE * k < total then BUFFER_SIZE * k else total
  }

  /** Packets sent for a range whose end is `distance` past its start. */
  function PacketCount(distance: int): nat {
    if distance <= 0 then 0 else (distance + BUFFER_SIZE - 1) / BUFFER_SIZE
  }

  lemma FullPacketStep(file: seq<byte>, start: nat, end: int)
    requires end < |file| && start + BUFFER_SIZE <= end
    ensures Stream(file, start, start, end)
            == [DataPacket(file[start..start + BUFFER_SIZE], 0)] + Stream(file, start + BUFFER_SIZE, start + BUFFER_SIZE, end)
    ensures Deliverable(start, end) <==> Deliverable(start + BUFFER_SIZE, end)
    ensures PacketCount(end - start) == 1 + PacketCount(end - (start + BUFFER_SIZE))
  {
    FullPacketArithmetic(start, end);
  }

  lemma FullPacketArithmetic(start: nat, end: int)
    requires start + BUFFER_SIZE <= end
    ensures Deliverable(start, end) <==> Deliverable(start + BUFFER_SIZE, end)
    ensures PacketCount(end - start) == 1 + PacketCount(end - (start + BUFFER_SIZE))
  {
  }

  lemma SentRangeStep(file: seq<byte>, start: nat, end: int)
    requires end < |file| && start + BUFFER_SIZE <= end
    ensures var next := start + BUFFER_SIZE;
            SentRange(file, start, end) == file[start..next] + SentRange(file, next, end)
  {
  }

  lemma LastPacketStep(file: seq<byte>, start: nat, end: int)
    requires end < |file| && end < start + BUFFER_SIZE
    ensures Deliverable(start, end) <==> start < end
    ensures PacketCount(end - start) == if start < end then 1 else 0
    ensures start < end ==> Stream(file, start, start, end) == [DataPacket(file[start..end + 1], 1)]
    ensures start >= end ==> Stream(file, start, start, end) == [] && SentRange(file, start, end) == []
  {
  }

  /** Flags and counts of the packets for a range inside the file: every packet is a DWN
      packet, only the last can be flagged, and it is flagged exactly for a deliverable range. */
  lemma {:induction false} StreamShape(file: seq<byte>, start: nat, end: int)
    requires end < |file|
    ensures Flagged(Stream(file, start, start, end)) <==> Deliverable(start, end)
    ensures AllDownload(Stream(file, start, start, end))
    ensures UnflaggedBeforeLast(Stream(file, start, start, end))
    ensures |Stream(file, start, start, end)| == PacketCount(end - start)
    decreases end - start
  {
    if start + BUFFER_SIZE <= end {
      FullPacketStep(file, start, end);
      StreamShape(file, start + BUFFER_SIZE, end);
      ShapeCons(DataPacket(file[start..start + BUFFER_SIZE], 0),
                Stream(file, start + BUFFER_SIZE, start + BUFFER_SIZE, end));
    } else {
      LastPacketStep(file, start, end);
    }
  }

  predicate AllDownload(packets: seq<Packet>) {
    forall i :: 0 <= i < |packets| ==> packets[i].cmd == CMD_DOWNLOAD && NulFree(packets[i].content)
  }

  predicate UnflaggedBeforeLast(packets: seq<Packet>) {
    forall i :: 0 <= i < |packets| - 1 ==> packets[i].contentIsEnd == 0
  }

  lemma ShapeCons(p: Packet, rest: seq<Packet>)
    requires p.cmd == CMD_DOWNLOAD && p.contentIsEnd == 0 && NulFree(p.content)
    requires AllDownload(rest) && UnflaggedBeforeLast(rest)
    ensures AllDownload([p] + rest) && UnflaggedBeforeLast([p] + rest)
    ensures Flagged([p] + rest) <==> Flagged(rest)
  {
  }

  /** The bytes sent for a range inside the file: the whole range when the stream is flagged,
      the range without its last byte otherwise; nothing is lost or changed on the way
      exactly when those bytes hold no NUL. */
  lemma {:induction false} StreamPayload(file: seq<byte>, start: nat, end: int)
    requires end < |file|
    ensures |Payload(Stream(file, start, start, end))| <= |SentRange(file, start, end)|
    ensures Payload(Stream(file, start, start, end)) == SentRange(file, start, end)
            <==> NulFree(SentRange(file, start, end))
    decreases end - start
  {
    if start + BUFFER_SIZE <= end {
      FullPacketStep(file, start, end);
      SentRangeStep(file, start, end);
      var next := start + BUFFER_SIZE;
      StreamPayload(file, next, end);
      FirstPacket(file[start..next], 0, Stream(file, next, next, end), SentRange(file, next, end));
    } else {
      LastPacketStep(file, start, end);
      if start < end {
        PayloadOne(DataPacket(file[start..end + 1], 1));
      } else {
        assert Contents([]) == [];
      }
    }
  }

  lemma FirstPacket(data: seq<byte>, isEnd: int, rest: seq<Packet>, later: seq<byte>)
    requires |Payload(rest)| <= |later|
    requires Payload(rest) == later <==> NulFree(later)
    ensures var packets := [DataPacket(data, isEnd)] + rest;
            && |Payload(packets)| <= |data + later|
            && (Payload(packets) == data + later <==> NulFree(data + later))
  {
    var first := DataPacket(data, isEnd);
    PayloadAppend([first], rest);
    PayloadOne(first);
    NulFreeConcat(data, later);
    if Payload([first] + rest) == data + later {
      SplitEqual(first.content, Payload(rest), data, later);
    }
  }
}
