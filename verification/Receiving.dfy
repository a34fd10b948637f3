/** The client's receive loop of HW4, on the packets that arrive before a time-out. */
module Receiving {
  import opened Bytes
  import opened Packets

  /** One packet received: the text added to the file, and whether the loop ends with 0.
      Packets with another command are skipped. */
  function Accept(content: seq<byte>, p: Packet): (seq<byte>, bool) {
    if p.cmd == CMD_DOWNLOAD then (content + CString(p.content), p.contentIsEnd == 1)
    else (content, false)
  }

  /** Return code and file content when exactly `delivered` arrives and then nothing more. */
  function ReceiveAll(delivered: seq<Packet>, content: seq<byte>): (int, seq<byte>) {
    if delivered == [] then (1, content)
    else
      var (more, finished) := Accept(content, delivered[0]);
      if finished then (0, more) else ReceiveAll(delivered[1..], more)
  }

  method UdpDownloadFile(delivered: seq<Packet>) returns (ret: int, temp: seq<byte>)
    ensures (ret, temp) == ReceiveAll(delivered, [])
  {
    temp := [];
    var i := 0;
    while true
      invariant i <= |delivered|
      invariant ReceiveAll(delivered[i..], temp) == ReceiveAll(delivered, [])
      decreases |delivered| - i
    {
      if i == |delivered| {
        return 1, temp;
      }
      var read := delivered[i];
      assert delivered[i..][1..] == delivered[i + 1..];
      i := i + 1;
      if read.cmd == CMD_DOWNLOAD {
        temp := temp + CString(read.content);
        if read.contentIsEnd == 1 {
          break;
        }
      }
    }
    ret := 0;
  }

  /** The packet on which the loop ends. */
  predicate EndsTransfer(p: Packet) { p.cmd == CMD_DOWNLOAD && p.contentIsEnd == 1 }

  /** What the download packets among these carry. */
  function Texts(packets: seq<Packet>): seq<seq<byte>> {
    if packets == [] then []
    else (if packets[0].cmd == CMD_DOWNLOAD then [CString(packets[0].content)] else []) + Texts(packets[1..])
  }

  lemma TextsCons(p: Packet, rest: seq<Packet>)
    ensures Flatten(Texts([p] + rest)) == Accept([], p).0 + Flatten(Texts(rest))
  {
    assert ([p] + rest)[1..] == rest;
    var own := if p.cmd == CMD_DOWNLOAD then [CString(p.content)] else [];
    FlattenAppend(own, Texts(rest));
    if own != [] { FlattenOne(own[0]); }
  }

  /** Text in the file already stays in front. */
  lemma {:induction false} ReceiveBehind(delivered: seq<Packet>, content: seq<byte>)
    ensures ReceiveAll(delivered, content) == (ReceiveAll(delivered, []).0, content + ReceiveAll(delivered, []).1)
    decreases |delivered|
  {
    if delivered != [] {
      var own, later := Accept([], delivered[0]).0, ReceiveAll(delivered[1..], []).1;
      assert Accept(content, delivered[0]).0 == content + own;
      ReceiveBehind(delivered[1..], content + own);
      ReceiveBehind(delivered[1..], own);
      assert content + own + later == content + (own + later);
    } else {
      assert content + [] == content;
    }
  }

  /** Whatever arrives: if j packets come before the first download packet with an end flag, the
      file gets what the download packets up to and including that one carry, and the result is
      0; if there is no such packet it gets all of them, and the result is 1. */
  lemma {:induction false} ReceivedExactly(delivered: seq<Packet>, j: nat)
    requires j <= |delivered| && forall i :: 0 <= i < j ==> !EndsTransfer(delivered[i])
    requires j < |delivered| ==> EndsTransfer(delivered[j])
    ensures ReceiveAll(delivered, [])
            == if j < |delivered| then (0, Flatten(Texts(delivered[..j + 1]))) else (1, Flatten(Texts(delivered)))
    decreases |delivered|
  {
    if delivered != [] {
      var p, rest := delivered[0], delivered[1..];
      var taken := if j < |delivered| then j + 1 else j;
      assert delivered[..taken] == [p] + rest[..taken - 1];
      TextsCons(p, rest[..taken - 1]);
      assert rest[..0] == [] && Flatten([]) == [] && Accept([], p).0 + [] == Accept([], p).0;
      if j > 0 {
        ReceivedExactly(rest, j - 1);
        ReceiveBehind(rest, Accept([], p).0);
        assert rest[..|rest|] == rest && delivered[..|delivered|] == delivered;
      }
    }
  }

  lemma {:induction false} ReceiveFrom(packets: seq<Packet>, i: nat, k: nat)
    requires AllDownload(packets) && UnflaggedBeforeLast(packets) && i <= k <= |packets|
    ensures ReceiveAll(packets[i..k], Payload(packets[..i]))
            == (if i < k == |packets| && Flagged(packets) then 0 else 1, Payload(packets[..k]))
    decreases k - i
  {
    if i < k {
      PayloadPrefix(packets, i);
      assert packets[i..k][1..] == packets[i + 1..k];
      ReceiveFrom(packets, i + 1, k);
    }
  }

  /** One more packet of a stream extends the content by that packet's bytes. */
  lemma PayloadPrefix(packets: seq<Packet>, i: nat)
    requires i < |packets| && AllDownload(packets)
    ensures Accept(Payload(packets[..i]), packets[i]) == (Payload(packets[..i + 1]), packets[i].contentIsEnd == 1)
  {
    assert packets[..i + 1] == packets[..i] + [packets[i]];
    PayloadAppend(packets[..i], [packets[i]]);
    PayloadOne(packets[i]);
  }

  lemma PayloadEmpty()
    ensures Payload([]) == []
  {
  }

  /** One transfer from end to end. If k packets of the server's stream arrive before the
      time-out, the client reports success exactly when all of them arrived and the range is
      deliverable, and has stored exactly what those k packets carry. */
  lemma TransferOutcome(file: seq<byte>, start: nat, end: int, k: nat)
    requires end < |file| && k <= |Stream(file, start, start, end)|
    ensures var packets := Stream(file, start, start, end);
            var (ret, stored) := ReceiveAll(packets[..k], []);
            && stored == Payload(packets[..k])
            && (ret == 0 <==> k == |packets| && Deliverable(start, end))
            && (ret == 0 ==> (stored == file[start..end + 1] <==> NulFree(file[start..end + 1])))
  {
    var packets := Stream(file, start, start, end);
    StreamShape(file, start, end);
    StreamPayload(file, start, end);
    ReceiveFrom(packets, 0, k);
    PayloadEmpty();
    assert packets[..0] == [] && packets[0..k] == packets[..k];
    assert packets[..|packets|] == packets;
  }

  lemma CoverStep(data: seq<byte>, later: seq<byte>, k: nat)
    requires |data| == BUFFER_SIZE && 0 < k
    ensures (data + later)[..Covered(k, |data + later|)] == data + later[..Covered(k - 1, |later|)]
  {
  }

  lemma PayloadCons(data: seq<byte>, rest: seq<Packet>, k: nat)
    requires NulFree(data) && 0 < k <= |rest| + 1
    ensures Payload(([DataPacket(data, 0)] + rest)[..k]) == data + Payload(rest[..k - 1])
  {
    var first := DataPacket(data, 0);
    assert ([first] + rest)[..k] == [first] + rest[..k - 1];
    PayloadAppend([first], rest[..k - 1]);
    PayloadOne(first);
  }

  lemma PrefixPayloadShort(file: seq<byte>, start: nat, end: int, k: nat)
    requires start + BUFFER_SIZE > end && end < |file| && k <= |Stream(file, start, start, end)|
    requires NulFree(file)
    ensures Covered(k, |SentRange(file, start, end)|) == if k == 0 then 0 else |SentRange(file, start, end)|
    ensures Payload(Stream(file, start, start, end)[..k])
            == SentRange(file, start, end)[..Covered(k, |SentRange(file, start, end)|)]
  {
    LastPacketStep(file, start, end);
    PayloadEmpty();
    var packets := Stream(file, start, start, end);
    if k > 0 {
      assert packets[..k] == packets;
      StreamPayload(file, start, end);
    } else {
      assert packets[..k] == [];
    }
  }

  /** For NUL-free bytes, k packets of a range carry exactly the bytes they cover. */
  lemma {:induction false} PrefixPayload(file: seq<byte>, start: nat, end: int, k: nat)
    requires end < |file| && k <= |Stream(file, start, start, end)|
    requires NulFree(file)
    ensures Payload(Stream(file, start, start, end)[..k])
            == SentRange(file, start, end)[..Covered(k, |SentRange(file, start, end)|)]
    decreases end - start
  {
    if k == 0 {
      PayloadEmpty();
      assert Stream(file, start, start, end)[..k] == [];
    } else if start + BUFFER_SIZE <= end {
      FullPacketStep(file, start, end);
      SentRangeStep(file, start, end);
      var next := start + BUFFER_SIZE;
      PrefixPayload(file, next, end, k - 1);
      PayloadCons(file[start..next], Stream(file, next, next, end), k);
      CoverStep(file[start..next], SentRange(file, next, end), k);
    } else {
      PrefixPayloadShort(file, start, end, k);
    }
  }
}
