/** The chat server's connection handlers: each reads command texts and goes through their
    sections, and the sections of different handlers interleave in any way. */
module Handlers {
  import opened Text
  import opened WaitingList
  import opened ChatProtocol
  import opened Lists
  import opened Directory

  /** One command_response: the peer's address, whether it still reads, and the sections of
      the command in hand that are yet to come. */
  datatype Handler = Handler(ip: string, open: bool, todo: seq<Section>)

  datatype System = System(d: State, handlers: seq<Handler>)

  datatype Event =
    | Receive(h: nat, text: string)  // handler h reads a command
    | Proceed(h: nat)                // handler h goes through its next section

  /** A command that lacks a token is never received: the program then uses a null pointer. */
  predicate Ready(s: System, m: Event) {
    && m.h < |s.handlers|
    && match m
       case Receive(h, text) => s.handlers[h].open && s.handlers[h].todo == [] && ParseCommand(text) != Incomplete
       case Proceed(h) => s.handlers[h].todo != []
  }

  /** The section an event goes through, if any. */
  function Doing(s: System, m: Event): Option<Section> {
    if m.Proceed? && Ready(s, m) then Some(s.handlers[m.h].todo[0]) else None
  }

  /** An event its handler is not ready for changes nothing. */
  function Next(s: System, m: Event): System {
    if !Ready(s, m) then s
    else
      var me := s.handlers[m.h];
      match m
      case Receive(h, text) =>
        var cmd := ParseCommand(text);
        s.(handlers := s.handlers[h := Handler(me.ip, !cmd.Quit?, SectionsOf(cmd, me.ip))])
      case Proceed(h) =>
        if Rejects(s.d, me.todo[0])
        then s.(handlers := s.handlers[h := Handler(me.ip, false, [])])
        else System(Apply(s.d, me.todo[0]), s.handlers[h := me.(todo := me.todo[1..])])
  }

  // ---- runs -------------------------------------------------------------------------

  function Started(ips: seq<string>): System {
    System(EMPTY, seq(|ips|, i requires 0 <= i < |ips| => Handler(ips[i], true, [])))
  }

  /** Where a sequence of events leads when clients from these addresses connect. */
  function Reached(ips: seq<string>, run: seq<Event>): System {
    if run == [] then Started(ips)
    else Next(Reached(ips, run[..|run| - 1]), run[|run| - 1])
  }

  /** The sections gone through, in order. */
  function Trace(ips: seq<string>, run: seq<Event>): seq<Section> {
    if run == [] then []
    else
      var before := run[..|run| - 1];
      var doing := Doing(Reached(ips, before), run[|run| - 1]);
      Trace(ips, before) + if doing.Some? then [doing.value] else []
  }

  lemma NextLists(s: System, m: Event)
    ensures Next(s, m).d == if Doing(s, m).Some? then Apply(s.d, Doing(s, m).value) else s.d
  {
  }

  /** Every run of the handlers is one of the interleavings that Directory speaks of. */
  lemma {:induction false} TraceLeadsThere(ips: seq<string>, run: seq<Event>)
    ensures Reached(ips, run).d == After(Trace(ips, run))
    decreases |run|
  {
    if run != [] {
      var before, m := run[..|run| - 1], run[|run| - 1];
      TraceLeadsThere(ips, before);
      NextLists(Reached(ips, before), m);
      var doing := Doing(Reached(ips, before), m);
      if doing.Some? {
        var trace := Trace(ips, run);
        assert Before(trace) == Trace(ips, before) && Last(trace) == doing.value;
      } else {
        assert Trace(ips, run) == Trace(ips, before);
      }
    }
  }

  /** Handler h goes on alone for up to n sections. */
  function GoOn(s: System, h: nat, n: nat): System
    decreases n
  {
    if n == 0 then s else GoOn(Next(s, Proceed(h)), h, n - 1)
  }

  lemma {:induction false} GoOnApplies(s: System, h: nat, n: nat)
    requires h < |s.handlers| && |s.handlers[h].todo| <= n
    ensures GoOn(s, h, n).d == ApplyAll(s.d, s.handlers[h].todo)
    decreases n
  {
    if n > 0 { GoOnApplies(Next(s, Proceed(h)), h, n - 1); }
  }

  /** A command that no other handler interrupts has the effect and the reply of its text. */
  lemma RoundAlone(s: System, h: nat, text: string)
    requires Ready(s, Receive(h, text))
    ensures GoOn(Next(s, Receive(h, text)), h, 2).d == ApplyAll(s.d, SectionsOf(ParseCommand(text), s.handlers[h].ip))
    ensures Effect(s.d, GoOn(Next(s, Receive(h, text)), h, 2).d, ParseCommand(text), s.handlers[h].ip,
                   ReplyTo(s.d, ParseCommand(text)), Closes(s.d, ParseCommand(text)))
  {
    GoOnApplies(Next(s, Receive(h, text)), h, 2);
    CommandEffect(s.d, ParseCommand(text), s.handlers[h].ip);
  }

  // ---- what each command does while other handlers go on ----------------------------

  /** What the server writes to the client at an event: the replies of LIST and of an unknown
      command when it is read, the others with their sections. */
  function Reply(s: System, m: Event): Option<string> {
    if !Ready(s, m) then None
    else
      match m
      case Receive(_, text) =>
        var cmd := ParseCommand(text);
        if cmd.List? || cmd.Wrong? then ReplyTo(s.d, cmd) else None
      case Proceed(h) =>
        match s.handlers[h].todo[0]
        case TestName(name) => if name in s.d.names then Some(REJECT) else None
        case AddName(_) => Some(CONFIRM)
        case HandOut(connector, peer) => ReplyTo(s.d, Connect(connector, peer))
        case _ => None
  }

  /** Handler h of s is as it was in the earlier state. */
  predicate Unmoved(earlier: System, s: System, h: nat) {
    h < |earlier.handlers| && h < |s.handlers| && s.handlers[h] == earlier.handlers[h]
  }

  predicate Idle(s: System, h: nat) { h < |s.handlers| && s.handlers[h].open && s.handlers[h].todo == [] }

  predicate Closed(s: System, h: nat) { h < |s.handlers| && !s.handlers[h].open && s.handlers[h].todo == [] }

  /** A text that parses as CONNECT: when the handler gets to it, whatever the others did in the
      meantime, the longest-waiting entry of the peer leaves the list and its fields are the
      reply, or nothing changes and the reply says that there is none. */
  lemma ConnectServed(s: System, h: nat, text: string, name: string, peer: string, t: System)
    requires Ready(s, Receive(h, text)) && ParseCommand(text) == Connect(name, peer)
    requires Unmoved(Next(s, Receive(h, text)), t, h)
    ensures Next(s, Receive(h, text)).d == s.d && Reply(s, Receive(h, text)) == None
    ensures Next(t, Proceed(h)).d == t.d.(clients := Next(t, Proceed(h)).d.clients)
    ensures exists entry :: && OldestLeaves(t.d.clients, Next(t, Proceed(h)).d.clients, peer, entry)
                            && Reply(t, Proceed(h)) == Some(PeerText(entry))
    ensures Idle(Next(t, Proceed(h)), h)
  {
    var entry := FirstLeaves(t.d.clients, peer);
    assert [HandOut(name, peer)][1..] == [];
    assert Reply(t, Proceed(h)) == Some(PeerText(entry));
  }

  /** LEAVEWAIT: the longest-waiting entry of the name leaves, and there is no reply. */
  lemma LeaveWaitServed(s: System, h: nat, text: string, name: string, t: System)
    requires Ready(s, Receive(h, text)) && ParseCommand(text) == LeaveWait(name)
    requires Unmoved(Next(s, Receive(h, text)), t, h)
    ensures Next(s, Receive(h, text)).d == s.d && Reply(s, Receive(h, text)) == None
    ensures Next(t, Proceed(h)).d == t.d.(clients := Next(t, Proceed(h)).d.clients) && Reply(t, Proceed(h)) == None
    ensures exists entry :: OldestLeaves(t.d.clients, Next(t, Proceed(h)).d.clients, name, entry)
    ensures Idle(Next(t, Proceed(h)), h)
  {
    var entry := FirstLeaves(t.d.clients, name);
    assert [DropWaiting(name)][1..] == [];
  }

  /** QUIT, first: the longest-waiting entry of the name leaves, and there is no reply. */
  lemma QuitServed(s: System, h: nat, text: string, name: string, t: System)
    requires Ready(s, Receive(h, text)) && ParseCommand(text) == Quit(name)
    requires Unmoved(Next(s, Receive(h, text)), t, h)
    ensures Next(s, Receive(h, text)).d == s.d && Reply(s, Receive(h, text)) == None
    ensures Next(t, Proceed(h)).d == t.d.(clients := Next(t, Proceed(h)).d.clients) && Reply(t, Proceed(h)) == None
    ensures exists entry :: OldestLeaves(t.d.clients, Next(t, Proceed(h)).d.clients, name, entry)
    ensures Quitting(Next(t, Proceed(h)), h, name)
  {
    var entry := FirstLeaves(t.d.clients, name);
    assert [DropWaiting(name), DropName(name)][1..] == [DropName(name)];
  }

  /** Nothing is left of the QUIT but the removal of the name, and nothing more is read. */
  predicate Quitting(s: System, h: nat, name: string) {
    h < |s.handlers| && !s.handlers[h].open && s.handlers[h].todo == [DropName(name)]
  }

  /** Then, whatever the others did in between, one copy of the name leaves, there is no reply,
      and the connection ends. */
  lemma QuitEnds(s: System, h: nat, name: string)
    requires Quitting(s, h, name)
    ensures Next(s, Proceed(h)).d == s.d.(names := Next(s, Proceed(h)).d.names) && Reply(s, Proceed(h)) == None
    ensures CopyLeaves(s.d.names, Next(s, Proceed(h)).d.names, name)
    ensures Closed(Next(s, Proceed(h)), h)
  {
    LastLeaves(s.d.names, name);
    assert [DropName(name)][1..] == [];
  }

  /** WAIT: a new entry with the client's name and port and the address the server sees goes to
      the end of the list, and there is no reply. */
  lemma WaitServed(s: System, h: nat, text: string, name: string, port: int, t: System)
    requires Ready(s, Receive(h, text)) && ParseCommand(text) == Wait(name, port)
    requires Unmoved(Next(s, Receive(h, text)), t, h)
    ensures Next(s, Receive(h, text)).d == s.d && Reply(s, Receive(h, text)) == None
    ensures Next(t, Proceed(h)).d
            == t.d.(clients := t.d.clients + [Client(t.d.next, name, s.handlers[h].ip, port)], next := t.d.next + 1)
    ensures Reply(t, Proceed(h)) == None && Idle(Next(t, Proceed(h)), h)
  {
    assert [AddWaiting(name, s.handlers[h].ip, port)][1..] == [];
  }

  /** JOIN: a name listed at the test is rejected and the connection ends; any other is added
      later, whatever the others did, and confirmed. */
  lemma JoinServed(s: System, h: nat, text: string, name: string, t: System, u: System)
    requires Ready(s, Receive(h, text)) && ParseCommand(text) == Join(name)
    requires Unmoved(Next(s, Receive(h, text)), t, h) && Unmoved(Next(t, Proceed(h)), u, h)
    ensures Next(s, Receive(h, text)).d == s.d && Reply(s, Receive(h, text)) == None
    ensures Next(t, Proceed(h)).d == t.d
    ensures name in t.d.names ==>
              Reply(t, Proceed(h)).Some? && CheckNameConflict(Reply(t, Proceed(h)).value) == 0 && Closed(Next(t, Proceed(h)), h)
    ensures name !in t.d.names ==>
              && Reply(t, Proceed(h)) == None
              && Next(u, Proceed(h)).d == u.d.(names := u.d.names + [name])
              && Reply(u, Proceed(h)).Some? && CheckNameConflict(Reply(u, Proceed(h)).value) == 1
              && Idle(Next(u, Proceed(h)), h)
  {
    assert [TestName(name), AddName(name)][1..] == [AddName(name)] && [AddName(name)][1..] == [];
  }

  /** LIST and unknown commands are answered at once and change nothing. */
  lemma AnsweredAtOnce(s: System, h: nat, text: string)
    requires Ready(s, Receive(h, text)) && (ParseCommand(text).List? || ParseCommand(text).Wrong?)
    ensures Next(s, Receive(h, text)).d == s.d && Idle(Next(s, Receive(h, text)), h)
    ensures Reply(s, Receive(h, text))
            == Some(if ParseCommand(text).List? then ListText(Names(s.d.clients)) else "Undefined command!\n")
  {
  }

  // ---- no entry is given out twice --------------------------------------------------

  predicate SerialGone(d: State, serial: nat) {
    serial < d.next && forall i :: 0 <= i < |d.clients| ==> d.clients[i].serial != serial
  }

  lemma StaysGone(d: State, e: Section, serial: nat)
    requires SerialGone(d, serial)
    ensures SerialGone(Apply(d, e), serial)
  {
  }

  lemma LeavesForGood(clients: seq<Client>, next: nat, idx: int, c: Client)
    requires Sorted(clients, next) && c in clients && c !in Without(clients, idx)
    ensures c.serial < next && forall i :: 0 <= i < |Without(clients, idx)| ==> Without(clients, idx)[i].serial != c.serial
  {
    var k: nat :| k < |clients| && clients[k] == c;
    StaysAt(clients, idx, k);
  }

  lemma GoneAfter(d: State, e: Section, c: Client)
    requires Sorted(d.clients, d.next) && c in d.clients && c !in Apply(d, e).clients
    ensures SerialGone(Apply(d, e), c.serial)
  {
    match e
    case HandOut(_, peer) => LeavesForGood(d.clients, d.next, FirstOf(d.clients, peer), c);
    case DropWaiting(name) => LeavesForGood(d.clients, d.next, FirstOf(d.clients, name), c);
    case _ =>
  }

  // ---- what is read back ------------------------------------------------------------

  predicate Addresses(ips: seq<string>) {
    forall i :: 0 <= i < |ips| ==> IsField(ips[i], ':')
  }

  predicate AllFromText(sections: seq<Section>) {
    forall e :: e in sections ==> FromText(e)
  }

  predicate WaitingFromText(s: System) {
    forall h :: 0 <= h < |s.handlers| ==> IsField(s.handlers[h].ip, ':') && AllFromText(s.handlers[h].todo)
  }

  lemma FromTextStep(s: System, m: Event)
    requires WaitingFromText(s)
    ensures WaitingFromText(Next(s, m))
    ensures Doing(s, m).Some? ==> FromText(Doing(s, m).value)
  {
    if Ready(s, m) {
      var me := s.handlers[m.h];
      if m.Receive? {
        SectionsFromText(m.text, me.ip);
      } else {
        assert me.todo[0] in me.todo;
        assert forall e :: e in me.todo[1..] ==> e in me.todo;
      }
    }
  }

  lemma {:induction false} TraceFromText(ips: seq<string>, run: seq<Event>)
    requires Addresses(ips)
    ensures WaitingFromText(Reached(ips, run)) && AllFromText(Trace(ips, run))
    decreases |run|
  {
    if run != [] {
      TraceFromText(ips, run[..|run| - 1]);
      FromTextStep(Reached(ips, run[..|run| - 1]), run[|run| - 1]);
    }
  }

  lemma GoodWaiters(ips: seq<string>, run: seq<Event>)
    requires Addresses(ips)
    ensures GoodEntries(Reached(ips, run).d.clients)
  {
    TraceLeadsThere(ips, run);
    TraceFromText(ips, run);
    assert forall i :: 0 <= i < |Trace(ips, run)| ==> Trace(ips, run)[i] in Trace(ips, run);
    EntriesAreGood(Trace(ips, run));
  }

  /** Whatever texts the clients have sent, and however their handlers interleaved, a LIST
      reply prints as the waiting names in order. */
  lemma ListReadsBack(ips: seq<string>, run: seq<Event>)
    requires Addresses(ips)
    ensures var d := Reached(ips, run).d;
            var printed := PrintedFrom(ReplyTo(d, List).value, 2, 3);
            |printed| == |d.clients| && forall i :: 0 <= i < |printed| ==> printed[i] == d.clients[i].name
  {
    GoodWaiters(ips, run);
    ListRoundTrip(Names(Reached(ips, run).d.clients));
  }

  /** However the LIST reply is cut, the client shows all of it when the last chunk has two
      characters or more, says that nobody waits when the reply for an empty list comes whole,
      and otherwise, when the last colon comes alone, reads on. */
  lemma ListReplyInChunks(ips: seq<string>, run: seq<Event>, chunks: seq<string>)
    requires Addresses(ips)
    requires Chunking(chunks, ReplyTo(Reached(ips, run).d, List).value)
    ensures chunks != []
    ensures ProcessFrom(chunks, 0, "")
            == if chunks == ["l::"] then NoClients
               else if |chunks[|chunks| - 1]| >= 2 then Shown(ReplyTo(Reached(ips, run).d, List).value, |chunks|)
               else Awaiting(ReplyTo(Reached(ips, run).d, List).value)
    ensures chunks == ["l::"] ==> Reached(ips, run).d.clients == []
  {
    GoodWaiters(ips, run);
    ChunkedReply(Names(Reached(ips, run).d.clients), chunks);
  }

  /** A CONNECT reply reads back as the longest-waiting entry of that name, or as unavailable
      when nobody of that name waits. */
  lemma ConnectReadsBack(ips: seq<string>, run: seq<Event>, connector: string, peer: string)
    requires Addresses(ips)
    ensures var d := Reached(ips, run).d;
            var taken := Taken(d, HandOut(connector, peer));
            ConnectAfterProcess(ReplyTo(d, Connect(connector, peer)).value)
            == if taken == [] then Unavailable else PeerAt(peer, taken[0].ip, taken[0].port)
  {
    GoodWaiters(ips, run);
    var taken := Taken(Reached(ips, run).d, HandOut(connector, peer));
    if taken != [] { ConnectReply(taken[0]); }
  }

  // ---- the states of a run ----------------------------------------------------------

  /** The system before event i of the run. */
  function At(ips: seq<string>, run: seq<Event>, i: nat): System
    requires i <= |run|
  {
    Reached(ips, run[..i])
  }

  lemma AtNext(ips: seq<string>, run: seq<Event>, i: nat)
    requires i < |run|
    ensures At(ips, run, i + 1) == Next(At(ips, run, i), run[i])
  {
    assert run[..i + 1][..i] == run[..i];
  }

  lemma SortedAt(ips: seq<string>, run: seq<Event>)
    ensures Sorted(Reached(ips, run).d.clients, Reached(ips, run).d.next)
  {
    TraceLeadsThere(ips, run);
    ArrivalOrder(Trace(ips, run));
  }

  /** An entry that leaves the list never comes back under its serial number. */
  lemma {:induction false} GoneForGood(ips: seq<string>, run: seq<Event>, i: nat, j: nat, c: Client)
    requires i < j <= |run| && c in At(ips, run, i).d.clients && c !in At(ips, run, i + 1).d.clients
    ensures SerialGone(At(ips, run, j).d, c.serial)
    decreases j
  {
    AtNext(ips, run, j - 1);
    var s, m := At(ips, run, j - 1), run[j - 1];
    NextLists(s, m);
    if j == i + 1 {
      SortedAt(ips, run[..i]);
      GoneAfter(s.d, Doing(s, m).value, c);
    } else {
      GoneForGood(ips, run, i, j - 1, c);
      if Doing(s, m).Some? { StaysGone(s.d, Doing(s, m).value, c.serial); }
    }
  }

  /** At event i a CONNECT is answered with entry c, which leaves the list. */
  predicate HandsOver(ips: seq<string>, run: seq<Event>, i: nat, c: Client) {
    && i < |run| && c in At(ips, run, i).d.clients && c !in At(ips, run, i + 1).d.clients
    && Reply(At(ips, run, i), run[i]) == Some(PeerText(Some(c)))
  }

  lemma TakenIsGone(clients: seq<Client>, next: nat, idx: nat)
    requires Sorted(clients, next) && idx < |clients|
    ensures clients[idx] !in Without(clients, idx)
  {
  }

  /** Every CONNECT answered with anything but "none" hands an entry over. */
  lemma AnswerHandsOver(ips: seq<string>, run: seq<Event>, i: nat)
    requires i < |run| && Doing(At(ips, run, i), run[i]).Some? && Doing(At(ips, run, i), run[i]).value.HandOut?
    requires Reply(At(ips, run, i), run[i]) != Some("c::")
    ensures exists c :: HandsOver(ips, run, i, c)
  {
    var s, m := At(ips, run, i), run[i];
    var peer := Doing(s, m).value.peer;
    AtNext(ips, run, i);
    NextLists(s, m);
    SortedAt(ips, run[..i]);
    var entry := FirstLeaves(s.d.clients, peer);
    TakenIsGone(s.d.clients, s.d.next, FirstOf(s.d.clients, peer));
    assert HandsOver(ips, run, i, entry.value);
  }

  /** In no run are two CONNECTs answered with the same entry. */
  lemma NeverAnsweredTwice(ips: seq<string>, run: seq<Event>, i: nat, j: nat, c: Client, e: Client)
    requires i < j && HandsOver(ips, run, i, c) && HandsOver(ips, run, j, e)
    ensures c.serial != e.serial
  {
    GoneForGood(ips, run, i, j, c);
  }

  // ---- names ------------------------------------------------------------------------

  /** Handler k has passed the test of JOIN and not yet added the name. */
  predicate Pending(s: System, k: nat, name: string) {
    k < |s.handlers| && s.handlers[k].todo == [AddName(name)]
  }

  predicate Adds(ips: seq<string>, run: seq<Event>, i: nat, name: string) {
    i < |run| && Doing(At(ips, run, i), run[i]) == Some(AddName(name))
  }

  predicate Drops(ips: seq<string>, run: seq<Event>, i: nat, name: string) {
    i < |run| && Doing(At(ips, run, i), run[i]) == Some(DropName(name))
  }

  /** At event j another handler adds the name that k has tested, and up to event l handler k
      neither adds it nor does any QUIT remove it. */
  predicate OvertakenSince(ips: seq<string>, run: seq<Event>, j: nat, l: nat, k: nat, name: string) {
    && j < l <= |run|
    && Adds(ips, run, j, name) && run[j].h != k
    && (forall i :: j <= i <= l ==> Pending(At(ips, run, i), k, name))
    && (forall i :: j < i < l ==> !Drops(ips, run, i, name))
  }

  /** Then, at event l, handler k adds it all the same. */
  ghost predicate Overtaken(ips: seq<string>, run: seq<Event>, l: nat) {
    && l < |run|
    && exists j, name :: OvertakenSince(ips, run, j, l, run[l].h, name) && Adds(ips, run, l, name)
  }

  // ---- an overtaken JOIN leaves a duplicate

  lemma NameStays(s: System, m: Event, name: string)
    requires name in s.d.names && Doing(s, m) != Some(DropName(name))
    ensures name in Next(s, m).d.names
  {
    NextLists(s, m);
    if Doing(s, m).Some? { NameStep(s.d, Doing(s, m).value, name); }
  }

  lemma AddedThen(ips: seq<string>, run: seq<Event>, j: nat, name: string)
    requires Adds(ips, run, j, name)
    ensures name in At(ips, run, j + 1).d.names
  {
    AtNext(ips, run, j);
    NextLists(At(ips, run, j), run[j]);
    NameStep(At(ips, run, j).d, AddName(name), name);
  }

  lemma ListedThen(ips: seq<string>, run: seq<Event>, l: nat, name: string)
    requires l < |run| && name in At(ips, run, l).d.names && !Drops(ips, run, l, name)
    ensures name in At(ips, run, l + 1).d.names
  {
    AtNext(ips, run, l);
    NameStays(At(ips, run, l), run[l], name);
  }

  lemma {:induction false} StaysListed(ips: seq<string>, run: seq<Event>, j: nat, l: nat, name: string)
    requires j < l <= |run| && Adds(ips, run, j, name)
    requires forall i :: j < i < l ==> !Drops(ips, run, i, name)
    ensures name in At(ips, run, l).d.names
    decreases l
  {
    if j == l - 1 {
      AddedThen(ips, run, j, name);
    } else {
      StaysListed(ips, run, j, l - 1, name);
      ListedThen(ips, run, l - 1, name);
    }
  }

  lemma OvertakenRepeats(ips: seq<string>, run: seq<Event>, l: nat)
    requires Overtaken(ips, run, l)
    ensures !Distinct(At(ips, run, l + 1).d.names)
  {
    var j, name :| OvertakenSince(ips, run, j, l, run[l].h, name) && Adds(ips, run, l, name);
    StaysListed(ips, run, j, l, name);
    AtNext(ips, run, l);
    var names := At(ips, run, l).d.names;
    var i :| 0 <= i < |names| && names[i] == name;
    assert At(ips, run, l + 1).d.names == names + [name];
    assert (names + [name])[i] == (names + [name])[|names|];
  }

  // ---- without one the names stay distinct

  /** The sections ahead: a whole JOIN, the rest of one, or no part of one. */
  predicate JoinShape(todo: seq<Section>) {
    || (|todo| == 2 && todo[0].TestName? && todo[1] == AddName(todo[0].name))
    || (|todo| == 1 && todo[0].AddName?)
    || forall e :: e in todo ==> !e.TestName? && !e.AddName?
  }

  predicate JoinShapes(s: System) {
    forall h :: 0 <= h < |s.handlers| ==> JoinShape(s.handlers[h].todo)
  }

  lemma ShapeStep(s: System, m: Event)
    requires JoinShapes(s)
    ensures JoinShapes(Next(s, m))
  {
    if Ready(s, m) && m.Proceed? {
      var todo := s.handlers[m.h].todo;
      assert todo[0] in todo && forall e :: e in todo[1..] ==> e in todo;
      if |todo| == 2 && todo[0].TestName? { assert todo[1..] == [todo[1]]; }
    }
  }

  lemma {:induction false} Shapes(ips: seq<string>, run: seq<Event>)
    ensures JoinShapes(Reached(ips, run))
    decreases |run|
  {
    if run != [] {
      Shapes(ips, run[..|run| - 1]);
      ShapeStep(Reached(ips, run[..|run| - 1]), run[|run| - 1]);
    }
  }

  /** How a handler comes to be about to add a name: it was so already, or it has just found
      the name missing. */
  lemma PendingStep(s: System, m: Event, k: nat, name: string)
    requires JoinShapes(s) && Pending(Next(s, m), k, name)
    ensures if Pending(s, k, name) then !(Ready(s, m) && m.h == k) else name !in Next(s, m).d.names
  {
    if Ready(s, m) && m.h == k && m.Proceed? {
      var todo := s.handlers[k].todo;
      assert todo[1..] == [AddName(name)] && |todo| == 2 && AddName(name) == todo[1] && todo[1] in todo;
    }
  }

  /** Every name that a handler is about to add and that is in the list was added by another
      handler in the meantime. */
  ghost predicate Watched(ips: seq<string>, run: seq<Event>, i: nat)
    requires i <= |run|
  {
    forall k, name :: Pending(At(ips, run, i), k, name) && name in At(ips, run, i).d.names
                      ==> exists j :: OvertakenSince(ips, run, j, i, k, name)
  }

  /** A name already overtaken stays so, or is removed. */
  lemma StillOvertaken(ips: seq<string>, run: seq<Event>, j: nat, i: nat, k: nat, name: string)
    requires i < |run| && OvertakenSince(ips, run, j, i, k, name)
    requires Pending(At(ips, run, i + 1), k, name) && !Drops(ips, run, i, name)
    ensures OvertakenSince(ips, run, j, i + 1, k, name)
  {
  }

  lemma StaysDistinct(s: System, m: Event)
    requires Distinct(s.d.names)
    requires forall name :: Doing(s, m) == Some(AddName(name)) ==> name !in s.d.names
    ensures Distinct(Next(s, m).d.names)
    ensures forall name :: name in Next(s, m).d.names ==>
              Doing(s, m) != Some(DropName(name)) && (name in s.d.names || Doing(s, m) == Some(AddName(name)))
  {
    NextLists(s, m);
    if Doing(s, m).Some? { DistinctStep(s.d, Doing(s, m).value); }
  }

  lemma AddsPending(s: System, m: Event, name: string)
    requires JoinShapes(s) && Doing(s, m) == Some(AddName(name))
    ensures Pending(s, m.h, name)
  {
    var todo := s.handlers[m.h].todo;
    assert todo[0] in todo;
    assert todo == [todo[0]];
  }

  /** What event i adds a second time makes it overtaken. */
  lemma AddsAgain(ips: seq<string>, run: seq<Event>, i: nat, name: string)
    requires i < |run| && Watched(ips, run, i) && Adds(ips, run, i, name)
    requires name in At(ips, run, i).d.names
    ensures Overtaken(ips, run, i)
  {
    Shapes(ips, run[..i]);
    AddsPending(At(ips, run, i), run[i], name);
    var j :| OvertakenSince(ips, run, j, i, run[i].h, name);
  }

  lemma AddsNew(ips: seq<string>, run: seq<Event>, i: nat)
    requires i < |run| && Watched(ips, run, i) && !Overtaken(ips, run, i)
    ensures forall name :: Doing(At(ips, run, i), run[i]) == Some(AddName(name)) ==> name !in At(ips, run, i).d.names
  {
    forall name | Doing(At(ips, run, i), run[i]) == Some(AddName(name))
      ensures name !in At(ips, run, i).d.names
    {
      assert Adds(ips, run, i, name);
      if name in At(ips, run, i).d.names { AddsAgain(ips, run, i, name); }
    }
  }

  lemma WatchedStep(ips: seq<string>, run: seq<Event>, i: nat)
    requires i < |run| && Watched(ips, run, i) && !Overtaken(ips, run, i) && Distinct(At(ips, run, i).d.names)
    ensures Watched(ips, run, i + 1) && Distinct(At(ips, run, i + 1).d.names)
  {
    var s, m := At(ips, run, i), run[i];
    AtNext(ips, run, i);
    Shapes(ips, run[..i]);
    AddsNew(ips, run, i);
    StaysDistinct(s, m);
    var i' := i + 1;
    forall k, name | Pending(At(ips, run, i'), k, name) && name in At(ips, run, i').d.names
      ensures exists j :: OvertakenSince(ips, run, j, i', k, name)
    {
      PendingStep(s, m, k, name);
      if name in s.d.names {
        var j :| OvertakenSince(ips, run, j, i, k, name);
        StillOvertaken(ips, run, j, i, k, name);
      } else {
        assert Adds(ips, run, i, name) && Pending(At(ips, run, i), k, name);
        assert OvertakenSince(ips, run, i, i + 1, k, name);
      }
    }
  }

  lemma {:induction false} NoneOvertaken(ips: seq<string>, run: seq<Event>, i: nat)
    requires i <= |run| && forall l :: 0 <= l < i ==> !Overtaken(ips, run, l)
    ensures Watched(ips, run, i) && Distinct(At(ips, run, i).d.names)
  {
    if i == 0 {
      assert run[..0] == [];
    } else {
      NoneOvertaken(ips, run, i - 1);
      WatchedStep(ips, run, i - 1);
    }
  }

  /** The names are distinct throughout a run if and only if no handler adds a name that
      another one has added, and no QUIT removed, since its own test. */
  lemma NamesStayDistinct(ips: seq<string>, run: seq<Event>)
    ensures (forall i :: 0 <= i <= |run| ==> Distinct(At(ips, run, i).d.names))
            <==> forall l :: 0 <= l < |run| ==> !Overtaken(ips, run, l)
  {
    if forall i :: 0 <= i <= |run| ==> Distinct(At(ips, run, i).d.names) {
      forall l | 0 <= l < |run|
        ensures !Overtaken(ips, run, l)
      {
        assert Distinct(At(ips, run, l + 1).d.names);
        if Overtaken(ips, run, l) { OvertakenRepeats(ips, run, l); }
      }
    }
    if forall l :: 0 <= l < |run| ==> !Overtaken(ips, run, l) {
      forall i | 0 <= i <= |run|
        ensures Distinct(At(ips, run, i).d.names)
      {
        NoneOvertaken(ips, run, i);
      }
    }
  }

  /** The last JOIN or QUIT section about the name was a JOIN. */
  predicate Joined(trace: seq<Section>, name: string) {
    if trace == [] then false
    else if Last(trace) == AddName(name) then true
    else if Last(trace) == DropName(name) then false
    else Joined(Before(trace), name)
  }

  /** As long as no JOIN is overtaken, the list holds each joined name once and nobody else. */
  lemma {:induction false} NamesAreJoined(ips: seq<string>, run: seq<Event>, i: nat)
    requires i <= |run| && forall l :: 0 <= l < i ==> !Overtaken(ips, run, l)
    ensures Distinct(At(ips, run, i).d.names)
    ensures forall n :: n in At(ips, run, i).d.names <==> Joined(Trace(ips, run[..i]), n)
  {
    NoneOvertaken(ips, run, i);
    if i == 0 {
      assert run[..0] == [];
    } else {
      NamesAreJoined(ips, run, i - 1);
      var s, m := At(ips, run, i - 1), run[i - 1];
      NamesComeFrom(ips, run, i - 1);
      AtNext(ips, run, i - 1);
      assert run[..i][..i - 1] == run[..i - 1];
      forall n
        ensures n in Next(s, m).d.names <==> Joined(Trace(ips, run[..i]), n)
      {
        JoinedStep(s, m, Trace(ips, run[..i - 1]), Trace(ips, run[..i]), n);
      }
    }
  }

  /** What is listed after an event was so before, or is what it adds. */
  lemma NamesComeFrom(ips: seq<string>, run: seq<Event>, i: nat)
    requires i < |run| && forall l :: 0 <= l < i + 1 ==> !Overtaken(ips, run, l)
    ensures var s, m := At(ips, run, i), run[i];
            forall name :: name in Next(s, m).d.names ==>
              Doing(s, m) != Some(DropName(name)) && (name in s.d.names || Doing(s, m) == Some(AddName(name)))
  {
    NoneOvertaken(ips, run, i);
    AddsNew(ips, run, i);
    StaysDistinct(At(ips, run, i), run[i]);
  }

  lemma JoinedMore(before: seq<Section>, e: Section, name: string)
    ensures Joined(before + [e], name) <==> e == AddName(name) || (e != DropName(name) && Joined(before, name))
  {
    assert Before(before + [e]) == before && Last(before + [e]) == e;
  }

  lemma JoinedStep(s: System, m: Event, before: seq<Section>, trace: seq<Section>, name: string)
    requires name in s.d.names <==> Joined(before, name)
    requires trace == before + if Doing(s, m).Some? then [Doing(s, m).value] else []
    requires name in Next(s, m).d.names ==>
               Doing(s, m) != Some(DropName(name)) && (name in s.d.names || Doing(s, m) == Some(AddName(name)))
    ensures name in Next(s, m).d.names <==> Joined(trace, name)
  {
    NextLists(s, m);
    if Doing(s, m).Some? {
      JoinedMore(before, Doing(s, m).value, name);
      NameStep(s.d, Doing(s, m).value, name);
    } else {
      assert trace == before;
    }
  }

  // ---- a race

  /** Two clients join under one name at the same time, then one of them quits. */
  function Race(name: string): seq<Event> {
    [Receive(0, FormatJoin(name).0), Receive(1, FormatJoin(name).0), Proceed(0), Proceed(1), Proceed(0), Proceed(1),
     Receive(0, FormatQuit(name).0), Proceed(0), Proceed(0)]
  }

  /** Both handlers still read. */
  function Two(a: string, b: string, names: seq<string>, todo0: seq<Section>, todo1: seq<Section>): System {
    System(State([], names, 0), [Handler(a, true, todo0), Handler(b, true, todo1)])
  }

  function JoinOf(name: string): seq<Section> { [TestName(name), AddName(name)] }

  lemma BothRead(a: string, b: string, name: string, text: string)
    requires ParseCommand(text) == Join(name)
    ensures Next(Two(a, b, [], [], []), Receive(0, text)) == Two(a, b, [], JoinOf(name), [])
    ensures Next(Two(a, b, [], JoinOf(name), []), Receive(1, text)) == Two(a, b, [], JoinOf(name), JoinOf(name))
  {
  }

  lemma BothTest(a: string, b: string, name: string)
    ensures Next(Two(a, b, [], JoinOf(name), JoinOf(name)), Proceed(0)) == Two(a, b, [], [AddName(name)], JoinOf(name))
    ensures Next(Two(a, b, [], [AddName(name)], JoinOf(name)), Proceed(1)) == Two(a, b, [], [AddName(name)], [AddName(name)])
  {
    assert JoinOf(name)[1..] == [AddName(name)];
  }

  lemma BothAdd(a: string, b: string, name: string)
    ensures Next(Two(a, b, [], [AddName(name)], [AddName(name)]), Proceed(0)) == Two(a, b, [name], [], [AddName(name)])
    ensures Next(Two(a, b, [name], [], [AddName(name)]), Proceed(1)) == Two(a, b, [name, name], [], [])
  {
    assert [AddName(name)][1..] == [] && [name] + [name] == [name, name];
  }

  lemma BothStart(a: string, b: string, run: seq<Event>)
    ensures At([a, b], run, 0) == Two(a, b, [], [], [])
  {
    assert run[..0] == [] && Started([a, b]).handlers == [Handler(a, true, []), Handler(b, true, [])];
  }

  lemma RaceReads(a: string, b: string, name: string)
    requires ParseCommand(FormatJoin(name).0) == Join(name)
    ensures At([a, b], Race(name), 2) == Two(a, b, [], JoinOf(name), JoinOf(name))
  {
    var ips, run := [a, b], Race(name);
    BothStart(a, b, run);
    AtNext(ips, run, 0);
    AtNext(ips, run, 1);
    BothRead(a, b, name, FormatJoin(name).0);
  }

  lemma RaceTests(a: string, b: string, name: string)
    requires At([a, b], Race(name), 2) == Two(a, b, [], JoinOf(name), JoinOf(name))
    ensures At([a, b], Race(name), 4) == Two(a, b, [], [AddName(name)], [AddName(name)])
  {
    AtNext([a, b], Race(name), 2);
    AtNext([a, b], Race(name), 3);
    BothTest(a, b, name);
  }

  lemma RaceAdds(a: string, b: string, name: string)
    requires At([a, b], Race(name), 4) == Two(a, b, [], [AddName(name)], [AddName(name)])
    ensures At([a, b], Race(name), 6) == Two(a, b, [name, name], [], [])
  {
    AtNext([a, b], Race(name), 4);
    AtNext([a, b], Race(name), 5);
    BothAdd(a, b, name);
  }

  /** The first handler is on its way out. */
  function Leaving(a: string, b: string, name: string, todo: seq<Section>): System {
    System(State([], [name, name], 0), [Handler(a, false, todo), Handler(b, true, [])])
  }

  lemma OneQuits(a: string, b: string, name: string, text: string)
    requires ParseCommand(text) == Quit(name)
    ensures Next(Two(a, b, [name, name], [], []), Receive(0, text))
            == Leaving(a, b, name, [DropWaiting(name), DropName(name)])
    ensures Next(Leaving(a, b, name, [DropWaiting(name), DropName(name)]), Proceed(0))
            == Leaving(a, b, name, [DropName(name)])
  {
    assert [DropWaiting(name), DropName(name)][1..] == [DropName(name)];
  }

  lemma OneCopyGoes(a: string, b: string, name: string)
    ensures Next(Leaving(a, b, name, [DropName(name)]), Proceed(0)).d.names == [name]
  {
    assert LastOf([name, name], name) == 1 && Without([name, name], 1) == [name];
  }

  lemma RaceLeaves(a: string, b: string, name: string)
    requires ParseCommand(FormatQuit(name).0) == Quit(name)
    requires At([a, b], Race(name), 6) == Two(a, b, [name, name], [], [])
    ensures At([a, b], Race(name), 8) == Leaving(a, b, name, [DropName(name)])
  {
    AtNext([a, b], Race(name), 6);
    AtNext([a, b], Race(name), 7);
    OneQuits(a, b, name, FormatQuit(name).0);
  }

  lemma RaceQuits(a: string, b: string, name: string)
    requires At([a, b], Race(name), 8) == Leaving(a, b, name, [DropName(name)])
    ensures At([a, b], Race(name), 9).d.names == [name]
  {
    AtNext([a, b], Race(name), 8);
    OneCopyGoes(a, b, name);
  }

  /** Both pass the unlocked test on the empty list, both add the name, and after the QUIT the
      name is still taken. */
  lemma JoinRace(a: string, b: string, name: string)
    requires IsField(name, ':')
    ensures At([a, b], Race(name), 6).d.names == [name, name]
    ensures At([a, b], Race(name), 9).d.names == [name]
    ensures exists l :: 0 <= l < |Race(name)| && Overtaken([a, b], Race(name), l)
  {
    var ips, run := [a, b], Race(name);
    CommandRoundTrip(Join(name), name);
    CommandRoundTrip(Quit(name), name);
    RaceReads(a, b, name);
    RaceTests(a, b, name);
    RaceAdds(a, b, name);
    RaceLeaves(a, b, name);
    RaceQuits(a, b, name);
    NamesStayDistinct(ips, run);
    var names := At(ips, run, 6).d.names;
    assert names[0] == names[1];
  }
}
