/** The chat server's shared lists as a machine whose steps are the sections of the connection
    handlers: each locked section, and the test of JOIN, which is outside the lock. */
module Directory {
  import opened Text
  import opened Lists
  import opened WaitingList
  import opened ChatProtocol

  datatype Section =
    | TestName(name: string)                    // JOIN, before the lock
    | AddName(name: string)                     // JOIN, under the lock
    | AddWaiting(name: string, ip: string, port: int)
    | HandOut(connector: string, peer: string)  // CONNECT
    | DropWaiting(name: string)                 // LEAVEWAIT, and the first half of QUIT
    | DropName(name: string)                    // the second half of QUIT

  datatype State = State(clients: seq<Client>, names: seq<string>, next: nat)

  const EMPTY := State([], [], 0)

  /** findItem: the first entry with the name, or -1. */
  function FirstOf(clients: seq<Client>, name: string): (idx: int)
    ensures -1 <= idx < |clients|
    ensures idx >= 0 ==> clients[idx].name == name
    ensures forall i :: 0 <= i < (if idx < 0 then |clients| else idx) ==> clients[i].name != name
  {
    if clients == [] then -1
    else if clients[0].name == name then 0
    else
      var rest := FirstOf(clients[1..], name);
      if rest < 0 then -1 else rest + 1
  }

  /** The index removeNameItem removes: the last one, or -1. */
  function LastOf(names: seq<string>, name: string): (idx: int)
    ensures -1 <= idx < |names|
    ensures idx >= 0 ==> names[idx] == name
    ensures forall i :: idx < i < |names| ==> names[i] != name
  {
    if names == [] then -1
    else if names[|names| - 1] == name then |names| - 1
    else LastOf(names[..|names| - 1], name)
  }

  /** The entry a section takes out of the waiting list. */
  function Taken(d: State, e: Section): seq<Client> {
    var idx := match e
               case HandOut(_, peer) => FirstOf(d.clients, peer)
               case DropWaiting(name) => FirstOf(d.clients, name)
               case _ => -1;
    if idx < 0 then [] else [d.clients[idx]]
  }

  function Apply(d: State, e: Section): State {
    match e
    case TestName(_) => d
    case AddName(name) => d.(names := d.names + [name])
    case AddWaiting(name, ip, port) =>
      d.(clients := d.clients + [Client(d.next, name, ip, port)], next := d.next + 1)
    case HandOut(_, peer) => d.(clients := Without(d.clients, FirstOf(d.clients, peer)))
    case DropWaiting(name) => d.(clients := Without(d.clients, FirstOf(d.clients, name)))
    case DropName(name) => d.(names := Without(d.names, LastOf(d.names, name)))
  }

  // ---- runs: any interleaving of sections, from the empty lists ---------------------

  function Before(run: seq<Section>): seq<Section>
    requires run != []
  {
    run[..|run| - 1]
  }

  function Last(run: seq<Section>): Section
    requires run != []
  {
    run[|run| - 1]
  }

  function After(run: seq<Section>): State {
    if run == [] then EMPTY else Apply(After(Before(run)), Last(run))
  }

  /** The entries given to connectors, in order. */
  function Handed(run: seq<Section>): seq<Client> {
    if run == [] then []
    else Handed(Before(run)) + if Last(run).HandOut? then Taken(After(Before(run)), Last(run)) else []
  }

  /** The entries removed by QUIT or LEAVEWAIT. */
  function Dropped(run: seq<Section>): seq<Client> {
    if run == [] then []
    else Dropped(Before(run)) + if Last(run).DropWaiting? then Taken(After(Before(run)), Last(run)) else []
  }

  /** The entries that WAIT commands have made. */
  function Entered(run: seq<Section>): seq<Client> {
    if run == [] then []
    else
      match Last(run)
      case AddWaiting(name, ip, port) =>
        Entered(Before(run)) + [Client(After(Before(run)).next, name, ip, port)]
      case _ => Entered(Before(run))
  }

  lemma TakeOut(clients: seq<Client>, idx: int)
    requires 0 <= idx < |clients|
    ensures multiset(Without(clients, idx)) + multiset{clients[idx]} == multiset(clients)
  {
    assert clients == clients[..idx] + [clients[idx]] + clients[idx + 1..];
  }

  lemma TakenLeaves(d: State, e: Section)
    requires e.HandOut? || e.DropWaiting?
    ensures multiset(Apply(d, e).clients) + multiset(Taken(d, e)) == multiset(d.clients)
  {
    var name := if e.HandOut? then e.peer else e.name;
    var idx := FirstOf(d.clients, name);
    if idx >= 0 { TakeOut(d.clients, idx); }
  }

  lemma MoveOut<T>(after: multiset<T>, before: multiset<T>, taken: multiset<T>, a: multiset<T>, b: multiset<T>)
    requires after + taken == before
    ensures after + (a + taken) + b == before + a + b
    ensures after + a + (b + taken) == before + a + b
  {
  }

  lemma MoveIn<T>(waiting: multiset<T>, c: multiset<T>, a: multiset<T>, b: multiset<T>)
    ensures (waiting + c) + a + b == (waiting + a + b) + c
  {
  }

  lemma ConservedStep(d: State, e: Section, handed: multiset<Client>, dropped: multiset<Client>)
    requires e.HandOut? || e.DropWaiting?
    ensures multiset(Apply(d, e).clients) + (handed + multiset(Taken(d, e))) + dropped
            == multiset(d.clients) + handed + dropped
    ensures multiset(Apply(d, e).clients) + handed + (dropped + multiset(Taken(d, e)))
            == multiset(d.clients) + handed + dropped
  {
    TakenLeaves(d, e);
    MoveOut(multiset(Apply(d, e).clients), multiset(d.clients), multiset(Taken(d, e)), handed, dropped);
  }

  /** Conservation: every entry ever made is waiting, handed out, or dropped. */
  lemma {:induction false} EntriesConserved(run: seq<Section>)
    ensures multiset(After(run).clients) + multiset(Handed(run)) + multiset(Dropped(run)) == multiset(Entered(run))
    decreases |run|
  {
    if run != [] {
      var d, e := After(Before(run)), Last(run);
      var handed, dropped := Handed(Before(run)), Dropped(Before(run));
      EntriesConserved(Before(run));
      if e.HandOut? || e.DropWaiting? {
        ConservedStep(d, e, multiset(handed), multiset(dropped));
        assert multiset(handed + Taken(d, e)) == multiset(handed) + multiset(Taken(d, e));
        assert multiset(dropped + Taken(d, e)) == multiset(dropped) + multiset(Taken(d, e));
      } else if e.AddWaiting? {
        MoveIn(multiset(d.clients), multiset{Client(d.next, e.name, e.ip, e.port)}, multiset(handed), multiset(dropped));
      }
    }
  }

  lemma {:induction false} SerialsAreOrder(run: seq<Section>)
    ensures |Entered(run)| == After(run).next
    ensures forall k :: 0 <= k < |Entered(run)| ==> Entered(run)[k].serial == k
    decreases |run|
  {
    if run != [] { SerialsAreOrder(Before(run)); }
  }

  lemma {:induction false} CountBySerial(entries: seq<Client>, c: Client)
    requires forall k :: 0 <= k < |entries| ==> entries[k].serial == k
    ensures multiset(entries)[c] == if c.serial < |entries| && entries[c.serial] == c then 1 else 0
  {
    if entries != [] {
      var last := |entries| - 1;
      assert entries == entries[..last] + [entries[last]];
      CountBySerial(entries[..last], c);
    }
  }

  /** In any interleaving an entry has exactly one fate: it waits, or one CONNECT was given
      it, or one QUIT or LEAVEWAIT removed it. So no entry goes to two connectors. */
  lemma OneFate(run: seq<Section>, k: nat)
    requires k < |Entered(run)|
    ensures var c := Entered(run)[k];
            multiset(After(run).clients)[c] + multiset(Handed(run))[c] + multiset(Dropped(run))[c] == 1
  {
    EntriesConserved(run);
    SerialsAreOrder(run);
    var c := Entered(run)[k];
    CountBySerial(Entered(run), c);
    var all := multiset(After(run).clients) + multiset(Handed(run)) + multiset(Dropped(run));
    assert all[c] == multiset(Entered(run))[c];
  }

  lemma TwoOf<T>(q: seq<T>, i: nat, j: nat)
    requires i < j < |q|
    ensures multiset{q[i]} + multiset{q[j]} <= multiset(q)
  {
    assert q == q[..i] + ([q[i]] + (q[i + 1..j] + ([q[j]] + q[j + 1..])));
  }

  lemma NeverHandedTwice(run: seq<Section>, i: nat, j: nat)
    requires i < j < |Handed(run)|
    ensures Handed(run)[i].serial != Handed(run)[j].serial
  {
    EntriesConserved(run);
    SerialsAreOrder(run);
    var a, b := Handed(run)[i], Handed(run)[j];
    CountBySerial(Entered(run), a);
    CountBySerial(Entered(run), b);
    TwoOf(Handed(run), i, j);
    var both := multiset{a} + multiset{b};
    assert multiset(Handed(run)) <= multiset(Entered(run));
    assert both[a] <= multiset(Entered(run))[a] && both[b] <= multiset(Entered(run))[b];
  }

  // ---- order ------------------------------------------------------------------------

  predicate Sorted(clients: seq<Client>, next: nat) {
    && (forall i, j :: 0 <= i < j < |clients| ==> clients[i].serial < clients[j].serial)
    && (forall i :: 0 <= i < |clients| ==> clients[i].serial < next)
  }

  lemma SortedWithout(clients: seq<Client>, next: nat, idx: int)
    requires Sorted(clients, next)
    ensures Sorted(Without(clients, idx), next)
  {
  }

  lemma SortedStep(d: State, e: Section)
    requires Sorted(d.clients, d.next)
    ensures Sorted(Apply(d, e).clients, Apply(d, e).next)
  {
    match e
    case HandOut(_, peer) => SortedWithout(d.clients, d.next, FirstOf(d.clients, peer));
    case DropWaiting(name) => SortedWithout(d.clients, d.next, FirstOf(d.clients, name));
    case _ =>
  }

  lemma {:induction false} ArrivalOrder(run: seq<Section>)
    ensures Sorted(After(run).clients, After(run).next)
    decreases |run|
  {
    if run != [] {
      ArrivalOrder(Before(run));
      SortedStep(After(Before(run)), Last(run));
    }
  }

  lemma FirstIsOldest(clients: seq<Client>, next: nat, name: string)
    requires Sorted(clients, next) && FirstOf(clients, name) >= 0
    ensures forall i :: 0 <= i < |clients| && clients[i].name == name ==>
              clients[FirstOf(clients, name)].serial <= clients[i].serial
  {
  }

  /** CONNECT hands out the entry of that name that has waited longest, if there is one. */
  lemma OldestIsHanded(run: seq<Section>, connector: string, peer: string)
    ensures Taken(After(run), HandOut(connector, peer)) == []
            <==> forall i :: 0 <= i < |After(run).clients| ==> After(run).clients[i].name != peer
    ensures forall taken :: Taken(After(run), HandOut(connector, peer)) == [taken] ==>
              && taken in After(run).clients && taken.name == peer
              && forall i :: 0 <= i < |After(run).clients| && After(run).clients[i].name == peer ==>
                   taken.serial <= After(run).clients[i].serial
    ensures |Taken(After(run), HandOut(connector, peer))| <= 1
  {
    ArrivalOrder(run);
    var d := After(run);
    if FirstOf(d.clients, peer) >= 0 { FirstIsOldest(d.clients, d.next, peer); }
  }

  // ---- names ------------------------------------------------------------------------

  predicate Distinct(names: seq<string>) {
    forall i, j :: 0 <= i < j < |names| ==> names[i] != names[j]
  }

  /** A JOIN whose test finds the name goes no further. */
  predicate Rejects(d: State, e: Section) { e.TestName? && e.name in d.names }

  /** The sections of one command with nothing in between. */
  function ApplyAll(d: State, sections: seq<Section>): State
    decreases |sections|
  {
    if sections == [] || Rejects(d, sections[0]) then d else ApplyAll(Apply(d, sections[0]), sections[1..])
  }

  lemma RemoveDistinct(names: seq<string>, idx: nat)
    requires Distinct(names) && idx < |names|
    ensures Distinct(Without(names, idx))
    ensures forall n :: n in Without(names, idx) <==> n in names && n != names[idx]
  {
  }

  /** Removing another name keeps this one. */
  lemma OtherStays(names: seq<string>, other: string, name: string)
    requires name in names && name != other
    ensures name in Without(names, LastOf(names, other))
  {
    var i :| 0 <= i < |names| && names[i] == name;
    StaysAt(names, LastOf(names, other), i);
  }

  lemma StaysAt<T>(items: seq<T>, idx: int, i: nat)
    requires i < |items|
    ensures i != idx ==> items[i] in Without(items, idx)
  {
    if 0 <= idx < |items| && i != idx { assert Without(items, idx)[if i < idx then i else i - 1] == items[i]; }
  }

  lemma NameStep(d: State, e: Section, name: string)
    ensures name in d.names && e != DropName(name) ==> name in Apply(d, e).names
    ensures e == AddName(name) ==> name in Apply(d, e).names
  {
    if e.DropName? && name in d.names && e.name != name { OtherStays(d.names, e.name, name); }
    if e == AddName(name) { assert Apply(d, e).names[|d.names|] == name; }
  }

  /** In a list of distinct names a removal leaves no copy. */
  lemma DistinctStep(d: State, e: Section)
    requires Distinct(d.names) && (e.AddName? ==> e.name !in d.names)
    ensures Distinct(Apply(d, e).names)
    ensures forall n :: n in Apply(d, e).names ==> e != DropName(n) && (n in d.names || e == AddName(n))
  {
    if e.DropName? {
      var idx := LastOf(d.names, e.name);
      if idx >= 0 { RemoveDistinct(d.names, idx); }
    }
  }

  // ---- commands ---------------------------------------------------------------------

  /** The sections a command goes through, in order. */
  function SectionsOf(cmd: Command, ip: string): seq<Section> {
    match cmd
    case Join(name) => [TestName(name), AddName(name)]
    case Quit(name) => [DropWaiting(name), DropName(name)]
    case Connect(name, peer) => [HandOut(name, peer)]
    case Wait(name, port) => [AddWaiting(name, ip, port)]
    case List => []
    case LeaveWait(name) => [DropWaiting(name)]
    case Wrong => []
    case Incomplete => []
  }

  const CONFIRM := "a:c::"
  const REJECT := "a:r::"
  const WRONG := "Undefined command!\n"

  /** What the server writes back; None for a command without a response. */
  function ReplyTo(d: State, cmd: Command): Option<string> {
    match cmd
    case Join(name) => Some(if name in d.names then REJECT else CONFIRM)
    case Connect(name, peer) =>
      var taken := Taken(d, HandOut(name, peer));
      Some(if taken == [] then NO_SUCH_CLIENT else FormatClient(taken[0]))
    case List => Some(ListText(Names(d.clients)))
    case Wrong => Some(WRONG)
    case _ => None
  }

  lemma AnsweredConnect(d: State, connector: string, peer: string, c: Option<Client>)
    requires Taken(d, DropWaiting(peer)) == if c.None? then [] else [c.value]
    ensures Apply(d, HandOut(connector, peer)) == Apply(d, DropWaiting(peer))
    ensures ReplyTo(d, Connect(connector, peer)) == Some(if c.Some? then FormatClient(c.value) else NO_SUCH_CLIENT)
  {
  }

  /** The server ends the connection after a rejected JOIN and after QUIT. */
  predicate Closes(d: State, cmd: Command) {
    cmd.Quit? || (cmd.Join? && cmd.name in d.names)
  }

  // ---- what a command does, in terms of the lists -----------------------------------

  /** The entry of this name that has waited longest leaves and the others keep their order;
      without such an entry nothing changes. */
  ghost predicate OldestLeaves(before: seq<Client>, after: seq<Client>, name: string, entry: Option<Client>) {
    match entry
    case None => after == before && forall i :: 0 <= i < |before| ==> before[i].name != name
    case Some(c) =>
      exists i :: 0 <= i < |before| && before[i] == c && c.name == name
                  && (forall j :: 0 <= j < i ==> before[j].name != name)
                  && after == before[..i] + before[i + 1..]
  }

  /** One copy of the name leaves, the last one; without a copy nothing changes. */
  ghost predicate CopyLeaves(before: seq<string>, after: seq<string>, name: string) {
    if name !in before then after == before
    else exists i :: 0 <= i < |before| && before[i] == name
                     && (forall j :: i < j < |before| ==> before[j] != name)
                     && after == before[..i] + before[i + 1..]
  }

  function PeerText(entry: Option<Client>): string {
    if entry.None? then "c::"
    else "c:" + entry.value.name + ":" + entry.value.ip + ":" + PrintLong(entry.value.port) + ":"
  }

  /** From d a command with nothing in between leads to d', is answered with `reply`, and ends
      the connection or not. */
  ghost predicate Effect(d: State, d': State, cmd: Command, ip: string, reply: Option<string>, closed: bool) {
    match cmd
    case Join(name) =>
      if name in d.names then d' == d && reply == Some("a:r::") && closed
      else d' == d.(names := d.names + [name]) && reply == Some("a:c::") && !closed
    case Wait(name, port) =>
      d' == d.(clients := d.clients + [Client(d.next, name, ip, port)], next := d.next + 1) && reply == None && !closed
    case Connect(_, peer) =>
      && d' == d.(clients := d'.clients) && !closed
      && exists entry :: OldestLeaves(d.clients, d'.clients, peer, entry) && reply == Some(PeerText(entry))
    case LeaveWait(name) =>
      && d' == d.(clients := d'.clients) && reply == None && !closed
      && exists entry :: OldestLeaves(d.clients, d'.clients, name, entry)
    case Quit(name) =>
      && d' == d.(clients := d'.clients, names := d'.names) && reply == None && closed
      && CopyLeaves(d.names, d'.names, name)
      && exists entry :: OldestLeaves(d.clients, d'.clients, name, entry)
    case List => d' == d && reply == Some(ListText(Names(d.clients))) && !closed
    case Wrong => d' == d && reply == Some("Undefined command!\n") && !closed
    case Incomplete => true
  }

  /** Without the first entry of the name. */
  lemma FirstLeaves(clients: seq<Client>, name: string) returns (entry: Option<Client>)
    ensures OldestLeaves(clients, Without(clients, FirstOf(clients, name)), name, entry)
    ensures entry == if FirstOf(clients, name) < 0 then None else Some(clients[FirstOf(clients, name)])
  {
    var idx := FirstOf(clients, name);
    entry := if idx < 0 then None else Some(clients[idx]);
  }

  lemma LastLeaves(names: seq<string>, name: string)
    ensures CopyLeaves(names, Without(names, LastOf(names, name)), name)
  {
    var idx := LastOf(names, name);
    if idx < 0 { assert name !in names; } else { assert names[idx] in names; }
  }

  /** The sections of a command one by one. */
  function InTurn(d: State, cmd: Command, ip: string): State {
    match cmd
    case Join(name) => if name in d.names then d else Apply(d, AddName(name))
    case Quit(name) => Apply(Apply(d, DropWaiting(name)), DropName(name))
    case Connect(name, peer) => Apply(d, HandOut(name, peer))
    case Wait(name, port) => Apply(d, AddWaiting(name, ip, port))
    case LeaveWait(name) => Apply(d, DropWaiting(name))
    case _ => d
  }

  lemma AllInTurn(d: State, cmd: Command, ip: string)
    ensures ApplyAll(d, SectionsOf(cmd, ip)) == InTurn(d, cmd, ip)
  {
    var sections := SectionsOf(cmd, ip);
    match cmd
    case Join(name) =>
      assert sections[1..] == [AddName(name)] && [AddName(name)][1..] == [];
      assert ApplyAll(Apply(d, AddName(name)), []) == Apply(d, AddName(name));
    case Quit(name) =>
      var half := Apply(d, DropWaiting(name));
      assert sections[1..] == [DropName(name)] && [DropName(name)][1..] == [];
      assert ApplyAll(half, [DropName(name)]) == ApplyAll(Apply(half, DropName(name)), []);
    case Connect(name, peer) => assert [HandOut(name, peer)][1..] == [];
    case Wait(name, port) => assert [AddWaiting(name, ip, port)][1..] == [];
    case LeaveWait(name) => assert [DropWaiting(name)][1..] == [];
    case _ =>
  }

  /** What the sections, the reply and the closing of a command come to. */
  lemma CommandEffect(d: State, cmd: Command, ip: string)
    ensures Effect(d, ApplyAll(d, SectionsOf(cmd, ip)), cmd, ip, ReplyTo(d, cmd), Closes(d, cmd))
  {
    AllInTurn(d, cmd, ip);
    match cmd
    case Connect(_, peer) => var _ := FirstLeaves(d.clients, peer);
    case LeaveWait(name) => var _ := FirstLeaves(d.clients, name);
    case Quit(name) =>
      var _ := FirstLeaves(d.clients, name);
      LastLeaves(d.names, name);
    case _ =>
  }

  /** A JOIN is answered with what the client takes for success exactly when the name was not
      listed, and exactly otherwise the connection ends. */
  lemma JoinAnswer(d: State, name: string)
    ensures ReplyTo(d, Join(name)).Some?
    ensures CheckNameConflict(ReplyTo(d, Join(name)).value) == if name in d.names then 0 else 1
    ensures Closes(d, Join(name)) <==> name in d.names
  {
  }

  /** The fields of a section are what strtok and inet_ntoa can produce. */
  predicate FromText(e: Section) {
    match e
    case TestName(name) => IsField(name, ':')
    case AddName(name) => IsField(name, ':')
    case AddWaiting(name, ip, _) => IsField(name, ':') && IsField(ip, ':')
    case HandOut(connector, peer) => IsField(connector, ':') && IsField(peer, ':')
    case DropWaiting(name) => IsField(name, ':')
    case DropName(name) => IsField(name, ':')
  }

  /** The sections of any text a client sends. */
  lemma SectionsFromText(text: string, ip: string)
    requires IsField(ip, ':')
    ensures forall e :: e in SectionsOf(ParseCommand(text), ip) ==> FromText(e)
  {
    ParsedNames(text);
    SectionFields(ParseCommand(text), ip);
  }

  lemma SectionFields(cmd: Command, ip: string)
    requires NamesAreFields(cmd) && IsField(ip, ':')
    ensures forall e :: e in SectionsOf(cmd, ip) ==> FromText(e)
  {
  }

  predicate GoodEntries(clients: seq<Client>) {
    forall i :: 0 <= i < |clients| ==> IsField(clients[i].name, ':') && IsField(clients[i].ip, ':')
  }

  lemma {:induction false} EntriesAreGood(run: seq<Section>)
    requires forall i :: 0 <= i < |run| ==> FromText(run[i])
    ensures GoodEntries(After(run).clients)
    decreases |run|
  {
    if run != [] { EntriesAreGood(Before(run)); }
  }

  /** No section of the run takes out an entry of this name. */
  predicate LeavesAlone(run: seq<Section>, name: string) {
    forall i :: 0 <= i < |run| ==>
      match run[i]
      case HandOut(_, peer) => peer != name
      case DropWaiting(other) => other != name
      case _ => true
  }

  /** Taking out an entry of another name keeps the first entry of this one. */
  lemma FirstAfterRemoval(clients: seq<Client>, name: string, gone: nat)
    requires gone < |clients| && clients[gone].name != name && FirstOf(clients, name) >= 0
    ensures var idx := FirstOf(Without(clients, gone), name);
            idx >= 0 && Without(clients, gone)[idx] == clients[FirstOf(clients, name)]
  {
    var idx := FirstOf(clients, name);
    FirstIs(Without(clients, gone), name, if idx < gone then idx else idx - 1);
  }

  lemma KeepsFirst(d: State, e: Section, name: string)
    requires FirstOf(d.clients, name) >= 0 && LeavesAlone([e], name)
    ensures var idx, idx' := FirstOf(d.clients, name), FirstOf(Apply(d, e).clients, name);
            idx' >= 0 && Apply(d, e).clients[idx'] == d.clients[idx]
  {
    assert [e][0] == e;
    match e
    case HandOut(_, peer) =>
      if FirstOf(d.clients, peer) >= 0 { FirstAfterRemoval(d.clients, name, FirstOf(d.clients, peer)); }
    case DropWaiting(other) =>
      if FirstOf(d.clients, other) >= 0 { FirstAfterRemoval(d.clients, name, FirstOf(d.clients, other)); }
    case _ => FirstIs(Apply(d, e).clients, name, FirstOf(d.clients, name));
  }

  lemma FirstIs(clients: seq<Client>, name: string, idx: nat)
    requires idx < |clients| && clients[idx].name == name
    requires forall i :: 0 <= i < idx ==> clients[i].name != name
    ensures FirstOf(clients, name) == idx
  {
  }

  lemma {:induction false} StaysFirst(before: seq<Section>, between: seq<Section>, name: string)
    requires FirstOf(After(before).clients, name) >= 0 && LeavesAlone(between, name)
    ensures var d, d' := After(before), After(before + between);
            var idx, idx' := FirstOf(d.clients, name), FirstOf(d'.clients, name);
            idx' >= 0 && d'.clients[idx'] == d.clients[idx]
    decreases |between|
  {
    if between == [] {
      assert before + between == before;
    } else {
      var run := before + between;
      assert Before(run) == before + Before(between) && Last(run) == Last(between);
      StaysFirst(before, Before(between), name);
      assert LeavesAlone([Last(between)], name);
      KeepsFirst(After(Before(run)), Last(run), name);
    }
  }

  predicate WaitsAs(d: State, name: string, ip: string, port: int) {
    var idx := FirstOf(d.clients, name);
    idx >= 0 && d.clients[idx].ip == ip && d.clients[idx].port == port
  }

  lemma WaiterStays(before: seq<Section>, name: string, ip: string, port: int, between: seq<Section>)
    requires FirstOf(After(before).clients, name) < 0 && LeavesAlone(between, name)
    ensures WaitsAs(After(before + [AddWaiting(name, ip, port)] + between), name, ip, port)
  {
    var waiting := before + [AddWaiting(name, ip, port)];
    assert Before(waiting) == before;
    var clients := After(waiting).clients;
    FirstIs(clients, name, |clients| - 1);
    StaysFirst(waiting, between, name);
  }

  /** What a client makes of the reply to its CONNECT text. */
  function ReadBack(d: State, text: string): Peer {
    match ReplyTo(d, ParseCommand(text))
    case Some(reply) => ConnectAfterProcess(reply)
    case None => BadReply
  }

  lemma ReplyReads(d: State, text: string, connector: string, name: string, ip: string, port: int)
    requires WaitsAs(d, name, ip, port) && IsField(name, ':') && IsField(ip, ':')
    requires ParseCommand(text) == Connect(connector, name)
    ensures ReadBack(d, text) == PeerAt(name, ip, port)
  {
    ConnectReply(d.clients[FirstOf(d.clients, name)]);
  }

  lemma TextsReach(before: seq<Section>, wait: string, waiter: string, ip: string, port: int, between: seq<Section>,
                   connect: string, connector: string)
    requires IsField(waiter, ':') && IsField(ip, ':')
    requires ParseCommand(wait) == Wait(waiter, port) && ParseCommand(connect) == Connect(connector, waiter)
    requires FirstOf(After(before).clients, waiter) < 0 && LeavesAlone(between, waiter)
    ensures ReadBack(After(before + SectionsOf(ParseCommand(wait), ip) + between), connect) == PeerAt(waiter, ip, port)
  {
    WaiterStays(before, waiter, ip, port, between);
    ReplyReads(After(before + [AddWaiting(waiter, ip, port)] + between), connect, connector, waiter, ip, port);
  }

  /** End to end: a client's WAIT text, then any sections of other handlers that do not take
      that name out, then a CONNECT text: the connector reads the waiter's name, the address
      the server saw and the port the waiter printed. */
  lemma ConnectReachesWaiter(before: seq<Section>, waiter: string, ip: string, port: int, between: seq<Section>, connector: string)
    requires IsField(waiter, ':') && IsField(ip, ':') && IsField(connector, ':')
    requires FirstOf(After(before).clients, waiter) < 0 && LeavesAlone(between, waiter)
    ensures ReadBack(After(before + SectionsOf(ParseCommand(FormatWait(waiter, port).0), ip) + between),
                     FormatConnect(connector, waiter).0)
            == PeerAt(waiter, ip, port)
  {
    WaitRoundTrip(waiter, port);
    ConnectRoundTrip(connector, waiter);
    TextsReach(before, FormatWait(waiter, port).0, waiter, ip, port, between, FormatConnect(connector, waiter).0, connector);
  }
}
