/** What every step of the HW4 worker pool keeps. */
module PoolInvariant {
  import opened Bytes
  import opened Ranges
  import opened Packets
  import opened Receiving
  import opened Lists
  import opened Pool
  import opened Gathering

  function JobHeld(pc: PC): multiset<Job> {
    match pc
    case Opening(_, job) => multiset{job}
    case Receiving(_, job, _, _) => multiset{job}
    case Recording(_, job) => multiset{job}
    case PuttingBack(_, job) => multiset{job}
    case _ => multiset{}
  }

  /** The server a worker holds, or the one it dropped after a time-out. */
  function ServerOwned(pc: PC): multiset<Server> {
    match pc
    case Testing(server) => multiset{server}
    case Popping(server) => multiset{server}
    case Opening(server, _) => multiset{server}
    case Receiving(server, _, _, _) => multiset{server}
    case Recording(server, _) => multiset{server}
    case PuttingBack(server, _) => multiset{server}
    case Releasing(server) => multiset{server}
    case Failed(lost) => multiset{lost}
    case _ => multiset{}
  }

  function HasFailed(pc: PC): nat { if pc.Failed? then 1 else 0 }

  /** A worker that timed out never leaves that path, so this counts the time-outs so far. */
  function HasTimedOut(pc: PC): nat { if pc.PuttingBack? || pc.Failed? then 1 else 0 }

  predicate LeftLoop(pc: PC) { pc.Releasing? || pc.Broadcasting? || pc.Left? }

  // ---- the invariant ----------------------------------------------------------------

  /** Each job is in exactly one of the chunk list, one worker's hands, the done list. */
  ghost predicate JobsConserved(c: Config, s: State)
    requires c.Valid()
  {
    multiset(s.chunk) + multiset(s.done) + Gather(JobHeld, s.pcs) == multiset(AllJobs(c))
  }

  /** Each server is in the free list, or held or dropped by exactly one worker. */
  ghost predicate ServersConserved(c: Config, s: State) {
    multiset(s.free) + Gather(ServerOwned, s.pcs) == multiset(c.servers)
  }

  ghost predicate NoLostWakeUp(s: State) {
    (exists w :: 0 <= w < |s.pcs| && s.pcs[w].Asleep?) && s.free != []
    ==> exists v :: 0 <= v < |s.pcs| && s.pcs[v].Broadcasting?
  }

  ghost predicate LeaversBound(s: State) {
    (exists w :: 0 <= w < |s.pcs| && LeftLoop(s.pcs[w])) ==> |s.chunk| <= Total(HasFailed, s.pcs)
  }

  function JobStream(c: Config, job: Job): seq<Packet> {
    Stream(c.file, Seek(job.start), job.start, job.end)
  }

  /** `text` is what the first `got` packets carry, and none of them was the flagged one. */
  predicate Partial(packets: seq<Packet>, got: nat, text: seq<byte>) {
    && got <= |packets|
    && (got < |packets| || !Flagged(packets))
    && text == Payload(packets[..got])
  }

  ghost predicate Attempted(c: Config, temp: map<nat, seq<byte>>, job: Job) {
    job.id in temp && exists got :: Partial(JobStream(c, job), got, temp[job.id])
  }

  predicate Untouched(c: Config, temp: map<nat, seq<byte>>, job: Job) {
    && (job.id in temp <==> job.id in c.leftover)
    && (job.id in temp ==> temp[job.id] == c.leftover[job.id])
  }

  ghost predicate Unfinished(c: Config, temp: map<nat, seq<byte>>, job: Job) {
    Untouched(c, temp, job) || Attempted(c, temp, job)
  }

  predicate Finished(c: Config, temp: map<nat, seq<byte>>, job: Job) {
    && job.id in temp
    && temp[job.id] == Payload(JobStream(c, job))
    && Flagged(JobStream(c, job))
  }

  ghost predicate FileFits(c: Config, temp: map<nat, seq<byte>>, pc: PC) {
    match pc
    case Opening(_, job) => Unfinished(c, temp, job)
    case Receiving(_, job, packets, got) =>
      packets == JobStream(c, job) && job.id in temp && Partial(packets, got, temp[job.id])
    case Recording(_, job) => Finished(c, temp, job)
    case PuttingBack(_, job) => Attempted(c, temp, job)
    case _ => true
  }

  ghost predicate FilesFit(c: Config, s: State) {
    && (forall w :: 0 <= w < |s.pcs| ==> FileFits(c, s.temp, s.pcs[w]))
    && (forall job :: job in s.chunk ==> Unfinished(c, s.temp, job))
    && (forall job :: job in s.done ==> Finished(c, s.temp, job))
  }

  ghost predicate Inv(c: Config, s: State) {
    && c.Valid()
    && |s.pcs| == c.workers
    && JobsConserved(c, s)
    && ServersConserved(c, s)
    && NoLostWakeUp(s)
    && LeaversBound(s)
    && FilesFit(c, s)
  }

  // ---- the jobs are distinct --------------------------------------------------------

  lemma {:induction false} CountById(jobs: seq<Job>, job: Job)
    requires forall i :: 0 <= i < |jobs| ==> jobs[i].id == i
    ensures multiset(jobs)[job] == if job.id < |jobs| && jobs[job.id] == job then 1 else 0
  {
    if jobs != [] {
      var last := |jobs| - 1;
      DropLast(jobs);
      CountById(jobs[..last], job);
    }
  }

  /** Two places of the job conservation law never hold the same id. */
  lemma SameIdSameJob(c: Config, s: State, a: Job, b: Job)
    requires c.Valid() && JobsConserved(c, s)
    requires multiset{a} + multiset{b} <= multiset(s.chunk) + multiset(s.done) + Gather(JobHeld, s.pcs)
    ensures a.id != b.id
  {
    var all := AllJobs(c);
    CountById(all, a);
    CountById(all, b);
    var both := multiset{a} + multiset{b};
    assert both <= multiset(all);
    assert both[a] <= multiset(all)[a] && both[b] <= multiset(all)[b];
  }

  lemma HeldIsKnown(c: Config, s: State, job: Job)
    requires c.Valid() && JobsConserved(c, s)
    requires job in multiset(s.chunk) + multiset(s.done) + Gather(JobHeld, s.pcs)
    ensures job.id < c.chunks && job == JobFor(c, job.id)
  {
  }

  /** The worker that holds a job is the only one that can write its temp file, and the job
      is not in a list. */
  lemma SoleHolder(c: Config, s: State, w: nat, job: Job)
    requires c.Valid() && JobsConserved(c, s) && w < |s.pcs| && JobHeld(s.pcs[w]) == multiset{job}
    ensures forall v, other :: 0 <= v < |s.pcs| && v != w && JobHeld(s.pcs[v]) == multiset{other} ==> other.id != job.id
    ensures forall other :: other in s.chunk || other in s.done ==> other.id != job.id
  {
    forall v, other | 0 <= v < |s.pcs| && v != w && JobHeld(s.pcs[v]) == multiset{other}
      ensures other.id != job.id
    {
      if v < w { GatherTwo(JobHeld, s.pcs, v, w); } else { GatherTwo(JobHeld, s.pcs, w, v); }
      SameIdSameJob(c, s, other, job);
    }
    GatherUpdate(JobHeld, s.pcs, w, Start);
    forall other | other in s.chunk || other in s.done
      ensures other.id != job.id
    {
      assert multiset{other} <= multiset(s.chunk) + multiset(s.done);
      SameIdSameJob(c, s, other, job);
    }
  }

  // ---- conservation and wake-ups, step by step --------------------------------------

  /** The workers after one of them changed, with the sleepers woken or not. */
  predicate Changed(pcs: seq<PC>, pcs': seq<PC>, w: nat, woken: bool) {
    w < |pcs| == |pcs'| && pcs' == (if woken then WakeAll(pcs) else pcs)[w := pcs'[w]] && (woken ==> !pcs[w].Asleep?)
  }

  lemma MovesAlone(c: Config, s: State, w: nat, t: bool)
    requires Enabled(s, w, t)
    ensures Changed(s.pcs, StepOf(c, s, w, t).pcs, w, s.pcs[w].Broadcasting?)
  {
  }

  lemma GatherChange<T>(f: PC -> multiset<T>, pcs: seq<PC>, pcs': seq<PC>, w: nat, woken: bool)
    requires Changed(pcs, pcs', w, woken) && f(Asleep) == f(Start)
    ensures Gather(f, pcs') + f(pcs[w]) == Gather(f, pcs) + f(pcs'[w])
    ensures f(pcs[w]) <= Gather(f, pcs)
  {
    GatherUpdate(f, pcs, w, pcs'[w]);
    if woken {
      GatherSame(f, WakeAll(pcs), pcs);
      GatherUpdate(f, WakeAll(pcs), w, pcs'[w]);
    }
  }

  lemma TotalChange(f: PC -> nat, pcs: seq<PC>, pcs': seq<PC>, w: nat, woken: bool)
    requires Changed(pcs, pcs', w, woken) && f(Asleep) == f(Start)
    ensures Total(f, pcs') + f(pcs[w]) == Total(f, pcs) + f(pcs'[w])
  {
    TotalUpdate(f, pcs, w, pcs'[w]);
    if woken {
      TotalSame(f, WakeAll(pcs), pcs);
      TotalUpdate(f, WakeAll(pcs), w, pcs'[w]);
    }
  }

  /** How one step changes what the workers hold. */
  lemma GatherStep<T>(f: PC -> multiset<T>, c: Config, s: State, w: nat, t: bool)
    requires Enabled(s, w, t) && f(Asleep) == f(Start)
    ensures |StepOf(c, s, w, t).pcs| == |s.pcs|
    ensures Gather(f, StepOf(c, s, w, t).pcs) + f(s.pcs[w]) == Gather(f, s.pcs) + f(StepOf(c, s, w, t).pcs[w])
    ensures f(s.pcs[w]) <= Gather(f, s.pcs)
  {
    MovesAlone(c, s, w, t);
    GatherChange(f, s.pcs, StepOf(c, s, w, t).pcs, w, s.pcs[w].Broadcasting?);
  }

  lemma TotalStep(f: PC -> nat, c: Config, s: State, w: nat, t: bool)
    requires Enabled(s, w, t) && f(Asleep) == f(Start)
    ensures |StepOf(c, s, w, t).pcs| == |s.pcs|
    ensures Total(f, StepOf(c, s, w, t).pcs) + f(s.pcs[w]) == Total(f, s.pcs) + f(StepOf(c, s, w, t).pcs[w])
  {
    MovesAlone(c, s, w, t);
    TotalChange(f, s.pcs, StepOf(c, s, w, t).pcs, w, s.pcs[w].Broadcasting?);
  }

  lemma DropLast<T>(q: seq<T>)
    requires q != []
    ensures multiset(q) == multiset(q[..|q| - 1]) + multiset{q[|q| - 1]}
  {
    assert q == q[..|q| - 1] + [q[|q| - 1]];
  }

  /** What the lists gain is what the workers lose. */
  lemma Balance<T>(lists: multiset<T>, held: multiset<T>, lists': multiset<T>, held': multiset<T>,
                   before: multiset<T>, after: multiset<T>)
    requires held' + before == held + after && lists' + after == lists + before
    ensures lists' + held' == lists + held
  {
    assert lists' + held' + (before + after) == (lists' + after) + (held' + before);
    assert lists + held + (before + after) == (lists + before) + (held + after);
    assert forall x :: (lists' + held' + (before + after))[x] == (lists' + held')[x] + (before + after)[x];
    assert forall x :: (lists + held + (before + after))[x] == (lists + held)[x] + (before + after)[x];
  }

  /** The steps that leave both job lists alone. */
  lemma QuietJobLists(c: Config, s: State, w: nat, t: bool)
    requires Enabled(s, w, t) && !s.pcs[w].Popping? && !s.pcs[w].Recording? && !s.pcs[w].PuttingBack?
    ensures StepOf(c, s, w, t).chunk == s.chunk && StepOf(c, s, w, t).done == s.done
  {
  }

  lemma QuietHolders(c: Config, s: State, w: nat, t: bool)
    requires Enabled(s, w, t) && !s.pcs[w].Popping? && !s.pcs[w].Recording? && !s.pcs[w].PuttingBack?
    ensures JobHeld(StepOf(c, s, w, t).pcs[w]) == JobHeld(s.pcs[w])
  {
  }

  lemma PopJobLists(c: Config, s: State, w: nat)
    requires Enabled(s, w, false) && s.pcs[w].Popping?
    ensures var s' := StepOf(c, s, w, false);
            s'.done == s.done && multiset(s'.chunk) + JobHeld(s'.pcs[w]) == multiset(s.chunk) + JobHeld(s.pcs[w])
  {
    if s.chunk != [] { DropLast(s.chunk); }
  }

  lemma JobLists(c: Config, s: State, w: nat, t: bool)
    requires Enabled(s, w, t)
    ensures multiset(StepOf(c, s, w, t).chunk) + multiset(StepOf(c, s, w, t).done) + JobHeld(StepOf(c, s, w, t).pcs[w])
            == multiset(s.chunk) + multiset(s.done) + JobHeld(s.pcs[w])
  {
    if s.pcs[w].Popping? {
      PopJobLists(c, s, w);
      var s' := StepOf(c, s, w, false);
      Swap(multiset(s'.chunk), multiset(s.done), JobHeld(s'.pcs[w]));
      Swap(multiset(s.chunk), multiset(s.done), JobHeld(s.pcs[w]));
    } else if !s.pcs[w].Recording? && !s.pcs[w].PuttingBack? {
      QuietJobLists(c, s, w, t);
      QuietHolders(c, s, w, t);
    }
  }

  lemma Swap<T>(a: multiset<T>, b: multiset<T>, c: multiset<T>)
    ensures a + b + c == (a + c) + b
  {
  }

  lemma JobsStep(c: Config, s: State, w: nat, t: bool)
    requires c.Valid() && JobsConserved(c, s) && Enabled(s, w, t)
    ensures JobsConserved(c, StepOf(c, s, w, t))
  {
    var s' := StepOf(c, s, w, t);
    GatherStep(JobHeld, c, s, w, t);
    JobLists(c, s, w, t);
    Balance(multiset(s.chunk) + multiset(s.done), Gather(JobHeld, s.pcs),
            multiset(s'.chunk) + multiset(s'.done), Gather(JobHeld, s'.pcs),
            JobHeld(s.pcs[w]), JobHeld(s'.pcs[w]));
  }

  lemma QuietServerLists(c: Config, s: State, w: nat, t: bool)
    requires Enabled(s, w, t) && !s.pcs[w].Start? && !s.pcs[w].Releasing?
    ensures StepOf(c, s, w, t).free == s.free
  {
  }

  lemma HolderKeepsServer(c: Config, s: State, w: nat, t: bool)
    requires Enabled(s, w, t) && JobHeld(s.pcs[w]) != multiset{}
    ensures ServerOwned(StepOf(c, s, w, t).pcs[w]) == multiset{s.pcs[w].server}
  {
  }

  lemma QuietOwners(c: Config, s: State, w: nat, t: bool)
    requires Enabled(s, w, t) && !s.pcs[w].Start? && !s.pcs[w].Releasing?
    ensures ServerOwned(StepOf(c, s, w, t).pcs[w]) == ServerOwned(s.pcs[w])
  {
    if JobHeld(s.pcs[w]) != multiset{} { HolderKeepsServer(c, s, w, t); }
  }

  lemma ServerLists(c: Config, s: State, w: nat, t: bool)
    requires Enabled(s, w, t)
    ensures multiset(StepOf(c, s, w, t).free) + ServerOwned(StepOf(c, s, w, t).pcs[w])
            == multiset(s.free) + ServerOwned(s.pcs[w])
  {
    if s.pcs[w].Start? {
      if s.free != [] { DropLast(s.free); }
    } else if !s.pcs[w].Releasing? {
      QuietServerLists(c, s, w, t);
      QuietOwners(c, s, w, t);
    }
  }

  lemma ServersStep(c: Config, s: State, w: nat, t: bool)
    requires ServersConserved(c, s) && Enabled(s, w, t)
    ensures ServersConserved(c, StepOf(c, s, w, t))
  {
    var s' := StepOf(c, s, w, t);
    GatherStep(ServerOwned, c, s, w, t);
    ServerLists(c, s, w, t);
    Balance(multiset(s.free), Gather(ServerOwned, s.pcs), multiset(s'.free), Gather(ServerOwned, s'.pcs),
            ServerOwned(s.pcs[w]), ServerOwned(s'.pcs[w]));
  }

  lemma WakeUpStep(c: Config, s: State, w: nat, t: bool)
    requires NoLostWakeUp(s) && Enabled(s, w, t)
    ensures NoLostWakeUp(StepOf(c, s, w, t))
  {
    var s' := StepOf(c, s, w, t);
    if s.pcs[w].Broadcasting? {
      assert forall v :: 0 <= v < |s'.pcs| ==> !s'.pcs[v].Asleep?;
    } else if s.pcs[w].Releasing? {
      assert s'.pcs[w].Broadcasting?;
    } else if s'.free != [] && exists v :: 0 <= v < |s'.pcs| && s'.pcs[v].Asleep? {
      var v :| 0 <= v < |s'.pcs| && s'.pcs[v].Asleep?;
      assert s.pcs[v].Asleep?;
      var u :| 0 <= u < |s.pcs| && s.pcs[u].Broadcasting?;
      assert s'.pcs[u].Broadcasting?;
    }
  }

  /** How the chunk list grows: by a put-back only; and when a worker leaves it is empty. */
  lemma ChunkStep(c: Config, s: State, w: nat, t: bool)
    requires c.Valid() && JobsConserved(c, s) && Enabled(s, w, t)
    ensures |StepOf(c, s, w, t).chunk| <= |s.chunk| + HasFailed(StepOf(c, s, w, t).pcs[w])
    ensures LeftLoop(StepOf(c, s, w, t).pcs[w]) && !LeftLoop(s.pcs[w]) ==> StepOf(c, s, w, t).chunk == []
  {
    if s.pcs[w].Testing? && |s.done| == c.chunks { AllDoneMeansNoneLeft(c, s); }
  }

  lemma LeaversStep(c: Config, s: State, w: nat, t: bool)
    requires c.Valid() && JobsConserved(c, s) && LeaversBound(s) && Enabled(s, w, t)
    ensures LeaversBound(StepOf(c, s, w, t))
  {
    var s' := StepOf(c, s, w, t);
    TotalStep(HasFailed, c, s, w, t);
    ChunkStep(c, s, w, t);
    if exists v :: 0 <= v < |s'.pcs| && LeftLoop(s'.pcs[v]) {
      var v :| 0 <= v < |s'.pcs| && LeftLoop(s'.pcs[v]);
      if v != w || LeftLoop(s.pcs[w]) {
        LeaverWas(c, s, w, t, v);
      }
    }
  }

  lemma LeaverWas(c: Config, s: State, w: nat, t: bool, v: nat)
    requires Enabled(s, w, t) && v < |StepOf(c, s, w, t).pcs| && LeftLoop(StepOf(c, s, w, t).pcs[v])
    requires v != w || LeftLoop(s.pcs[w])
    ensures v < |s.pcs| && LeftLoop(s.pcs[v])
  {
  }

  lemma CountJobs(c: Config, s: State)
    requires c.Valid() && JobsConserved(c, s)
    ensures |s.chunk| + |s.done| + |Gather(JobHeld, s.pcs)| == c.chunks
  {
    assert |multiset(s.chunk) + multiset(s.done) + Gather(JobHeld, s.pcs)| == |multiset(AllJobs(c))|;
  }

  lemma AllDoneMeansNoneLeft(c: Config, s: State)
    requires c.Valid() && JobsConserved(c, s) && |s.done| == c.chunks
    ensures s.chunk == [] && Gather(JobHeld, s.pcs) == multiset{}
  {
    CountJobs(c, s);
  }

  // ---- temp files -------------------------------------------------------------------

  /** Writing temp.<id> matters only to the holder of job id. */
  lemma OtherFileFits(c: Config, temp: map<nat, seq<byte>>, id: nat, text: seq<byte>, pc: PC)
    requires FileFits(c, temp, pc)
    requires forall job :: JobHeld(pc) == multiset{job} ==> job.id != id
    ensures FileFits(c, temp[id := text], pc)
  {
    if JobHeld(pc) != multiset{} {
      var job :| JobHeld(pc) == multiset{job} && (pc.Opening? || pc.Receiving? || pc.Recording? || pc.PuttingBack?) && job == pc.job;
      SameFile(c, temp, temp[id := text], job);
    }
  }

  lemma OtherFilesFit(c: Config, s: State, w: nat, job: Job, text: seq<byte>)
    requires c.Valid() && JobsConserved(c, s) && FilesFit(c, s)
    requires w < |s.pcs| && JobHeld(s.pcs[w]) == multiset{job}
    ensures forall v :: 0 <= v < |s.pcs| && v != w ==> FileFits(c, s.temp[job.id := text], s.pcs[v])
    ensures forall other :: other in s.chunk ==> Unfinished(c, s.temp[job.id := text], other)
    ensures forall other :: other in s.done ==> Finished(c, s.temp[job.id := text], other)
  {
    SoleHolder(c, s, w, job);
    forall v | 0 <= v < |s.pcs| && v != w
      ensures FileFits(c, s.temp[job.id := text], s.pcs[v])
    {
      OtherFileFits(c, s.temp, job.id, text, s.pcs[v]);
    }
    forall other | other in s.chunk
      ensures Unfinished(c, s.temp[job.id := text], other)
    {
      SameFile(c, s.temp, s.temp[job.id := text], other);
    }
  }

  lemma SameFile(c: Config, temp: map<nat, seq<byte>>, temp': map<nat, seq<byte>>, job: Job)
    requires job.id in temp <==> job.id in temp'
    requires job.id in temp ==> temp[job.id] == temp'[job.id]
    ensures Unfinished(c, temp, job) ==> Unfinished(c, temp', job)
    ensures Attempted(c, temp, job) ==> Attempted(c, temp', job)
  {
  }

  /** The command text of a job leads the server to that job's stream. */
  lemma ReplyIsStream(c: Config, i: nat)
    requires c.Valid() && i < c.chunks
    ensures Reply(c, JobFor(c, i)) == JobStream(c, JobFor(c, i))
    ensures AllDownload(JobStream(c, JobFor(c, i))) && UnflaggedBeforeLast(JobStream(c, JobFor(c, i)))
  {
    var job := JobFor(c, i);
    DownloadRoundTrip(c.fileName, job.start, job.end);
    Tiling(|c.file|, c.chunks, i);
    StreamShape(c.file, job.start, job.end);
  }

  lemma HeldJob(c: Config, s: State, w: nat, job: Job)
    requires c.Valid() && JobsConserved(c, s) && w < |s.pcs| && JobHeld(s.pcs[w]) == multiset{job}
    ensures job.id < c.chunks && job == JobFor(c, job.id)
  {
    GatherUpdate(JobHeld, s.pcs, w, Start);
    assert Gather(JobHeld, s.pcs)[job] > 0;
    HeldIsKnown(c, s, job);
  }

  lemma OpenStep(c: Config, s: State, w: nat)
    requires c.Valid() && JobsConserved(c, s) && FilesFit(c, s)
    requires Enabled(s, w, false) && s.pcs[w].Opening?
    ensures FilesFit(c, StepOf(c, s, w, false))
  {
    var job := s.pcs[w].job;
    HeldJob(c, s, w, job);
    ReplyIsStream(c, job.id);
    OtherFilesFit(c, s, w, job, []);
    PayloadEmpty();
    var packets := JobStream(c, job);
    assert packets[..0] == [];
    assert Partial(packets, 0, []);
  }

  lemma NextPacket(packets: seq<Packet>, got: nat, text: seq<byte>)
    requires AllDownload(packets) && UnflaggedBeforeLast(packets)
    requires Partial(packets, got, text) && got < |packets|
    ensures Accept(text, packets[got]) == (Payload(packets[..got + 1]), packets[got].contentIsEnd == 1)
    ensures packets[got].contentIsEnd == 1 ==> Flagged(packets) && Payload(packets[..got + 1]) == Payload(packets)
    ensures packets[got].contentIsEnd != 1 ==> Partial(packets, got + 1, Payload(packets[..got + 1]))
  {
    PayloadPrefix(packets, got);
    assert packets[..|packets|] == packets;
  }

  lemma PacketFits(c: Config, temp: map<nat, seq<byte>>, pc: PC)
    requires pc.Receiving? && AllDownload(pc.packets) && UnflaggedBeforeLast(pc.packets)
    requires FileFits(c, temp, pc) && pc.got < |pc.packets|
    ensures Accept(temp[pc.job.id], pc.packets[pc.got])
            == (Payload(pc.packets[..pc.got + 1]), pc.packets[pc.got].contentIsEnd == 1)
    ensures FileFits(c, temp[pc.job.id := Payload(pc.packets[..pc.got + 1])],
                     if pc.packets[pc.got].contentIsEnd == 1 then Recording(pc.server, pc.job)
                     else Receiving(pc.server, pc.job, pc.packets, pc.got + 1))
  {
    NextPacket(pc.packets, pc.got, temp[pc.job.id]);
  }

  lemma PacketStep(c: Config, s: State, w: nat)
    requires c.Valid() && JobsConserved(c, s) && FilesFit(c, s)
    requires Enabled(s, w, false) && s.pcs[w].Receiving?
    ensures FilesFit(c, StepOf(c, s, w, false))
  {
    var pc := s.pcs[w];
    var text := Payload(pc.packets[..pc.got + 1]);
    HeldJob(c, s, w, pc.job);
    ReplyIsStream(c, pc.job.id);
    assert FileFits(c, s.temp, pc);
    PacketFits(c, s.temp, pc);
    OtherFilesFit(c, s, w, pc.job, text);
  }

  lemma ListStepFits(c: Config, s: State, w: nat)
    requires FilesFit(c, s) && Enabled(s, w, false)
    requires s.pcs[w].Popping? || s.pcs[w].Recording? || s.pcs[w].PuttingBack?
    ensures FilesFit(c, StepOf(c, s, w, false))
  {
    assert FileFits(c, s.temp, s.pcs[w]);
    if s.pcs[w].Popping? && s.chunk != [] { assert s.chunk[|s.chunk| - 1] in s.chunk; }
  }

  lemma ServerStepFits(c: Config, s: State, w: nat, t: bool)
    requires FilesFit(c, s) && Enabled(s, w, t)
    requires JobHeld(s.pcs[w]) == multiset{} && !s.pcs[w].Popping?
    ensures FilesFit(c, StepOf(c, s, w, t))
  {
  }

  lemma FilesStep(c: Config, s: State, w: nat, t: bool)
    requires c.Valid() && JobsConserved(c, s) && FilesFit(c, s) && Enabled(s, w, t)
    ensures FilesFit(c, StepOf(c, s, w, t))
  {
    if s.pcs[w].Opening? {
      OpenStep(c, s, w);
    } else if s.pcs[w].Receiving? {
      if t {
        assert FileFits(c, s.temp, s.pcs[w]);
      } else {
        PacketStep(c, s, w);
      }
    } else if s.pcs[w].Popping? || s.pcs[w].Recording? || s.pcs[w].PuttingBack? {
      ListStepFits(c, s, w);
    } else {
      ServerStepFits(c, s, w, t);
    }
  }

  // ---- whole runs -------------------------------------------------------------------

  lemma InitInv(c: Config)
    requires c.Valid()
    ensures Inv(c, Init(c))
  {
    var s := Init(c);
    GatherNone(JobHeld, s.pcs);
    GatherNone(ServerOwned, s.pcs);
  }

  lemma StepInv(c: Config, s: State, w: nat, t: bool)
    requires Inv(c, s) && Enabled(s, w, t)
    ensures Inv(c, StepOf(c, s, w, t))
  {
    GatherStep(JobHeld, c, s, w, t);
    JobsStep(c, s, w, t);
    ServersStep(c, s, w, t);
    WakeUpStep(c, s, w, t);
    LeaversStep(c, s, w, t);
    FilesStep(c, s, w, t);
  }

  /** Every state of every run satisfies the invariant, and the workers that timed out are
      as many as the time-outs of the run. */
  lemma {:induction false} RunInv(c: Config, s: State, schedule: seq<Move>)
    requires Inv(c, s) && IsRun(c, s, schedule)
    ensures Inv(c, Final(c, s, schedule))
    ensures Total(HasTimedOut, Final(c, s, schedule).pcs) == Total(HasTimedOut, s.pcs) + TimeOuts(schedule)
    decreases |schedule|
  {
    if schedule != [] {
      var m := schedule[0];
      StepInv(c, s, m.worker, m.timeout);
      TimeOutStep(c, s, m.worker, m.timeout);
      RunInv(c, StepOf(c, s, m.worker, m.timeout), schedule[1..]);
    }
  }

  lemma TimeOutStep(c: Config, s: State, w: nat, t: bool)
    requires Enabled(s, w, t)
    ensures Total(HasTimedOut, StepOf(c, s, w, t).pcs) == Total(HasTimedOut, s.pcs) + if t then 1 else 0
  {
    TotalStep(HasTimedOut, c, s, w, t);
  }
}
