/** Every run of the HW4 worker pool is finite, and how a run that cannot go on looks. */
module PoolTermination {
  import opened Ranges
  import opened Packets
  import opened Lists
  import opened Pool
  import opened Gathering
  import opened PoolInvariant

  /** More steps than one broadcast or one full transfer can need. */
  function Span(c: Config): nat { c.workers + |c.file| + 10 }

  /** An upper bound on what a worker can still do before it records another job. */
  function Rank(c: Config, pc: PC): nat {
    match pc
    case Start => Span(c) + 7
    case Asleep => Span(c) + 6
    case Testing(_) => Span(c) + 5
    case Popping(_) => Span(c) + 4
    case Opening(_, _) => Span(c) + 3
    case Receiving(_, _, packets, got) => 3 + if got < |packets| then |packets| - got else 0
    case PuttingBack(_, _) => 1
    case Recording(_, _) => 2
    case Releasing(_) => c.workers + 2
    case Broadcasting => c.workers + 1
    case Left => 0
    case Failed(_) => 0
  }

  /** Each job still to be recorded is worth one more pass through the loop. */
  function Undone(c: Config, s: State): nat {
    if |s.done| < c.chunks then c.chunks - |s.done| else 0
  }

  ghost function Measure(c: Config, s: State): nat {
    Undone(c, s) * (Span(c) + 4) + Total(pc => Rank(c, pc), s.pcs)
  }

  /** A broadcast raises each sleeper by one, and there are fewer sleepers than workers. */
  lemma {:induction false} WakeRank(c: Config, pcs: seq<PC>)
    ensures Total(pc => Rank(c, pc), WakeAll(pcs)) <= Total(pc => Rank(c, pc), pcs) + |pcs|
  {
    if pcs != [] {
      assert WakeAll(pcs)[1..] == WakeAll(pcs[1..]);
      WakeRank(c, pcs[1..]);
    }
  }

  lemma ReplyShort(c: Config, s: State, w: nat, job: Job)
    requires Inv(c, s) && w < |s.pcs| && JobHeld(s.pcs[w]) == multiset{job}
    ensures |Reply(c, job)| <= |c.file|
  {
    HeldJob(c, s, w, job);
    ReplyIsStream(c, job.id);
    Tiling(|c.file|, c.chunks, job.id);
    StreamShape(c.file, job.start, job.end);
  }

  lemma RecordingUndone(c: Config, s: State, w: nat)
    requires Inv(c, s) && w < |s.pcs| && s.pcs[w].Recording?
    ensures |s.done| < c.chunks
  {
    CountJobs(c, s);
    GatherUpdate(JobHeld, s.pcs, w, Start);
    assert s.pcs[w].job in Gather(JobHeld, s.pcs);
  }

  lemma FreshTransferRank(c: Config, server: Server, job: Job, packets: seq<Packet>)
    requires |packets| <= |c.file|
    ensures Rank(c, Receiving(server, job, packets, 0)) < Rank(c, Opening(server, job))
  {
  }

  lemma OpensWith(c: Config, s: State, w: nat)
    requires Enabled(s, w, false) && s.pcs[w].Opening?
    ensures StepOf(c, s, w, false).pcs[w] == Receiving(s.pcs[w].server, s.pcs[w].job, Reply(c, s.pcs[w].job), 0)
  {
  }

  lemma OpeningFalls(c: Config, s: State, w: nat)
    requires Inv(c, s) && Enabled(s, w, false) && s.pcs[w].Opening?
    ensures Rank(c, StepOf(c, s, w, false).pcs[w]) < Rank(c, s.pcs[w])
  {
    var job := s.pcs[w].job;
    ReplyShort(c, s, w, job);
    OpensWith(c, s, w);
    FreshTransferRank(c, s.pcs[w].server, job, Reply(c, job));
  }

  /** The rank of the worker that moves goes down, unless it records a job. */
  lemma RankFalls(c: Config, s: State, w: nat, t: bool)
    requires Enabled(s, w, t) && !s.pcs[w].Broadcasting? && !s.pcs[w].Recording? && !s.pcs[w].Opening?
    ensures Rank(c, StepOf(c, s, w, t).pcs[w]) < Rank(c, s.pcs[w])
  {
  }

  lemma DoneKept(c: Config, s: State, w: nat, t: bool)
    requires Enabled(s, w, t) && !s.pcs[w].Recording?
    ensures StepOf(c, s, w, t).done == s.done
  {
  }

  /** With as many jobs to record as before, a lower rank is a lower sum. */
  lemma PriceKept(c: Config, s: State, s': State, rank: nat, rank': nat)
    requires s'.done == s.done && rank' < rank
    ensures Undone(c, s') * (Span(c) + 4) + rank' < Undone(c, s) * (Span(c) + 4) + rank
  {
  }

  lemma RankStep(c: Config, s: State, w: nat, t: bool)
    requires Inv(c, s) && Enabled(s, w, t) && !s.pcs[w].Broadcasting?
    ensures Undone(c, StepOf(c, s, w, t)) * (Span(c) + 4) + Rank(c, StepOf(c, s, w, t).pcs[w])
            < Undone(c, s) * (Span(c) + 4) + Rank(c, s.pcs[w])
  {
    if s.pcs[w].Recording? {
      RecordingUndone(c, s, w);
      RecordedPays(c, s, w);
    } else {
      if s.pcs[w].Opening? { OpeningFalls(c, s, w); } else { RankFalls(c, s, w, t); }
      DoneKept(c, s, w, t);
      PriceKept(c, s, StepOf(c, s, w, t), Rank(c, s.pcs[w]), Rank(c, StepOf(c, s, w, t).pcs[w]));
    }
  }

  lemma RecordedPays(c: Config, s: State, w: nat)
    requires Enabled(s, w, false) && s.pcs[w].Recording? && |s.done| < c.chunks
    ensures Undone(c, StepOf(c, s, w, false)) * (Span(c) + 4) + Rank(c, StepOf(c, s, w, false).pcs[w])
            < Undone(c, s) * (Span(c) + 4) + Rank(c, s.pcs[w])
  {
  }

  lemma BroadcastLowers(c: Config, s: State, s': State, w: nat)
    requires w < |s.pcs| == c.workers && s.pcs[w].Broadcasting?
    requires s'.done == s.done && s'.pcs == WakeAll(s.pcs)[w := Left]
    ensures Measure(c, s') < Measure(c, s)
  {
    WakeRank(c, s.pcs);
    TotalUpdate(pc => Rank(c, pc), WakeAll(s.pcs), w, Left);
  }

  lemma MoverLowers(c: Config, s: State, s': State, w: nat)
    requires Changed(s.pcs, s'.pcs, w, false)
    requires Undone(c, s') * (Span(c) + 4) + Rank(c, s'.pcs[w]) < Undone(c, s) * (Span(c) + 4) + Rank(c, s.pcs[w])
    ensures Measure(c, s') < Measure(c, s)
  {
    TotalUpdate(pc => Rank(c, pc), s.pcs, w, s'.pcs[w]);
  }

  lemma MeasureStep(c: Config, s: State, w: nat, t: bool)
    requires Inv(c, s) && Enabled(s, w, t)
    ensures Measure(c, StepOf(c, s, w, t)) < Measure(c, s)
  {
    if s.pcs[w].Broadcasting? {
      BroadcastLowers(c, s, StepOf(c, s, w, t), w);
    } else {
      RankStep(c, s, w, t);
      MovesAlone(c, s, w, t);
      MoverLowers(c, s, StepOf(c, s, w, t), w);
    }
  }

  /** No schedule of the pool is longer than the measure of its first state. */
  lemma {:induction false} RunsAreFinite(c: Config, s: State, schedule: seq<Move>)
    requires Inv(c, s) && IsRun(c, s, schedule)
    ensures |schedule| + Measure(c, Final(c, s, schedule)) <= Measure(c, s)
    decreases |schedule|
  {
    if schedule != [] {
      var m := schedule[0];
      StepInv(c, s, m.worker, m.timeout);
      MeasureStep(c, s, m.worker, m.timeout);
      RunsAreFinite(c, StepOf(c, s, m.worker, m.timeout), schedule[1..]);
    }
  }

  lemma {:induction false} FreshMeasure(c: Config, pcs: seq<PC>)
    requires forall w :: 0 <= w < |pcs| ==> pcs[w].Start?
    ensures Total(pc => Rank(c, pc), pcs) == |pcs| * (Span(c) + 7)
  {
    if pcs != [] { FreshMeasure(c, pcs[1..]); }
  }

  /** An explicit bound on the number of steps, whatever the interleaving and the time-outs. */
  lemma RunLength(c: Config, schedule: seq<Move>)
    requires c.Valid() && IsRun(c, Init(c), schedule)
    ensures |schedule| <= c.chunks * (c.workers + |c.file| + 14) + c.workers * (c.workers + |c.file| + 17)
  {
    InitInv(c);
    RunsAreFinite(c, Init(c), schedule);
    FirstMeasure(c);
  }

  lemma FirstMeasure(c: Config)
    requires 0 < c.chunks
    ensures Measure(c, Init(c)) == c.chunks * (c.workers + |c.file| + 14) + c.workers * (c.workers + |c.file| + 17)
  {
    FreshMeasure(c, Init(c).pcs);
  }

  // ---- runs that can go no further --------------------------------------------------

  predicate Exited(pc: PC) { pc.Left? || pc.Failed? }

  lemma StuckWorkers(s: State)
    requires Stuck(s)
    ensures forall w :: 0 <= w < |s.pcs| ==> s.pcs[w].Asleep? || Exited(s.pcs[w])
  {
    forall w | 0 <= w < |s.pcs|
      ensures s.pcs[w].Asleep? || Exited(s.pcs[w])
    {
      assert !Enabled(s, w, false) && !Enabled(s, w, true);
    }
  }

  lemma {:induction false} OwnersFailed(pcs: seq<PC>)
    requires forall w :: 0 <= w < |pcs| ==> pcs[w].Asleep? || Exited(pcs[w])
    ensures |Gather(ServerOwned, pcs)| == Total(HasFailed, pcs) == Total(HasTimedOut, pcs)
    ensures Gather(JobHeld, pcs) == multiset{}
  {
    if pcs != [] {
      OwnersFailed(pcs[1..]);
      assert |ServerOwned(pcs[0]) + Gather(ServerOwned, pcs[1..])| == HasFailed(pcs[0]) + Total(HasFailed, pcs[1..]);
    }
  }

  predicate AllExited(s: State) {
    forall w :: 0 <= w < |s.pcs| ==> Exited(s.pcs[w])
  }

  /** The remaining workers sleep for ever: no server is left to wake them for. */
  predicate Starved(c: Config, s: State) {
    && (forall w :: 0 <= w < |s.pcs| ==> s.pcs[w].Asleep? || Exited(s.pcs[w]))
    && s.free == []
    && (forall server :: server in c.servers ==> Failed(server) in s.pcs)
  }

  /** The only states without a next step. */
  lemma StuckExactly(c: Config, s: State)
    requires Inv(c, s)
    ensures Stuck(s) <==> AllExited(s) || Starved(c, s)
  {
    if Stuck(s) { StuckState(c, s); }
  }

  lemma StuckState(c: Config, s: State)
    requires NoLostWakeUp(s) && ServersConserved(c, s) && Stuck(s)
    ensures AllExited(s) || (Starved(c, s) && Total(HasTimedOut, s.pcs) == |c.servers|)
  {
    StuckWorkers(s);
    if w :| 0 <= w < |s.pcs| && s.pcs[w].Asleep? {
      assert s.free == [];
      StarvedState(c, s);
    }
  }

  lemma StarvedState(c: Config, s: State)
    requires ServersConserved(c, s) && s.free == []
    requires forall w :: 0 <= w < |s.pcs| ==> s.pcs[w].Asleep? || Exited(s.pcs[w])
    ensures Starved(c, s) && Total(HasTimedOut, s.pcs) == |c.servers|
  {
    OwnersFailed(s.pcs);
    assert Gather(ServerOwned, s.pcs) == multiset(c.servers);
    assert |multiset(c.servers)| == |c.servers|;
    forall server | server in c.servers
      ensures Failed(server) in s.pcs
    {
      assert server in multiset(c.servers);
      FailedOwner(s, server);
    }
  }

  lemma FailedOwner(s: State, server: Server)
    requires forall w :: 0 <= w < |s.pcs| ==> s.pcs[w].Asleep? || Exited(s.pcs[w])
    requires server in Gather(ServerOwned, s.pcs)
    ensures Failed(server) in s.pcs
  {
    var v := OwnerOf(s.pcs, server);
    assert server in multiset{server};
    assert s.pcs[v] == Failed(server);
  }

  /** A run that can go no further: either every worker has exited, or the others sleep for
      ever, the free list is empty, and every server was dropped after a time-out. */
  lemma StuckRun(c: Config, schedule: seq<Move>)
    requires c.Valid() && IsRun(c, Init(c), schedule) && Stuck(Final(c, Init(c), schedule))
    ensures var s := Final(c, Init(c), schedule);
            AllExited(s) || (Starved(c, s) && TimeOuts(schedule) == |c.servers|)
  {
    InitInv(c);
    RunInv(c, Init(c), schedule);
    FreshPool(c);
    StuckState(c, Final(c, Init(c), schedule));
  }

  lemma {:induction false} FreshPool(c: Config)
    requires 0 < c.chunks
    ensures Total(HasTimedOut, Init(c).pcs) == 0
  {
    NobodyTimedOut(Init(c).pcs);
  }

  lemma {:induction false} NobodyTimedOut(pcs: seq<PC>)
    requires forall w :: 0 <= w < |pcs| ==> pcs[w].Start?
    ensures Total(HasTimedOut, pcs) == 0
  {
    if pcs != [] { NobodyTimedOut(pcs[1..]); }
  }

  lemma {:induction false} OwnerOf(pcs: seq<PC>, server: Server) returns (w: nat)
    requires server in Gather(ServerOwned, pcs)
    ensures w < |pcs| && ServerOwned(pcs[w]) == multiset{server}
  {
    if server in ServerOwned(pcs[0]) {
      w := 0;
    } else {
      var v := OwnerOf(pcs[1..], server);
      w := v + 1;
    }
  }
}
