/** What a whole download of the HW4 client delivers. */
module PoolResults {
  import opened Bytes
  import opened Text
  import opened Ranges
  import opened Combining
  import opened Packets
  import opened Receiving
  import opened Lists
  import opened Pool
  import opened Gathering
  import opened PoolInvariant
  import opened PoolTermination

  ghost predicate Reachable(c: Config, s: State) {
    c.Valid() && exists schedule :: IsRun(c, Init(c), schedule) && s == Final(c, Init(c), schedule)
  }

  lemma ReachableInv(c: Config, s: State)
    requires Reachable(c, s)
    ensures Inv(c, s)
  {
    var schedule :| IsRun(c, Init(c), schedule) && s == Final(c, Init(c), schedule);
    InitInv(c);
    RunInv(c, Init(c), schedule);
  }

  // ---- lists and writers ------------------------------------------------------------

  /** A worker about to add a job always finds room, though AddJobItem does not look. */
  lemma RoomInLists(c: Config, s: State, w: nat)
    requires Reachable(c, s) && w < |s.pcs|
    ensures s.pcs[w].Recording? ==> |s.done| < c.chunks
    ensures s.pcs[w].PuttingBack? ==> |s.chunk| < c.chunks
  {
    ReachableInv(c, s);
    CountJobs(c, s);
    GatherUpdate(JobHeld, s.pcs, w, Start);
    if s.pcs[w].Recording? || s.pcs[w].PuttingBack? {
      assert s.pcs[w].job in Gather(JobHeld, s.pcs);
    }
  }

  /** Each of the jobs is in exactly one place, and the three kinds of place hold no other. */
  lemma OnePlacePerJob(c: Config, s: State, i: nat)
    requires Reachable(c, s) && i < c.chunks
    ensures var job := JobFor(c, i);
            multiset(s.chunk)[job] + multiset(s.done)[job] + Gather(JobHeld, s.pcs)[job] == 1
  {
    ReachableInv(c, s);
    CountById(AllJobs(c), JobFor(c, i));
    assert (multiset(s.chunk) + multiset(s.done) + Gather(JobHeld, s.pcs))[JobFor(c, i)] == 1;
  }

  /** No temp file has two writers, and the file of a listed job has none. */
  lemma OneWriterPerFile(c: Config, s: State, w: nat)
    requires Reachable(c, s) && w < |s.pcs| && s.pcs[w].Receiving?
    ensures forall v :: 0 <= v < |s.pcs| && v != w && s.pcs[v].Receiving? ==> s.pcs[v].job.id != s.pcs[w].job.id
    ensures forall job :: job in s.chunk || job in s.done ==> job.id != s.pcs[w].job.id
  {
    ReachableInv(c, s);
    SoleHolder(c, s, w, s.pcs[w].job);
    forall v | 0 <= v < |s.pcs| && v != w && s.pcs[v].Receiving?
      ensures s.pcs[v].job.id != s.pcs[w].job.id
    {
      assert JobHeld(s.pcs[v]) == multiset{s.pcs[v].job};
    }
  }

  lemma {:induction false} DistinctCount(q: seq<Server>, server: Server)
    requires forall i, j :: 0 <= i < j < |q| ==> q[i] != q[j]
    ensures multiset(q)[server] == if server in q then 1 else 0
  {
    if q != [] {
      DropLast(q);
      DistinctCount(q[..|q| - 1], server);
    }
  }

  /** Each server is free, held or dropped, in one place only. */
  lemma OnePlacePerServer(c: Config, s: State, server: Server)
    requires Reachable(c, s) && server in c.servers
    ensures multiset(s.free)[server] + Gather(ServerOwned, s.pcs)[server] == 1
  {
    ReachableInv(c, s);
    DistinctCount(c.servers, server);
    var places := multiset(s.free) + Gather(ServerOwned, s.pcs);
    assert places == multiset(c.servers);
    assert places[server] == multiset(s.free)[server] + Gather(ServerOwned, s.pcs)[server];
  }

  /** No lost wake-up: while a worker sleeps and a server is free, the worker that added it has
      yet to broadcast. */
  lemma NoSleeperForgotten(c: Config, s: State, w: nat)
    requires Reachable(c, s) && w < |s.pcs| && s.pcs[w].Asleep? && s.free != []
    ensures Broadcasting in s.pcs
  {
    ReachableInv(c, s);
  }

  // ---- temp files -------------------------------------------------------------------

  lemma JobRange(c: Config, job: Job)
    requires c.Valid() && job.id < c.chunks && job == JobFor(c, job.id)
    ensures 0 <= job.start <= job.end + 1 <= |c.file|
    ensures Part(c.file, c.chunks, job.id) == c.file[job.start..job.end + 1]
    ensures JobStream(c, job) == Stream(c.file, job.start, job.start, job.end)
    ensures Flagged(JobStream(c, job)) <==> Deliverable(job.start, job.end)
  {
    Tiling(|c.file|, c.chunks, job.id);
    StreamShape(c.file, job.start, job.end);
  }

  lemma DoneJobIsKnown(c: Config, s: State, job: Job)
    requires Inv(c, s) && job in s.done
    ensures job.id < c.chunks && job == JobFor(c, job.id)
  {
    assert job in multiset(s.done);
    HeldIsKnown(c, s, job);
  }

  /** A recorded job has a deliverable range, and its temp file is that range of the file,
      unless the range holds a NUL. */
  lemma DoneFile(c: Config, s: State, job: Job)
    requires Reachable(c, s) && job in s.done
    ensures job.id < c.chunks && Deliverable(job.start, job.end) && job.id in s.temp
    ensures |s.temp[job.id]| <= |Part(c.file, c.chunks, job.id)|
    ensures s.temp[job.id] == Part(c.file, c.chunks, job.id) <==> NulFree(Part(c.file, c.chunks, job.id))
  {
    ReachableInv(c, s);
    DoneJobIsKnown(c, s, job);
    FinishedFile(c, s.temp, job);
  }

  lemma FinishedFile(c: Config, temp: map<nat, seq<byte>>, job: Job)
    requires c.Valid() && job.id < c.chunks && job == JobFor(c, job.id) && Finished(c, temp, job)
    ensures Deliverable(job.start, job.end) && |temp[job.id]| <= |Part(c.file, c.chunks, job.id)|
    ensures temp[job.id] == Part(c.file, c.chunks, job.id) <==> NulFree(Part(c.file, c.chunks, job.id))
  {
    JobRange(c, job);
    StreamPayload(c.file, job.start, job.end);
  }

  lemma DoneGrows(c: Config, s: State, w: nat, t: bool)
    requires Enabled(s, w, t)
    ensures s.done <= StepOf(c, s, w, t).done
  {
    if !s.pcs[w].Recording? { DoneKept(c, s, w, t); }
  }

  /** A recorded job stays recorded, so its temp file is its range in every later state. */
  lemma {:induction false} DoneStays(c: Config, s: State, schedule: seq<Move>)
    requires IsRun(c, s, schedule)
    ensures s.done <= Final(c, s, schedule).done
    decreases |schedule|
  {
    if schedule != [] {
      DoneGrows(c, s, schedule[0].worker, schedule[0].timeout);
      DoneStays(c, StepOf(c, s, schedule[0].worker, schedule[0].timeout), schedule[1..]);
    }
  }

  /** While a NUL-free job is in flight its temp file is exactly the bytes covered by the
      packets received so far, whatever earlier attempts left there. */
  lemma InFlightFile(c: Config, s: State, w: nat)
    requires Reachable(c, s) && NulFree(c.file) && w < |s.pcs| && s.pcs[w].Receiving?
    ensures var job, got := s.pcs[w].job, s.pcs[w].got;
            && 0 <= job.start <= job.end + 1 <= |c.file|
            && job.id in s.temp
            && var range := SentRange(c.file, job.start, job.end);
               s.temp[job.id] == range[..Covered(got, |range|)]
  {
    ReachableInv(c, s);
    var pc := s.pcs[w];
    HeldJob(c, s, w, pc.job);
    JobRange(c, pc.job);
    assert FileFits(c, s.temp, pc);
    PrefixPayload(c.file, pc.job.start, pc.job.end, pc.got);
  }

  // ---- the combined file ------------------------------------------------------------

  lemma AllDone(c: Config, s: State, i: nat)
    requires Inv(c, s) && |s.done| == c.chunks && i < c.chunks
    ensures JobFor(c, i) in s.done
  {
    AllDoneMeansNoneLeft(c, s);
    CountById(AllJobs(c), JobFor(c, i));
    assert JobFor(c, i) in multiset(AllJobs(c));
    assert multiset(s.done) == multiset(AllJobs(c));
  }

  /** End to end: in any run, whatever the interleaving and the server deaths, once every
      job is recorded the combined text is the served file, exactly when that has no NUL. */
  lemma EndToEnd(c: Config, s: State)
    requires Reachable(c, s) && |s.done| == c.chunks
    ensures Combined(s.temp, c.chunks).Some?
    ensures Combined(s.temp, c.chunks) == Some(c.file) <==> NulFree(c.file)
  {
    ReachableInv(c, s);
    forall i | 0 <= i < c.chunks
      ensures i in s.temp && |s.temp[i]| <= |Part(c.file, c.chunks, i)|
      ensures s.temp[i] == Part(c.file, c.chunks, i) <==> NulFree(Part(c.file, c.chunks, i))
    {
      AllDone(c, s, i);
      DoneFile(c, s, JobFor(c, i));
    }
    CombinedIffNulFree(c.file, c.chunks, s.temp);
  }

  // ---- time-outs and unfinished jobs ------------------------------------------------

  lemma {:induction false} FailedTimedOut(pcs: seq<PC>)
    ensures Total(HasFailed, pcs) <= Total(HasTimedOut, pcs)
  {
    if pcs != [] { FailedTimedOut(pcs[1..]); }
  }

  /** Once any worker has left the loop without a time-out, the jobs still to be fetched by
      somebody are at most as many as the time-outs so far. */
  lemma LeaversLeaveLittle(c: Config, schedule: seq<Move>, w: nat)
    requires c.Valid() && IsRun(c, Init(c), schedule)
    requires w < |Final(c, Init(c), schedule).pcs| && LeftLoop(Final(c, Init(c), schedule).pcs[w])
    ensures |Final(c, Init(c), schedule).chunk| <= TimeOuts(schedule)
  {
    InitInv(c);
    RunInv(c, Init(c), schedule);
    FreshPool(c);
    FailedTimedOut(Final(c, Init(c), schedule).pcs);
  }

  lemma ExitedBound(c: Config, s: State)
    requires Inv(c, s) && AllExited(s) && c.chunks <= c.workers
    ensures c.chunks - |s.done| <= Total(HasTimedOut, s.pcs)
  {
    OwnersFailed(s.pcs);
    CountJobs(c, s);
    if forall w :: 0 <= w < |s.pcs| ==> s.pcs[w].Failed? {
      AllFailed(s.pcs);
    }
  }

  /** With a worker per job, the jobs left over when all workers have exited are at most as
      many as the time-outs; without a time-out every job is done. */
  lemma UnfinishedAtMostTimeOuts(c: Config, schedule: seq<Move>)
    requires c.Valid() && c.chunks <= c.workers && IsRun(c, Init(c), schedule)
    requires AllExited(Final(c, Init(c), schedule))
    ensures c.chunks - |Final(c, Init(c), schedule).done| <= TimeOuts(schedule)
  {
    InitInv(c);
    RunInv(c, Init(c), schedule);
    FreshPool(c);
    ExitedBound(c, Final(c, Init(c), schedule));
  }

  lemma {:induction false} AllFailed(pcs: seq<PC>)
    requires forall w :: 0 <= w < |pcs| ==> pcs[w].Failed?
    ensures Total(HasFailed, pcs) == |pcs|
  {
    if pcs != [] { AllFailed(pcs[1..]); }
  }

  /** A run without time-outs that goes on as long as it can delivers the file. */
  lemma QuietRunDelivers(c: Config, schedule: seq<Move>)
    requires c.Valid() && c.chunks <= c.workers && c.servers != []
    requires IsRun(c, Init(c), schedule) && Stuck(Final(c, Init(c), schedule)) && TimeOuts(schedule) == 0
    ensures var s := Final(c, Init(c), schedule);
            && AllExited(s) && |s.done| == c.chunks
            && (Combined(s.temp, c.chunks) == Some(c.file) <==> NulFree(c.file))
  {
    StuckRun(c, schedule);
    UnfinishedAtMostTimeOuts(c, schedule);
    var s := Final(c, Init(c), schedule);
    InitInv(c);
    RunInv(c, Init(c), schedule);
    CountJobs(c, s);
    EndToEnd(c, s);
  }

  /** An unfinished job's temp file is strictly shorter than a non-empty range. */
  lemma PartialIsShort(c: Config, job: Job, got: nat, text: seq<byte>)
    requires c.Valid() && NulFree(c.file) && job.id < c.chunks && job == JobFor(c, job.id)
    requires Partial(JobStream(c, job), got, text)
    ensures |text| <= |Part(c.file, c.chunks, job.id)|
    ensures text == Part(c.file, c.chunks, job.id) <==> job.start > job.end
  {
    JobRange(c, job);
    StreamShape(c.file, job.start, job.end);
    PrefixPayload(c.file, job.start, job.end, got);
    if job.start <= job.end && got < |JobStream(c, job)| {
      assert BUFFER_SIZE * got < job.end - job.start + 1;
    }
  }

  /** When all workers have exited, combinefile produces the file exactly when every job was
      recorded, empty ranges excepted: those are never recorded, but their temp file must
      have been created. */
  lemma CombineAfterExit(c: Config, s: State)
    requires Reachable(c, s) && AllExited(s) && NulFree(c.file) && c.leftover == map[]
    ensures Combined(s.temp, c.chunks) == Some(c.file)
            <==> forall i :: 0 <= i < c.chunks ==>
                   JobFor(c, i) in s.done || (PartStart(|c.file|, c.chunks, i) > PartEnd(|c.file|, c.chunks, i) && i in s.temp)
  {
    ReachableInv(c, s);
    forall i | 0 <= i < c.chunks
      ensures i in s.temp ==> |s.temp[i]| <= |Part(c.file, c.chunks, i)|
      ensures i in s.temp && s.temp[i] == Part(c.file, c.chunks, i)
              <==> JobFor(c, i) in s.done || (PartStart(|c.file|, c.chunks, i) > PartEnd(|c.file|, c.chunks, i) && i in s.temp)
    {
      ExitedFile(c, s, i);
    }
    CombinedExactly(c.file, c.chunks, s.temp, c.chunks);
    PartsRebuildFile(c.file, c.chunks);
  }

  lemma ExitedFile(c: Config, s: State, i: nat)
    requires Reachable(c, s) && AllExited(s) && NulFree(c.file) && c.leftover == map[] && i < c.chunks
    ensures i in s.temp ==> |s.temp[i]| <= |Part(c.file, c.chunks, i)|
    ensures i in s.temp && s.temp[i] == Part(c.file, c.chunks, i)
            <==> JobFor(c, i) in s.done || (JobFor(c, i).start > JobFor(c, i).end && i in s.temp)
  {
    var job := JobFor(c, i);
    if job in s.done {
      DoneFile(c, s, job);
      PartNulFree(c, i);
    } else {
      ExitedUndone(c, s, i);
      if i in s.temp {
        var got :| Partial(JobStream(c, job), got, s.temp[i]);
        PartialIsShort(c, job, got, s.temp[i]);
      }
    }
  }

  lemma PartNulFree(c: Config, i: nat)
    requires 0 < c.chunks && i < c.chunks && NulFree(c.file)
    ensures NulFree(Part(c.file, c.chunks, i))
  {
    Tiling(|c.file|, c.chunks, i);
  }

  lemma ExitedUndone(c: Config, s: State, i: nat)
    requires Reachable(c, s) && AllExited(s) && c.leftover == map[] && i < c.chunks
    requires JobFor(c, i) !in s.done
    ensures i in s.temp ==> exists got :: Partial(JobStream(c, JobFor(c, i)), got, s.temp[i])
  {
    ReachableInv(c, s);
    OwnersFailed(s.pcs);
    OnePlacePerJob(c, s, i);
    assert JobFor(c, i) in s.chunk;
    assert Unfinished(c, s.temp, JobFor(c, i));
  }
}
