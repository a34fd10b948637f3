/** Which file sizes and job counts the HW4 client can finish at all. */
module PoolCompletion {
  import opened Ranges
  import opened Packets
  import opened Lists
  import opened Pool
  import opened PoolInvariant
  import opened PoolResults

  /** In terms of size and job count: no range has one byte or none, or one byte more than a
      whole number of packets. */
  predicate CanFinish(size: nat, chunks: nat)
    requires 0 < chunks
  {
    var single := size / chunks;
    && (chunks > 1 ==> Deliverable(0, single - 1))
    && Deliverable((chunks - 1) * single, size - 1)
  }

  lemma CanFinishMeans(size: nat, chunks: nat)
    requires 0 < chunks
    ensures CanFinish(size, chunks)
            <==> forall i :: 0 <= i < chunks ==> Deliverable(PartStart(size, chunks, i), PartEnd(size, chunks, i))
  {
    var single := size / chunks;
    forall i | 0 <= i < chunks - 1
      ensures Deliverable(PartStart(size, chunks, i), PartEnd(size, chunks, i)) <==> Deliverable(0, single - 1)
    {
      assert (i + 1) * single == i * single + single;
    }
    assert PartStart(size, chunks, chunks - 1) == (chunks - 1) * single;
    if chunks > 1 && !Deliverable(0, single - 1) {
      assert !Deliverable(PartStart(size, chunks, 0), PartEnd(size, chunks, 0));
    }
  }

  // ---- a run that gets there --------------------------------------------------------

  const GO := Move(0, false)

  /** Worker 0 receives the rest of a flagged stream. */
  lemma {:induction false} FetchAll(c: Config, s: State) returns (schedule: seq<Move>)
    requires 0 < |s.pcs| && s.pcs[0].Receiving? && s.pcs[0].got < |s.pcs[0].packets|
    requires AllDownload(s.pcs[0].packets) && UnflaggedBeforeLast(s.pcs[0].packets) && Flagged(s.pcs[0].packets)
    ensures IsRun(c, s, schedule) && TimeOuts(schedule) == 0
    ensures var e := Final(c, s, schedule);
            e.chunk == s.chunk && e.done == s.done && 0 < |e.pcs| && e.pcs[0] == Recording(s.pcs[0].server, s.pcs[0].job)
    decreases |s.pcs[0].packets| - s.pcs[0].got
  {
    var packets, got := s.pcs[0].packets, s.pcs[0].got;
    OneMove(c, s, GO);
    var next := StepOf(c, s, 0, false);
    if got == |packets| - 1 {
      schedule := [GO];
    } else {
      assert packets[got].contentIsEnd == 0;
      assert next.pcs[0] == Receiving(s.pcs[0].server, s.pcs[0].job, packets, got + 1);
      var rest := FetchAll(c, next);
      schedule := [GO] + rest;
      RunAppend(c, s, [GO], rest);
    }
  }

  /** Worker 0 pops the last job of the list and asks its server for it. */
  lemma AskForJob(c: Config, s: State) returns (schedule: seq<Move>)
    requires 0 < |s.pcs| && s.pcs[0].Testing? && s.chunk != [] && |s.done| != c.chunks
    ensures IsRun(c, s, schedule) && TimeOuts(schedule) == 0
    ensures var e, job := Final(c, s, schedule), s.chunk[|s.chunk| - 1];
            && e.chunk == s.chunk[..|s.chunk| - 1] && e.done == s.done
            && 0 < |e.pcs| && e.pcs[0] == Receiving(s.pcs[0].server, job, Reply(c, job), 0)
  {
    OneMove(c, s, GO);
    ThenMove(c, s, [GO], GO);
    ThenMove(c, s, [GO] + [GO], GO);
    schedule := [GO] + [GO] + [GO];
  }

  /** The job is one the pool can finish, so its stream is flagged. */
  lemma FinishableJob(c: Config, job: Job)
    requires c.Valid() && CanFinish(|c.file|, c.chunks) && job.id < c.chunks && job == JobFor(c, job.id)
    ensures AllDownload(Reply(c, job)) && UnflaggedBeforeLast(Reply(c, job)) && Flagged(Reply(c, job))
  {
    CanFinishMeans(|c.file|, c.chunks);
    assert Deliverable(PartStart(|c.file|, c.chunks, job.id), PartEnd(|c.file|, c.chunks, job.id));
    ReplyIsStream(c, job.id);
    JobRange(c, job);
  }

  /** Worker 0 pops a job, fetches it and records it. */
  lemma OneJob(c: Config, s: State) returns (schedule: seq<Move>)
    requires c.Valid() && CanFinish(|c.file|, c.chunks)
    requires 0 < |s.pcs| && s.pcs[0].Testing? && s.chunk != [] && |s.done| < c.chunks
    requires forall job :: job in s.chunk ==> job.id < c.chunks && job == JobFor(c, job.id)
    ensures IsRun(c, s, schedule) && TimeOuts(schedule) == 0
    ensures var e := Final(c, s, schedule);
            && e.chunk == s.chunk[..|s.chunk| - 1] && |e.done| == |s.done| + 1
            && 0 < |e.pcs| && e.pcs[0] == s.pcs[0]
  {
    assert s.chunk[|s.chunk| - 1] in s.chunk;
    FinishableJob(c, s.chunk[|s.chunk| - 1]);
    var start := AskForJob(c, s);
    var fetch := FetchAll(c, Final(c, s, start));
    RunAppend(c, s, start, fetch);
    ThenMove(c, s, start + fetch, GO);
    schedule := start + fetch + [GO];
  }

  lemma {:induction false} AllTheJobs(c: Config, s: State) returns (schedule: seq<Move>)
    requires c.Valid() && CanFinish(|c.file|, c.chunks)
    requires 0 < |s.pcs| && s.pcs[0].Testing? && |s.chunk| + |s.done| == c.chunks
    requires forall job :: job in s.chunk ==> job.id < c.chunks && job == JobFor(c, job.id)
    ensures IsRun(c, s, schedule) && TimeOuts(schedule) == 0
    ensures |Final(c, s, schedule).done| == c.chunks
    decreases |s.chunk|
  {
    if s.chunk == [] {
      schedule := [];
    } else {
      var first := OneJob(c, s);
      var e := Final(c, s, first);
      assert forall job :: job in e.chunk ==> job in s.chunk;
      var rest := AllTheJobs(c, e);
      RunAppend(c, s, first, rest);
      schedule := first + rest;
    }
  }

  lemma SomeRunFinishes(c: Config) returns (schedule: seq<Move>)
    requires c.Valid() && 0 < c.workers && c.servers != [] && CanFinish(|c.file|, c.chunks)
    ensures IsRun(c, Init(c), schedule) && |Final(c, Init(c), schedule).done| == c.chunks
  {
    var s := Init(c);
    OneMove(c, s, GO);
    var next := StepOf(c, s, 0, false);
    assert forall job :: job in AllJobs(c) ==> job.id < c.chunks && job == JobFor(c, job.id);
    var rest := AllTheJobs(c, next);
    RunAppend(c, s, [GO], rest);
    schedule := [GO] + rest;
  }

  /** Some run records every job if and only if the size and the job count allow it: for any
      other pair every run ends with jobs unrecorded, however reliable the servers are. */
  lemma CompletableExactly(c: Config)
    requires c.Valid() && 0 < c.workers && c.servers != []
    ensures (exists s :: Reachable(c, s) && |s.done| == c.chunks) <==> CanFinish(|c.file|, c.chunks)
  {
    if s :| Reachable(c, s) && |s.done| == c.chunks {
      ReachableInv(c, s);
      forall i | 0 <= i < c.chunks
        ensures Deliverable(PartStart(|c.file|, c.chunks, i), PartEnd(|c.file|, c.chunks, i))
      {
        AllDone(c, s, i);
        DoneFile(c, s, JobFor(c, i));
      }
      CanFinishMeans(|c.file|, c.chunks);
    }
    if CanFinish(|c.file|, c.chunks) {
      var schedule := SomeRunFinishes(c);
      assert Reachable(c, Final(c, Init(c), schedule));
    }
  }

  /** Pairs that no run finishes: 1025 bytes in one chunk, and one byte per chunk. */
  lemma NeverFinishing(c: Config, s: State)
    requires Reachable(c, s) && 0 < c.workers && c.servers != []
    requires (|c.file| == 1025 && c.chunks == 1) || |c.file| == c.chunks
    ensures |s.done| != c.chunks
  {
    CompletableExactly(c);
    OneBytePerChunk(c.chunks);
  }

  lemma OneBytePerChunk(n: nat)
    requires 0 < n
    ensures n / n == 1 && !CanFinish(n, n)
  {
  }
}
