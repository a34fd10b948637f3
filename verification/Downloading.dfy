/** The HW4 client's shared state and locked sections, on the real lists. Each method is one
    step of the pool, and Run is the whole multi-threaded download under any scheduler. */
module Downloading {
  import opened Bytes
  import opened Combining
  import opened Text
  import opened Receiving
  import opened Lists
  import opened Pool
  import opened Gathering
  import opened PoolInvariant
  import opened PoolTermination
  import opened PoolResults
  import opened PoolJoins

  /** The list of the servers that answered, added one by one. */
  method ListServers(addresses: seq<Server>) returns (servers: GrowingList<Server>)
    ensures fresh(servers) && servers.Valid() && fresh(servers.items) && servers.Contents() == addresses
  {
    servers := new GrowingList<Server>();
    var i := 0;
    while i < |addresses|
      invariant i <= |addresses| && servers.Valid() && fresh(servers) && fresh(servers.items)
      invariant servers.Contents() == addresses[..i]
    {
      servers.Add(addresses[i]);
      i := i + 1;
    }
  }

  class Downloader {
    const config: Config
    var serverInfoList: GrowingList<Server>
    var chunkJobs: JobList
    var doneJobs: JobList
    var temp: map<nat, seq<byte>>
    var pcs: seq<PC>

    ghost function Repr(): set<object>
      reads this, serverInfoList, chunkJobs, doneJobs
    {
      {this, serverInfoList, serverInfoList.items, chunkJobs, chunkJobs.jobs, doneJobs, doneJobs.jobs}
    }

    ghost predicate Valid()
      reads this, serverInfoList, chunkJobs, doneJobs
    {
      && serverInfoList.Valid() && chunkJobs.Valid() && doneJobs.Valid()
      && chunkJobs != doneJobs && chunkJobs.jobs != doneJobs.jobs
      && 0 < config.chunks == chunkJobs.size == doneJobs.size
    }

    ghost function View(): State
      reads this, serverInfoList, chunkJobs, doneJobs, serverInfoList.items, chunkJobs.jobs, doneJobs.jobs
      requires Valid()
    {
      State(serverInfoList.Contents(), chunkJobs.Contents(), doneJobs.Contents(), temp, pcs)
    }

    constructor (config: Config)
      requires config.Valid()
      ensures Valid() && fresh(Repr()) && this.config == config && View() == Init(config)
    {
      this.config := config;
      temp := config.leftover;
      pcs := seq(config.workers, _ => Start);
      var servers := ListServers(config.servers);
      var chunks := CreateJobsList(config);
      var done := new JobList(config.chunks);
      serverInfoList, chunkJobs, doneJobs := servers, chunks, done;
    }

    /** The section at the head of thread_download: wait for a server, then take the last. */
    method TakeServer(w: nat)
      requires Valid() && w < |pcs| && pcs[w].Start?
      modifies Repr()
      ensures Valid() && Repr() == old(Repr()) && View() == StepOf(config, old(View()), w, false)
      ensures old(serverInfoList.Contents()) == [] ==> pcs == old(pcs)[w := Asleep]
      ensures old(serverInfoList.Contents()) != [] ==>
                exists server :: && old(serverInfoList.Contents()) == serverInfoList.Contents() + [server]
                                 && pcs == old(pcs)[w := Testing(server)]
    {
      if serverInfoList.occupied == 0 {
        pcs := pcs[w := Asleep];
      } else {
        var addr := serverInfoList.Get(serverInfoList.occupied - 1);
        serverInfoList.Remove(serverInfoList.occupied - 1);
        pcs := pcs[w := Testing(addr.value)];
      }
    }

    method TestDone(w: nat)
      requires Valid() && w < |pcs| && pcs[w].Testing?
      modifies this`pcs
      ensures Valid() && Repr() == old(Repr()) && View() == StepOf(config, old(View()), w, false)
      ensures pcs == old(pcs)[w := if |doneJobs.Contents()| == config.chunks then Releasing(old(pcs[w].server))
                                   else Popping(old(pcs[w].server))]
    {
      var server := pcs[w].server;
      pcs := pcs[w := if doneJobs.occupied != doneJobs.size then Popping(server) else Releasing(server)];
    }

    method TakeJob(w: nat)
      requires Valid() && w < |pcs| && pcs[w].Popping?
      modifies Repr()
      ensures Valid() && Repr() == old(Repr()) && View() == StepOf(config, old(View()), w, false)
      ensures old(chunkJobs.Contents()) == [] ==> pcs == old(pcs)[w := Releasing(old(pcs[w].server))]
      ensures old(chunkJobs.Contents()) != [] ==>
                exists job :: && old(chunkJobs.Contents()) == chunkJobs.Contents() + [job]
                              && pcs == old(pcs)[w := Opening(old(pcs[w].server), job)]
    {
      var server := pcs[w].server;
      var job := chunkJobs.PopJobItem();
      assert job.Some? ==> old(View()).chunk[..old(chunkJobs.occupied) - 1] == chunkJobs.Contents();
      pcs := pcs[w := if job.None? then Releasing(server) else Opening(server, job.value)];
    }

    /** The body of udp_download_file: open the file and ask, take one packet, or time out. */
    method Transfer(w: nat, timeout: bool)
      requires Valid() && Enabled(View(), w, timeout) && (pcs[w].Opening? || pcs[w].Receiving?)
      modifies this`pcs, this`temp
      ensures Valid() && Repr() == old(Repr()) && View() == StepOf(config, old(View()), w, timeout)
    {
      match pcs[w] {
        case Opening(server, job) =>
          temp := temp[job.id := []];
          pcs := pcs[w := Receiving(server, job, Reply(config, job), 0)];
        case Receiving(server, job, packets, got) =>
          if timeout {
            pcs := pcs[w := PuttingBack(server, job)];
          } else {
            var (text, finished) := Accept(Stored(temp, job.id), packets[got]);
            temp := temp[job.id := text];
            pcs := pcs[w := if finished then Recording(server, job) else Receiving(server, job, packets, got + 1)];
          }
        case _ =>
      }
    }

    /** Neither this section nor the next tests the list for room. */
    method RecordJob(w: nat)
      requires Valid() && Inv(config, View()) && w < |pcs| && pcs[w].Recording?
      modifies Repr()
      ensures Valid() && Repr() == old(Repr()) && View() == StepOf(config, old(View()), w, false)
      ensures doneJobs.Contents() == old(doneJobs.Contents()) + [old(pcs[w].job)]
      ensures pcs == old(pcs)[w := Testing(old(pcs[w].server))]
    {
      RoomForJob(config, View(), w);
      var server, job := pcs[w].server, pcs[w].job;
      doneJobs.AddJobItem(job);
      pcs := pcs[w := Testing(server)];
    }

    method PutJobBack(w: nat)
      requires Valid() && Inv(config, View()) && w < |pcs| && pcs[w].PuttingBack?
      modifies Repr()
      ensures Valid() && Repr() == old(Repr()) && View() == StepOf(config, old(View()), w, false)
      ensures chunkJobs.Contents() == old(chunkJobs.Contents()) + [old(pcs[w].job)]
      ensures pcs == old(pcs)[w := Failed(old(pcs[w].server))]
    {
      RoomForJob(config, View(), w);
      var server, job := pcs[w].server, pcs[w].job;
      chunkJobs.AddJobItem(job);
      pcs := pcs[w := Failed(server)];
    }

    method ReleaseServer(w: nat)
      requires Valid() && w < |pcs| && pcs[w].Releasing?
      modifies Repr()
      ensures Valid() && fresh(Repr() - old(Repr())) && View() == StepOf(config, old(View()), w, false)
      ensures serverInfoList.Contents() == old(serverInfoList.Contents()) + [old(pcs[w].server)]
      ensures pcs == old(pcs)[w := Broadcasting]
    {
      serverInfoList.Add(pcs[w].server);
      pcs := pcs[w := Broadcasting];
    }

    method Broadcast(w: nat)
      requires Valid() && w < |pcs| && pcs[w].Broadcasting?
      modifies this`pcs
      ensures Valid() && Repr() == old(Repr()) && View() == StepOf(config, old(View()), w, false)
      ensures |pcs| == |old(pcs)| && pcs[w] == Left
      ensures forall v :: 0 <= v < |pcs| && v != w ==> pcs[v] == if old(pcs[v]).Asleep? then Start else old(pcs[v])
    {
      pcs := WakeAll(pcs)[w := Left];
    }

    method Step(w: nat, timeout: bool)
      requires Valid() && Inv(config, View()) && Enabled(View(), w, timeout)
      modifies Repr()
      ensures Valid() && fresh(Repr() - old(Repr())) && View() == StepOf(config, old(View()), w, timeout)
    {
      match pcs[w] {
        case Start => TakeServer(w);
        case Testing(_) => TestDone(w);
        case Popping(_) => TakeJob(w);
        case Opening(_, _) => Transfer(w, timeout);
        case Receiving(_, _, _, _) => Transfer(w, timeout);
        case Recording(_, _) => RecordJob(w);
        case PuttingBack(_, _) => PutJobBack(w);
        case Releasing(_) => ReleaseServer(w);
        case Broadcasting => Broadcast(w);
        case _ =>
      }
    }

    /** The state is where this schedule leads. */
    ghost predicate Reached(schedule: seq<Move>)
      reads this, serverInfoList, chunkJobs, doneJobs, serverInfoList.items, chunkJobs.jobs, doneJobs.jobs
    {
      Valid() && config.Valid() && IsRun(config, Init(config), schedule) && View() == Final(config, Init(config), schedule)
    }

    /** Lets any worker that can move take one step. */
    method Proceed(ghost schedule: seq<Move>) returns (moved: bool, ghost longer: seq<Move>)
      requires Reached(schedule)
      modifies Repr()
      ensures fresh(Repr() - old(Repr())) && Reached(longer)
      ensures if moved then Measure(config, View()) < old(Measure(config, View()))
              else View() == old(View()) && Stuck(View())
    {
      if w: nat, timeout :| w < |pcs| && CanMove(pcs, w, timeout) {
        Advance(config, schedule, View(), Move(w, timeout));
        Step(w, timeout);
        moved, longer := true, schedule + [Move(w, timeout)];
      } else {
        moved, longer := false, schedule;
      }
    }

    /** All worker threads, interleaved and interrupted by time-outs in any way, until no
        thread can move. This ends because every run does. */
    method Run(ghost schedule: seq<Move>) returns (ghost last: seq<Move>)
      requires Reached(schedule)
      modifies Repr()
      ensures Reached(last) && Stuck(View())
      decreases Measure(config, View())
    {
      var moved, longer := Proceed(schedule);
      if moved {
        last := Run(longer);
      } else {
        last := longer;
      }
    }
  }

  /** The main program after the file was found: start the workers, join them, and combine the
      temp files that are there, finished or not. With
      at least as many servers as workers it always comes back from the joins; with fewer, some
      run ends with a worker that sleeps for ever, and then every server has timed out. */
  method Download(c: Config) returns (joined: bool, target: Option<seq<byte>>, unfinished: nat, ghost schedule: seq<Move>)
    requires c.Valid() && c.chunks <= c.workers
    ensures IsRun(c, Init(c), schedule)
    ensures joined ==> unfinished == c.chunks - |Final(c, Init(c), schedule).done| <= TimeOuts(schedule)
    ensures joined ==> (target.None? <==> exists i :: 0 <= i < c.chunks && i !in Final(c, Init(c), schedule).temp)
    ensures target.Some? ==> joined && target.value == Flatten(FilesUpTo(Final(c, Init(c), schedule).temp, c.chunks))
    ensures joined && unfinished == 0 ==> target.Some? && (target == Some(c.file) <==> NulFree(c.file))
    ensures c.workers <= |c.servers| ==> joined
    ensures joined <==> AllExited(Final(c, Init(c), schedule))
    ensures Stuck(Final(c, Init(c), schedule))
    ensures !joined ==> TimeOuts(schedule) == |c.servers|
  {
    var client := new Downloader(c);
    schedule := client.Run([]);
    StuckRun(c, schedule);
    JoinsReturnExactly(c);
    joined := forall w | 0 <= w < |client.pcs| :: Exited(client.pcs[w]);
    target, unfinished := None, 0;
    if joined {
      UnfinishedAtMostTimeOuts(c, schedule);
      target := CombineFile(client.temp, c.chunks);
      unfinished := client.doneJobs.size - client.doneJobs.occupied;
      if unfinished == 0 { EndToEnd(c, Final(c, Init(c), schedule)); }
    }
  }

  /** The lists together hold fewer jobs than there are while a worker holds one. */
  lemma RoomForJob(c: Config, s: State, w: nat)
    requires Inv(c, s) && w < |s.pcs| && JobHeld(s.pcs[w]) != multiset{}
    ensures |s.chunk| + |s.done| < c.chunks
  {
    CountJobs(c, s);
    GatherUpdate(JobHeld, s.pcs, w, Start);
    assert s.pcs[w].job in Gather(JobHeld, s.pcs);
  }

  /** A run can be made longer, which lowers the measure. */
  lemma Advance(c: Config, schedule: seq<Move>, before: State, m: Move)
    requires c.Valid() && IsRun(c, Init(c), schedule) && before == Final(c, Init(c), schedule)
    requires Enabled(before, m.worker, m.timeout)
    ensures var after := StepOf(c, before, m.worker, m.timeout);
            && Inv(c, before) && Measure(c, after) < Measure(c, before)
            && IsRun(c, Init(c), schedule + [m]) && Final(c, Init(c), schedule + [m]) == after
  {
    InitInv(c);
    RunInv(c, Init(c), schedule);
    MeasureStep(c, before, m.worker, m.timeout);
    ExtendRun(c, schedule, before, m);
  }

  lemma ExtendRun(c: Config, schedule: seq<Move>, before: State, m: Move)
    requires 0 < c.chunks && IsRun(c, Init(c), schedule) && before == Final(c, Init(c), schedule)
    requires Enabled(before, m.worker, m.timeout)
    ensures IsRun(c, Init(c), schedule + [m])
    ensures Final(c, Init(c), schedule + [m]) == StepOf(c, before, m.worker, m.timeout)
  {
    var next := StepOf(c, before, m.worker, m.timeout);
    assert [m][1..] == [] && IsRun(c, next, []);
    assert IsRun(c, before, [m]) && Final(c, before, [m]) == next;
    RunAppend(c, Init(c), schedule, [m]);
  }
}
