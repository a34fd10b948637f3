/** When the joins of the HW4 client return: exactly when no worker can sleep for ever. */
module PoolJoins {
  import opened Pool
  import opened Gathering
  import opened PoolInvariant
  import opened PoolTermination

  /** Every run that can go no further has all its workers exited. */
  ghost predicate JoinsReturn(c: Config)
    requires c.Valid()
  {
    forall schedule :: IsRun(c, Init(c), schedule) && Stuck(Final(c, Init(c), schedule))
                       ==> AllExited(Final(c, Init(c), schedule))
  }

  // ---- with a server for each worker nobody sleeps for ever -------------------------

  lemma {:induction false} OwnedAtMost(pcs: seq<PC>)
    ensures |Gather(ServerOwned, pcs)| <= |pcs|
    ensures (exists w :: 0 <= w < |pcs| && pcs[w].Asleep?) ==> |Gather(ServerOwned, pcs)| < |pcs|
  {
    if pcs != [] {
      OwnedAtMost(pcs[1..]);
      assert |ServerOwned(pcs[0]) + Gather(ServerOwned, pcs[1..])| == |ServerOwned(pcs[0])| + |Gather(ServerOwned, pcs[1..])|;
      assert |ServerOwned(pcs[0])| <= 1;
      if w :| 0 <= w < |pcs| && pcs[w].Asleep? {
        assert w > 0 ==> pcs[1..][w - 1].Asleep?;
      }
    }
  }

  lemma EnoughServers(c: Config, s: State)
    requires Inv(c, s) && Stuck(s) && c.workers <= |c.servers|
    ensures AllExited(s)
  {
    StuckWorkers(s);
    if w :| 0 <= w < |s.pcs| && s.pcs[w].Asleep? {
      StuckState(c, s);
      assert !Exited(s.pcs[w]);
      assert |Gather(ServerOwned, s.pcs)| == |multiset(c.servers)| == |c.servers|;
      OwnedAtMost(s.pcs);
      assert false;
    }
  }

  // ---- with fewer servers some run starves a worker ---------------------------------

  /** The first k workers have each lost a server; the others have not moved. */
  predicate Sinking(c: Config, s: State, k: nat) {
    && k <= |c.servers| && k <= |s.pcs| == c.workers
    && s.done == [] && s.chunk != []
    && s.free == c.servers[..|c.servers| - k]
    && (forall w :: 0 <= w < k ==> s.pcs[w].Failed?)
    && (forall w :: k <= w < |s.pcs| ==> s.pcs[w] == Start)
  }

  /** Worker k takes a server and a job, asks, and opens the temp file. */
  lemma AskInVain(c: Config, s: State, k: nat) returns (schedule: seq<Move>)
    requires 0 < c.chunks && Sinking(c, s, k) && k < |c.servers| && k < c.workers
    ensures IsRun(c, s, schedule)
    ensures var e := Final(c, s, schedule);
            && |e.pcs| == |s.pcs| && e.pcs == s.pcs[k := e.pcs[k]] && e.pcs[k].Receiving?
            && e.done == [] && e.free == s.free[..|s.free| - 1]
  {
    var m := Move(k, false);
    OneMove(c, s, m);
    ThenMove(c, s, [m], m);
    ThenMove(c, s, [m] + [m], m);
    ThenMove(c, s, [m] + [m] + [m], m);
    schedule := [m] + [m] + [m] + [m];
  }

  /** It gets no packet, puts the job back and exits without its server. */
  lemma OneSinks(c: Config, s: State, k: nat) returns (schedule: seq<Move>)
    requires 0 < c.chunks && Sinking(c, s, k) && k < |c.servers| && k < c.workers
    ensures IsRun(c, s, schedule) && Sinking(c, Final(c, s, schedule), k + 1)
  {
    var ask := AskInVain(c, s, k);
    ThenMove(c, s, ask, Move(k, true));
    ThenMove(c, s, ask + [Move(k, true)], Move(k, false));
    schedule := ask + [Move(k, true)] + [Move(k, false)];
  }

  lemma {:induction false} AllSink(c: Config, s: State, k: nat) returns (schedule: seq<Move>)
    requires 0 < c.chunks && Sinking(c, s, k) && |c.servers| <= c.workers
    ensures IsRun(c, s, schedule) && Sinking(c, Final(c, s, schedule), |c.servers|)
    decreases |c.servers| - k
  {
    if k == |c.servers| {
      schedule := [];
    } else {
      var first := OneSinks(c, s, k);
      var rest := AllSink(c, Final(c, s, first), k + 1);
      RunAppend(c, s, first, rest);
      schedule := first + rest;
    }
  }

  /** No server is left, the first `lost` workers have exited, and those before k sleep. */
  predicate Dozing(s: State, lost: nat, k: nat) {
    && lost <= k <= |s.pcs| && s.free == []
    && (forall w :: 0 <= w < lost ==> s.pcs[w].Failed?)
    && (forall w :: lost <= w < k ==> s.pcs[w] == Asleep)
    && (forall w :: k <= w < |s.pcs| ==> s.pcs[w] == Start)
  }

  lemma {:induction false} RestSleep(c: Config, s: State, lost: nat, k: nat) returns (schedule: seq<Move>)
    requires Dozing(s, lost, k)
    ensures IsRun(c, s, schedule)
    ensures var e := Final(c, s, schedule);
            |e.pcs| == |s.pcs| && Dozing(e, lost, |e.pcs|)
    decreases |s.pcs| - k
  {
    if k == |s.pcs| {
      schedule := [];
    } else {
      var m := Move(k, false);
      OneMove(c, s, m);
      var rest := RestSleep(c, StepOf(c, s, k, false), lost, k + 1);
      RunAppend(c, s, [m], rest);
      schedule := [m] + rest;
    }
  }

  /** Every server dies with the first worker that uses it; the other workers find no server
      and sleep, and nobody is left to wake them. */
  lemma StarvingRun(c: Config) returns (schedule: seq<Move>)
    requires c.Valid() && |c.servers| < c.workers
    ensures IsRun(c, Init(c), schedule)
    ensures var s := Final(c, Init(c), schedule);
            Stuck(s) && |s.pcs| == c.workers && s.free == [] && s.pcs[|c.servers|] == Asleep
  {
    var s := Init(c);
    assert |AllJobs(c)| == c.chunks;
    assert c.servers[..|c.servers|] == c.servers;
    var sink := AllSink(c, s, 0);
    var sleep := RestSleep(c, Final(c, s, sink), |c.servers|, |c.servers|);
    RunAppend(c, s, sink, sleep);
    schedule := sink + sleep;
  }

  /** The joins always return if and only if there are at least as many servers as workers. */
  lemma JoinsReturnExactly(c: Config)
    requires c.Valid()
    ensures JoinsReturn(c) <==> c.workers <= |c.servers|
  {
    if c.workers <= |c.servers| {
      forall schedule | IsRun(c, Init(c), schedule) && Stuck(Final(c, Init(c), schedule))
        ensures AllExited(Final(c, Init(c), schedule))
      {
        InitInv(c);
        RunInv(c, Init(c), schedule);
        EnoughServers(c, Final(c, Init(c), schedule));
      }
    } else {
      var schedule := StarvingRun(c);
      assert !Exited(Final(c, Init(c), schedule).pcs[|c.servers|]);
    }
  }
}
