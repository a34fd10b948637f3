/** The worker pool of the HW4 client as a step machine. A step is one locked section, one
    unlocked test of the done list, one packet or time-out, or one broadcast, by one worker. */
module Pool {
  import opened Bytes
  import opened Text
  import opened Ranges
  import opened Packets
  import opened Receiving
  import opened Lists

  type Server = nat

  /** What one download starts from: the file all servers hold, the number of chunks and of
      worker threads, the servers that answered, and the temp files an earlier run left. */
  datatype Config = Config(
    fileName: string, file: seq<byte>, chunks: nat, workers: nat,
    servers: seq<Server>, leftover: map<nat, seq<byte>>)
  {
    ghost predicate Valid() {
      && IsField(fileName, ' ')
      && 0 < chunks
      && forall i, j :: 0 <= i < j < |servers| ==> servers[i] != servers[j]
    }
  }

  function JobFor(c: Config, i: nat): Job
    requires 0 < c.chunks
  {
    Job(i, c.fileName, PartStart(|c.file|, c.chunks, i), PartEnd(|c.file|, c.chunks, i))
  }

  function JobsUpTo(c: Config, k: nat): (jobs: seq<Job>)
    requires 0 < c.chunks
    ensures |jobs| == k && forall i :: 0 <= i < k ==> jobs[i] == JobFor(c, i)
  {
    if k == 0 then [] else JobsUpTo(c, k - 1) + [JobFor(c, k - 1)]
  }

  function AllJobs(c: Config): seq<Job>
    requires 0 < c.chunks
  {
    JobsUpTo(c, c.chunks)
  }

  /** Job i starts at i times the length of a chunk; the last one takes what is left over. */
  lemma JobsAreCut(c: Config, i: nat)
    requires 0 < c.chunks && i < c.chunks
    ensures AllJobs(c)[i].id == i && AllJobs(c)[i].fileName == c.fileName
    ensures AllJobs(c)[i].start == i * (|c.file| / c.chunks)
    ensures AllJobs(c)[i].end - AllJobs(c)[i].start + 1
            == if i == c.chunks - 1 then |c.file| - i * (|c.file| / c.chunks) else |c.file| / c.chunks
  {
    assert (i + 1) * (|c.file| / c.chunks) == i * (|c.file| / c.chunks) + |c.file| / c.chunks;
  }

  method CreateJobsList(c: Config) returns (jobs: JobList)
    requires 0 < c.chunks
    ensures fresh(jobs) && jobs.Valid() && fresh(jobs.jobs)
    ensures jobs.size == c.chunks && jobs.Contents() == AllJobs(c)
  {
    jobs := new JobList(c.chunks);
    var singleLength := |c.file| / c.chunks;
    var i := 0;
    while i < c.chunks
      invariant i <= c.chunks && jobs.Valid() && jobs.size == c.chunks
      invariant fresh(jobs) && fresh(jobs.jobs)
      invariant jobs.Contents() == JobsUpTo(c, i)
    {
      var end := if i == c.chunks - 1 then |c.file| - 1 else (i + 1) * singleLength - 1;
      var item := Job(i, c.fileName, i * singleLength, end);
      assert item == JobFor(c, i);
      jobs.AddJobItem(item);
      i := i + 1;
    }
  }

  /** The packets a live server sends for a job: it parses the command text the client
      prints and uploads the range it reads there. */
  function Reply(c: Config, job: Job): seq<Packet> {
    var request := ParseRequest(FormatDownload(job.fileName, job.start, job.end));
    if request.Download? && request.name == c.fileName
    then Stream(c.file, Seek(request.start), request.start, request.end)
    else []
  }

  /** Where a worker thread is in thread_download. */
  datatype PC =
    | Start                        // about to lock the server list
    | Asleep                       // waiting on server_available
    | Testing(server: Server)      // about to read done_jobs->occupied
    | Popping(server: Server)      // about to lock the chunk list
    | Opening(server: Server, job: Job)   // about to truncate temp.<id> and ask the server
    | Receiving(server: Server, job: Job, packets: seq<Packet>, got: nat)
    | Recording(server: Server, job: Job)
    | PuttingBack(server: Server, job: Job)
    | Releasing(server: Server)    // about to add the server back
    | Broadcasting
    | Left                         // exited without a time-out
    | Failed(lost: Server)         // exited after a time-out; the server is freed

  datatype State = State(
    free: seq<Server>, chunk: seq<Job>, done: seq<Job>, temp: map<nat, seq<byte>>, pcs: seq<PC>)

  ghost function Init(c: Config): State
    requires 0 < c.chunks
  {
    State(c.servers, AllJobs(c), [], c.leftover, seq(c.workers, _ => Start))
  }

  function Stored(temp: map<nat, seq<byte>>, id: nat): seq<byte> {
    if id in temp then temp[id] else []
  }

  function Wake(pc: PC): PC { if pc == Asleep then Start else pc }

  function WakeAll(pcs: seq<PC>): seq<PC> {
    seq(|pcs|, i requires 0 <= i < |pcs| => Wake(pcs[i]))
  }

  /** Worker w can take a step; `timeout` chooses a time-out over the next packet. */
  predicate CanMove(pcs: seq<PC>, w: nat, timeout: bool) {
    && w < |pcs|
    && match pcs[w]
       case Asleep => false
       case Left => false
       case Failed(_) => false
       case Receiving(_, _, packets, got) => timeout || got < |packets|
       case _ => !timeout
  }

  predicate Enabled(s: State, w: nat, timeout: bool) {
    CanMove(s.pcs, w, timeout)
  }

  function At(s: State, w: nat, pc: PC): State
    requires w < |s.pcs|
  {
    s.(pcs := s.pcs[w := pc])
  }

  function StepOf(c: Config, s: State, w: nat, timeout: bool): State
    requires Enabled(s, w, timeout)
  {
    match s.pcs[w]
    case Start =>
      if s.free == [] then At(s, w, Asleep)
      else
        var last := |s.free| - 1;
        At(s, w, Testing(s.free[last])).(free := s.free[..last])
    case Testing(server) =>
      At(s, w, if |s.done| != c.chunks then Popping(server) else Releasing(server))
    case Popping(server) =>
      if s.chunk == [] then At(s, w, Releasing(server))
      else
        var last := |s.chunk| - 1;
        At(s, w, Opening(server, s.chunk[last])).(chunk := s.chunk[..last])
    case Opening(server, job) =>
      At(s, w, Receiving(server, job, Reply(c, job), 0)).(temp := s.temp[job.id := []])
    case Receiving(server, job, packets, got) =>
      if timeout then At(s, w, PuttingBack(server, job))
      else
        var (text, finished) := Accept(Stored(s.temp, job.id), packets[got]);
        At(s, w, if finished then Recording(server, job) else Receiving(server, job, packets, got + 1))
        .(temp := s.temp[job.id := text])
    case Recording(server, job) => At(s, w, Testing(server)).(done := s.done + [job])
    case PuttingBack(server, job) => At(s, w, Failed(server)).(chunk := s.chunk + [job])
    case Releasing(server) => At(s, w, Broadcasting).(free := s.free + [server])
    case Broadcasting => s.(pcs := WakeAll(s.pcs)[w := Left])
    case Asleep => s
    case Left => s
    case Failed(_) => s
  }

  // ---- runs -------------------------------------------------------------------------

  /** A schedule names, step by step, the worker that moves and whether it times out. A run
      is a schedule whose every step is enabled; each prefix of a run is a run. */
  datatype Move = Move(worker: nat, timeout: bool)

  ghost predicate IsRun(c: Config, s: State, schedule: seq<Move>)
    decreases |schedule|
  {
    schedule == [] ||
    (var m := schedule[0];
     && Enabled(s, m.worker, m.timeout)
     && IsRun(c, StepOf(c, s, m.worker, m.timeout), schedule[1..]))
  }

  ghost function Final(c: Config, s: State, schedule: seq<Move>): State
    requires IsRun(c, s, schedule)
    decreases |schedule|
  {
    if schedule == [] then s
    else Final(c, StepOf(c, s, schedule[0].worker, schedule[0].timeout), schedule[1..])
  }

  /** The time-outs that happened in a run. */
  ghost function TimeOuts(schedule: seq<Move>): nat {
    if schedule == [] then 0 else (if schedule[0].timeout then 1 else 0) + TimeOuts(schedule[1..])
  }

  ghost predicate Stuck(s: State) {
    forall w: nat, timeout :: !Enabled(s, w, timeout)
  }

  lemma {:induction false} RunAppend(c: Config, s: State, a: seq<Move>, b: seq<Move>)
    requires IsRun(c, s, a) && IsRun(c, Final(c, s, a), b)
    ensures IsRun(c, s, a + b) && Final(c, s, a + b) == Final(c, Final(c, s, a), b)
    ensures TimeOuts(a + b) == TimeOuts(a) + TimeOuts(b)
    decreases |a|
  {
    if a == [] {
      assert a + b == b;
    } else {
      var next := StepOf(c, s, a[0].worker, a[0].timeout);
      assert (a + b)[1..] == a[1..] + b;
      RunAppend(c, next, a[1..], b);
    }
  }

  lemma OneMove(c: Config, s: State, m: Move)
    requires Enabled(s, m.worker, m.timeout)
    ensures IsRun(c, s, [m]) && Final(c, s, [m]) == StepOf(c, s, m.worker, m.timeout)
    ensures TimeOuts([m]) == if m.timeout then 1 else 0
  {
  }

  lemma ThenMove(c: Config, s: State, schedule: seq<Move>, m: Move)
    requires IsRun(c, s, schedule) && Enabled(Final(c, s, schedule), m.worker, m.timeout)
    ensures IsRun(c, s, schedule + [m])
    ensures Final(c, s, schedule + [m]) == StepOf(c, Final(c, s, schedule), m.worker, m.timeout)
    ensures TimeOuts(schedule + [m]) == TimeOuts(schedule) + if m.timeout then 1 else 0
  {
    OneMove(c, Final(c, s, schedule), m);
    RunAppend(c, s, schedule, [m]);
  }
}
