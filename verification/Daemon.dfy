/**
 * The daemon at work: its threads take names of staging files from the queue
 * and replay the files, read a buffer at a time from a directory that others
 * may change, into shared destination files. What a worker has read and the
 * bytes it has written so far are part of the state; reading a buffer and
 * writing any part of it are events of their own.
 */
module Daemon {
  import opened AddressMap
  import opened Arith
  import opened Attributes
  import opened Disk
  import opened Replay
  import opened Storage
  import opened Worker
  import opened Wrappers
  import H = Handle
  import T = Threads

  type Dir = map<string, H.Staging>

  /** A staging file as a worker holds it: opened, its view read, and a buffer of which some is still to be written. */
  datatype Reading = Reading(dest: seq<byte>, view: View, etypeSize: nat, buffer: seq<byte>)

  /**
   * Jobs are numbered as they are accepted. names are their staging files,
   * held what a worker holds of them, progress how many bytes of each were
   * written. gaveUp is history: the jobs skipped or broken off.
   */
  datatype State = State(
    threads: T.State, names: seq<string>, dir: Dir, held: map<nat, Reading>, progress: seq<nat>, gaveUp: set<nat>,
    disk: Disk)

  datatype Event =
    | Control(e: T.Event)       // a step of the threads that touches no file
    | Accept(name: string)      // accept, read, enqueue
    | Open(w: nat)              // the view is read, the destination opened
    | Fetch(w: nat)             // one buffer is read
    | Put(w: nat, n: nat)       // n bytes of the buffer are written
    | Finish(w: nat)            // end of the staging file
    | GiveUp(w: nat)            // a logged skip, or a replay broken off by an error
    | Stage(dir: Dir)           // others change the staging directory

  function Init(n: nat, dir: Dir, disk: Disk): State {
    State(T.Init(n), [], dir, map[], [], {}, disk)
  }

  /** What reading the file from its start gives. */
  ghost function Bytes(f: File): seq<byte> {
    if forall a :: a in f ==> a >= 0 then ReadAll(f) else []
  }

  /** The job a worker makes of a staging file, as the directory is. */
  ghost function JobOf(dir: Dir, name: string, unpack: Unpack): (j: Option<Job>)
    ensures j.Some? ==> GoodJob(j.value)
  {
    if name !in dir || ReadBack(dir[name].attrs).None? || !Replayable(ReadBack(dir[name].attrs).value.1, unpack) then None
    else
      var (dest, saved) := ReadBack(dir[name].attrs).value;
      Some(Job(dest, SavedViewOf(saved, unpack), unpack(saved.etype).size, Bytes(dir[name].data)))
  }

  /** The fields fit together well enough for every event to make sense. */
  ghost predicate Shaped(s: State) {
    && |s.names| == |s.progress| == s.threads.accepted
    && (forall w :: 0 <= w < |s.threads.workers| && s.threads.workers[w].Busy? ==> s.threads.workers[w].id < |s.names|)
    && (forall id :: id in s.held ==> id < |s.names| && ViewSize(s.held[id].view) > 0 && s.held[id].etypeSize > 0)
  }

  /** The job worker w is at. */
  function Current(s: State, w: nat): nat
    requires T.IsBusy(s.threads, w)
  {
    s.threads.workers[w].id
  }

  predicate Holding(s: State, w: nat) {
    T.IsBusy(s.threads, w) && Current(s, w) in s.held
  }

  /** The bytes of a job's staging file that were not read yet. */
  ghost function Unread(s: State, id: nat): (n: nat)
    requires id < |s.names| && id < |s.progress|
  {
    var size := if s.names[id] in s.dir then |Bytes(s.dir[s.names[id]].data)| else 0;
    if size <= s.progress[id] then 0 else size - s.progress[id]
  }

  /** How much of the file the next buffer brings: whole etypes. */
  ghost function FetchSize(s: State, w: nat): nat
    requires Shaped(s) && Holding(s, w)
  {
    ChunkSize(Unread(s, Current(s, w)), s.held[Current(s, w)].etypeSize)
  }

  ghost predicate Enabled(s: State, e: Event, unpack: Unpack)
    requires Shaped(s)
  {
    match e
    case Control(e) => !e.Accept? && !e.Over? && T.Enabled(s.threads, e)
    case Accept(_) => T.Enabled(s.threads, T.Accept)
    case Open(w) =>
      T.IsBusy(s.threads, w) && !Holding(s, w) && JobOf(s.dir, s.names[Current(s, w)], unpack).Some?
    case Fetch(w) => Holding(s, w) && s.held[Current(s, w)].buffer == [] && FetchSize(s, w) > 0
    case Put(w, n) => Holding(s, w) && 0 < n <= |s.held[Current(s, w)].buffer|
    case Finish(w) => Holding(s, w) && s.held[Current(s, w)].buffer == [] && FetchSize(s, w) == 0
    case GiveUp(w) => T.IsBusy(s.threads, w)
    case Stage(_) => true
  }

  ghost function Next(s: State, e: Event, unpack: Unpack): State
    requires Shaped(s) && Enabled(s, e, unpack)
  {
    match e
    case Control(e) => s.(threads := T.Next(s.threads, e))
    case Accept(name) =>
      s.(threads := T.Next(s.threads, T.Accept), names := s.names + [name], progress := s.progress + [0])
    case Open(w) =>
      var j := JobOf(s.dir, s.names[Current(s, w)], unpack).value;
      s.(held := s.held[Current(s, w) := Reading(j.dest, j.view, j.etypeSize, [])])
    case Fetch(w) =>
      var id := Current(s, w);
      var file := Bytes(s.dir[s.names[id]].data);
      s.(held := s.held[id := s.held[id].(buffer := file[s.progress[id]..s.progress[id] + FetchSize(s, w)])])
    case Put(w, n) =>
      var id := Current(s, w);
      var r := s.held[id];
      s.(disk := WriteAt(s.disk, Places(r.dest, r.view, s.progress[id], n), r.buffer[..n]),
         progress := Advance(s.progress, id, n), held := s.held[id := r.(buffer := r.buffer[n..])])
    case Finish(w) => s.(threads := T.Next(s.threads, T.Over(w)))
    case GiveUp(w) => s.(threads := T.Next(s.threads, T.Over(w)), gaveUp := s.gaveUp + {Current(s, w)})
    case Stage(dir) => s.(dir := dir)
  }

  /** The event of the threads behind an event of the daemon, if there is one. */
  function ThreadEvent(e: Event): Option<T.Event> {
    match e
    case Control(e) => Some(e)
    case Accept(_) => Some(T.Accept)
    case Finish(w) => Some(T.Over(w))
    case GiveUp(w) => Some(T.Over(w))
    case _ => None
  }

  /** The daemon's threads do just what the threads alone can do. */
  lemma ThreadsMove(s: State, e: Event, unpack: Unpack)
    requires Shaped(s) && Enabled(s, e, unpack)
    ensures match ThreadEvent(e)
            case Some(te) => T.Enabled(s.threads, te) && Next(s, e, unpack).threads == T.Next(s.threads, te)
            case None => Next(s, e, unpack).threads == s.threads
  {
  }

  lemma ThreadsKeep(s: State, e: Event, unpack: Unpack)
    requires Shaped(s) && T.Inv(s.threads) && Enabled(s, e, unpack)
    ensures T.Inv(Next(s, e, unpack).threads)
    ensures |Next(s, e, unpack).threads.workers| == |s.threads.workers|
    ensures s.threads.over <= Next(s, e, unpack).threads.over
  {
    ThreadsMove(s, e, unpack);
    if ThreadEvent(e).Some? {
      T.InvStep(s.threads, ThreadEvent(e).value);
      T.WorkersStep(s.threads, ThreadEvent(e).value);
    }
  }

  lemma ShapedStep(s: State, e: Event, unpack: Unpack)
    requires Shaped(s) && T.Inv(s.threads) && Enabled(s, e, unpack)
    ensures Shaped(Next(s, e, unpack))
  {
    ThreadsMove(s, e, unpack);
    ThreadsKeep(s, e, unpack);
  }

  /** The daemon itself changes no staging file, and forgets no name. */
  lemma FilesKept(s: State, e: Event, unpack: Unpack)
    requires Shaped(s) && Enabled(s, e, unpack) && !e.Stage?
    ensures Next(s, e, unpack).dir == s.dir
    ensures Next(s, e, unpack).names == if e.Accept? then s.names + [e.name] else s.names
  {
  }

  // ----- replays of files that are left alone -----

  /** What each accepted name was sent for is still in its staging file, until its worker is done with it. */
  ghost predicate Intact(s: State, jobs: seq<Job>, unpack: Unpack) {
    && |jobs| == |s.names|
    && forall id: nat :: id < |jobs| && id !in s.threads.over ==> JobOf(s.dir, s.names[id], unpack) == Some(jobs[id])
  }

  /** A worker at place p holds the job's view and its next bytes, whole etypes of them. */
  ghost predicate Reads(r: Reading, j: Job, p: nat)
    requires GoodJob(j)
  {
    && r.dest == j.dest && r.view == j.view && r.etypeSize == j.etypeSize
    && p + |r.buffer| <= Limit(j) && r.buffer == j.bytes[p..p + |r.buffer|]
    && (p + |r.buffer|) % j.etypeSize == 0
  }

  /** A job not opened has not begun, one held is read from, and one over and not given up is replayed to the end. */
  ghost predicate JobProgress(s: State, j: Job, id: nat)
    requires Shaped(s) && GoodJob(j) && id < |s.names|
  {
    && s.progress[id] <= Limit(j)
    && (|s.threads.taken| <= id ==> id !in s.held)
    && (id !in s.held ==> s.progress[id] == 0)
    && (id in s.held && id !in s.threads.over ==> Reads(s.held[id], j, s.progress[id]))
    && (id in s.threads.over && id !in s.gaveUp ==> s.progress[id] == Limit(j))
  }

  ghost predicate ProgressInv(s: State, jobs: seq<Job>) {
    && Shaped(s) && GoodJobs(jobs) && |jobs| == |s.names|
    && forall id: nat :: id < |jobs| ==> JobProgress(s, jobs[id], id)
  }

  /** The disk is what the jobs' written bytes leave, taken job after job. */
  ghost predicate DiskInv(s: State, jobs: seq<Job>, disk: Disk)
    requires ProgressInv(s, jobs)
  {
    s.disk == ReplayAll(disk, jobs, s.progress)
  }

  /** A buffer never takes a job past its whole etypes, and keeps its place on an etype boundary. */
  lemma ChunkStaysWithin(j: Job, p: nat)
    requires GoodJob(j) && p <= Limit(j) && p % j.etypeSize == 0
    ensures var n := ChunkSize(|j.bytes| - p, j.etypeSize);
            && p + n <= Limit(j) && (p + n) % j.etypeSize == 0
            && (n == 0 ==> p == Limit(j))
  {
    var n := ChunkSize(|j.bytes| - p, j.etypeSize);
    MultipleSum(p, n, j.etypeSize);
    if Limit(j) < p + n {
      MultipleGap(Limit(j), p + n, j.etypeSize);
    }
    if n == 0 {
      WholeIsUnique(|j.bytes|, p, j.etypeSize);
    }
  }

  /**
   * A worker whose staging file cannot be read, as it is now, can do nothing
   * about its job but skip it, and that it can: the job is over, nothing is
   * written.
   */
  lemma UnreadableIsSkipped(s: State, w: nat, unpack: Unpack)
    requires Shaped(s) && T.Inv(s.threads) && T.IsBusy(s.threads, w) && !Holding(s, w)
    requires JobOf(s.dir, s.names[Current(s, w)], unpack).None?
    ensures Enabled(s, GiveUp(w), unpack)
    ensures forall e :: Enabled(s, e, unpack) && IsAbout(s, e, Current(s, w)) ==> e == GiveUp(w)
    ensures var t := Next(s, GiveUp(w), unpack);
            && t.disk == s.disk && t.dir == s.dir && t.progress == s.progress && t.names == s.names
            && Current(s, w) in t.threads.over && t.threads.workers[w] == T.AtDequeue
  {
  }

  /** A worker that reads on from a file left alone reads its job's bytes. */
  lemma FetchReads(s: State, jobs: seq<Job>, w: nat, unpack: Unpack)
    requires T.Inv(s.threads) && ProgressInv(s, jobs) && Intact(s, jobs, unpack)
    requires Holding(s, w) && s.held[Current(s, w)].buffer == []
    ensures var id := Current(s, w);
            && s.names[id] in s.dir && Bytes(s.dir[s.names[id]].data) == jobs[id].bytes
            && FetchSize(s, w) == ChunkSize(|jobs[id].bytes| - s.progress[id], jobs[id].etypeSize)
            && s.progress[id] + FetchSize(s, w) <= Limit(jobs[id])
            && (s.progress[id] + FetchSize(s, w)) % jobs[id].etypeSize == 0
            && (FetchSize(s, w) == 0 ==> s.progress[id] == Limit(jobs[id]))
  {
    var id := Current(s, w);
    assert JobProgress(s, jobs[id], id) && id !in s.threads.over;
    ChunkStaysWithin(jobs[id], s.progress[id]);
  }

  /** Nothing about the job differs. */
  lemma JobKept(s: State, t: State, j: Job, id: nat)
    requires Shaped(s) && Shaped(t) && GoodJob(j) && id < |s.names| && id < |t.names| && JobProgress(s, j, id)
    requires t.progress[id] == s.progress[id] && |s.threads.taken| <= |t.threads.taken|
    requires id in t.held <==> id in s.held
    requires id in s.held ==> t.held[id] == s.held[id]
    requires id in t.threads.over <==> id in s.threads.over
    requires id in s.gaveUp ==> id in t.gaveUp
    ensures JobProgress(t, j, id)
  {
  }

  lemma OpenProgress(s: State, j: Job, w: nat, unpack: Unpack)
    requires Shaped(s) && T.Inv(s.threads) && GoodJob(j) && Enabled(s, Open(w), unpack)
    requires JobProgress(s, j, Current(s, w)) && JobOf(s.dir, s.names[Current(s, w)], unpack) == Some(j)
    ensures Shaped(Next(s, Open(w), unpack)) && JobProgress(Next(s, Open(w), unpack), j, Current(s, w))
  {
    ShapedStep(s, Open(w), unpack);
  }

  lemma FetchProgress(s: State, jobs: seq<Job>, w: nat, unpack: Unpack)
    requires T.Inv(s.threads) && ProgressInv(s, jobs) && Intact(s, jobs, unpack) && Enabled(s, Fetch(w), unpack)
    ensures var t, id := Next(s, Fetch(w), unpack), Current(s, w); Shaped(t) && JobProgress(t, jobs[id], id)
  {
    var id := Current(s, w);
    ShapedStep(s, Fetch(w), unpack);
    FetchReads(s, jobs, w, unpack);
    assert JobProgress(s, jobs[id], id);
  }

  lemma PutProgress(s: State, j: Job, w: nat, n: nat, unpack: Unpack)
    requires Shaped(s) && T.Inv(s.threads) && GoodJob(j) && Enabled(s, Put(w, n), unpack)
    requires JobProgress(s, j, Current(s, w))
    ensures Shaped(Next(s, Put(w, n), unpack)) && JobProgress(Next(s, Put(w, n), unpack), j, Current(s, w))
  {
    var id := Current(s, w);
    var r, p := s.held[id], s.progress[id];
    ShapedStep(s, Put(w, n), unpack);
    assert id !in s.threads.over && Reads(r, j, p);
    RestIsRead(r, j, p, n);
  }

  lemma RestIsRead(r: Reading, j: Job, p: nat, n: nat)
    requires GoodJob(j) && Reads(r, j, p) && n <= |r.buffer|
    ensures p + n <= |j.bytes| && r.buffer[..n] == j.bytes[p..p + n]
    ensures Reads(r.(buffer := r.buffer[n..]), j, p + n)
  {
    assert r.buffer[n..] == j.bytes[p + n..p + |r.buffer|];
    assert p + n + |r.buffer[n..]| == p + |r.buffer|;
  }

  lemma FinishProgress(s: State, jobs: seq<Job>, w: nat, unpack: Unpack)
    requires T.Inv(s.threads) && ProgressInv(s, jobs) && Intact(s, jobs, unpack) && Enabled(s, Finish(w), unpack)
    ensures var t, id := Next(s, Finish(w), unpack), Current(s, w); Shaped(t) && JobProgress(t, jobs[id], id)
  {
    var id := Current(s, w);
    ShapedStep(s, Finish(w), unpack);
    assert JobProgress(s, jobs[id], id);
    FetchReads(s, jobs, w, unpack);
  }

  lemma GiveUpProgress(s: State, j: Job, w: nat, unpack: Unpack)
    requires Shaped(s) && T.Inv(s.threads) && GoodJob(j) && Enabled(s, GiveUp(w), unpack)
    requires JobProgress(s, j, Current(s, w))
    ensures Shaped(Next(s, GiveUp(w), unpack)) && JobProgress(Next(s, GiveUp(w), unpack), j, Current(s, w))
  {
    ShapedStep(s, GiveUp(w), unpack);
  }

  /** The job an event is about. */
  ghost predicate IsAbout(s: State, e: Event, id: nat) {
    match e
    case Open(w) => T.IsBusy(s.threads, w) && Current(s, w) == id
    case Fetch(w) => T.IsBusy(s.threads, w) && Current(s, w) == id
    case Put(w, _) => T.IsBusy(s.threads, w) && Current(s, w) == id
    case Finish(w) => T.IsBusy(s.threads, w) && Current(s, w) == id
    case GiveUp(w) => T.IsBusy(s.threads, w) && Current(s, w) == id
    case _ => false
  }

  lemma OwnJobKept(s: State, jobs: seq<Job>, e: Event, id: nat, unpack: Unpack)
    requires T.Inv(s.threads) && ProgressInv(s, jobs) && Intact(s, jobs, unpack) && Enabled(s, e, unpack)
    requires id < |jobs| && IsAbout(s, e, id)
    ensures Shaped(Next(s, e, unpack)) && JobProgress(Next(s, e, unpack), jobs[id], id)
  {
    assert JobProgress(s, jobs[id], id);
    match e
    case Open(w) => OpenProgress(s, jobs[id], w, unpack);
    case Fetch(w) => FetchProgress(s, jobs, w, unpack);
    case Put(w, n) => PutProgress(s, jobs[id], w, n, unpack);
    case Finish(w) => FinishProgress(s, jobs, w, unpack);
    case GiveUp(w) => GiveUpProgress(s, jobs[id], w, unpack);
  }

  lemma OtherJobKept(s: State, e: Event, j: Job, id: nat, unpack: Unpack)
    requires T.Inv(s.threads) && Shaped(s) && GoodJob(j) && id < |s.names| && JobProgress(s, j, id)
    requires Enabled(s, e, unpack) && !IsAbout(s, e, id)
    ensures Shaped(Next(s, e, unpack)) && JobProgress(Next(s, e, unpack), j, id)
  {
    ShapedStep(s, e, unpack);
    ThreadsMove(s, e, unpack);
    JobKept(s, Next(s, e, unpack), j, id);
  }

  lemma ProgressStep(s: State, jobs: seq<Job>, e: Event, unpack: Unpack)
    requires T.Inv(s.threads) && ProgressInv(s, jobs) && Intact(s, jobs, unpack) && Enabled(s, e, unpack) && !e.Accept?
    ensures ProgressInv(Next(s, e, unpack), jobs)
  {
    ShapedStep(s, e, unpack);
    forall id: nat | id < |jobs|
      ensures JobProgress(Next(s, e, unpack), jobs[id], id)
    {
      if IsAbout(s, e, id) {
        OwnJobKept(s, jobs, e, id, unpack);
      } else {
        OtherJobKept(s, e, jobs[id], id, unpack);
      }
    }
  }

  lemma AcceptProgress(s: State, jobs: seq<Job>, name: string, job: Job, unpack: Unpack)
    requires T.Inv(s.threads) && ProgressInv(s, jobs) && GoodJob(job) && Enabled(s, Accept(name), unpack)
    ensures ProgressInv(Next(s, Accept(name), unpack), jobs + [job])
  {
    var t := Next(s, Accept(name), unpack);
    ShapedStep(s, Accept(name), unpack);
    forall id: nat | id < |jobs|
      ensures JobProgress(t, (jobs + [job])[id], id)
    {
      OtherJobKept(s, Accept(name), jobs[id], id, unpack);
    }
  }

  ghost predicate AllDisjoint(jobs: seq<Job>)
    requires GoodJobs(jobs)
  {
    forall i, j :: 0 <= i < j < |jobs| ==> Disjoint(jobs[i], jobs[j])
  }

  /** Either one worker, busy with the last job handed out, or jobs that do not meet. */
  ghost predicate Unordered(s: State, jobs: seq<Job>)
    requires GoodJobs(jobs)
  {
    T.OneAtATime(s.threads) || AllDisjoint(jobs)
  }

  lemma AcceptKeepsDisk(s: State, jobs: seq<Job>, disk: Disk, name: string, job: Job, unpack: Unpack)
    requires T.Inv(s.threads) && ProgressInv(s, jobs) && DiskInv(s, jobs, disk)
    requires GoodJob(job) && Enabled(s, Accept(name), unpack)
    ensures var t := Next(s, Accept(name), unpack); ProgressInv(t, jobs + [job]) && DiskInv(t, jobs + [job], disk)
  {
    var t, n := Next(s, Accept(name), unpack), |jobs|;
    AcceptProgress(s, jobs, name, job, unpack);
    assert (jobs + [job])[..n] == jobs && t.progress[..n] == s.progress;
    assert ReplayTo(s.disk, job, 0) == s.disk;
  }

  /** Jobs after the one a worker writes have not begun, or do not meet it. */
  lemma LaterOutOfTheWay(s: State, jobs: seq<Job>, w: nat)
    requires T.Inv(s.threads) && ProgressInv(s, jobs) && Unordered(s, jobs) && T.IsBusy(s.threads, w)
    ensures OutOfTheWay(jobs, s.progress, Current(s, w))
  {
    var id := Current(s, w);
    forall k | id < k < |jobs|
      ensures s.progress[k] == 0 || Disjoint(jobs[id], jobs[k])
    {
      assert JobProgress(s, jobs[k], k);
    }
  }

  /** The bytes put go where the job's next bytes go. */
  lemma PutContinues(s: State, j: Job, w: nat, n: nat, unpack: Unpack)
    requires Shaped(s) && T.Inv(s.threads) && GoodJob(j) && Enabled(s, Put(w, n), unpack)
    requires JobProgress(s, j, Current(s, w))
    ensures var t, id := Next(s, Put(w, n), unpack), Current(s, w);
            && s.progress[id] + n <= |j.bytes| && t.progress == Advance(s.progress, id, n)
            && t.disk == Continue(s.disk, j, s.progress[id], n)
  {
    var id := Current(s, w);
    assert id !in s.threads.over;
    RestIsRead(s.held[id], j, s.progress[id], n);
  }

  lemma PutKeepsDisk(s: State, jobs: seq<Job>, disk: Disk, w: nat, n: nat, unpack: Unpack)
    requires T.Inv(s.threads) && ProgressInv(s, jobs) && DiskInv(s, jobs, disk)
    requires Enabled(s, Put(w, n), unpack) && Unordered(s, jobs) && ProgressInv(Next(s, Put(w, n), unpack), jobs)
    ensures DiskInv(Next(s, Put(w, n), unpack), jobs, disk)
  {
    var id := Current(s, w);
    assert JobProgress(s, jobs[id], id);
    PutContinues(s, jobs[id], w, n, unpack);
    LaterOutOfTheWay(s, jobs, w);
    ChunkInItsTurn(disk, jobs, s.progress, id, n);
  }

  lemma DiskStep(s: State, jobs: seq<Job>, disk: Disk, e: Event, unpack: Unpack)
    requires T.Inv(s.threads) && ProgressInv(s, jobs) && DiskInv(s, jobs, disk) && Intact(s, jobs, unpack)
    requires Enabled(s, e, unpack) && !e.Accept? && Unordered(s, jobs)
    ensures ProgressInv(Next(s, e, unpack), jobs) && DiskInv(Next(s, e, unpack), jobs, disk)
  {
    ProgressStep(s, jobs, e, unpack);
    if e.Put? {
      PutKeepsDisk(s, jobs, disk, e.w, e.n, unpack);
    }
  }

  // ----- runs -----

  /** Each event of the run is enabled where it happens. */
  ghost predicate Legal(s: State, es: seq<Event>, unpack: Unpack)
    decreases |es|, 0
  {
    es == [] ||
    var front := es[..|es| - 1];
    && Legal(s, front, unpack) && Shaped(After(s, front, unpack))
    && Enabled(After(s, front, unpack), es[|es| - 1], unpack)
  }

  ghost function After(s: State, es: seq<Event>, unpack: Unpack): State
    requires Legal(s, es, unpack)
    decreases |es|, 1
  {
    if es == [] then s else Next(After(s, es[..|es| - 1], unpack), es[|es| - 1], unpack)
  }

  /** At every moment of the run the staging files of the jobs still under way are as they were sent. */
  ghost predicate Undisturbed(s: State, es: seq<Event>, jobs: seq<Job>, unpack: Unpack)
    requires Legal(s, es, unpack)
  {
    var n := |After(s, es, unpack).names|;
    && n <= |jobs| && Intact(After(s, es, unpack), jobs[..n], unpack)
    && (es != [] ==> Undisturbed(s, es[..|es| - 1], jobs, unpack))
  }

  /** The threads of every run keep their invariant, and a single worker takes one job at a time. */
  lemma {:induction false} ThreadsOfRun(n: nat, dir: Dir, disk: Disk, es: seq<Event>, unpack: Unpack)
    requires Legal(Init(n, dir, disk), es, unpack)
    ensures var s := After(Init(n, dir, disk), es, unpack);
            Shaped(s) && T.Inv(s.threads) && |s.threads.workers| == n && (n == 1 ==> T.OneAtATime(s.threads))
    decreases |es|
  {
    if es == [] {
      T.InitInv(n);
    } else {
      var front, e := es[..|es| - 1], es[|es| - 1];
      var s := After(Init(n, dir, disk), front, unpack);
      ThreadsOfRun(n, dir, disk, front, unpack);
      ShapedStep(s, e, unpack);
      ThreadsKeep(s, e, unpack);
      OneWorkerKeeps(s, e, unpack);
    }
  }

  lemma OneWorkerKeeps(s: State, e: Event, unpack: Unpack)
    requires Shaped(s) && T.Inv(s.threads) && Enabled(s, e, unpack)
    requires |s.threads.workers| == 1 ==> T.OneAtATime(s.threads)
    ensures |s.threads.workers| == 1 ==> T.OneAtATime(Next(s, e, unpack).threads)
  {
    ThreadsMove(s, e, unpack);
    if |s.threads.workers| == 1 && ThreadEvent(e).Some? {
      T.OneWorkerStep(s.threads, ThreadEvent(e).value);
    }
  }

  /** One event: a name that arrives brings one more job. */
  lemma ConfluentOn(s: State, disk: Disk, e: Event, jobs: seq<Job>, jobs': seq<Job>, unpack: Unpack)
    requires T.Inv(s.threads) && ProgressInv(s, jobs) && DiskInv(s, jobs, disk) && Intact(s, jobs, unpack)
    requires Unordered(s, jobs) && Enabled(s, e, unpack) && GoodJobs(jobs')
    requires if e.Accept? then |jobs'| == |jobs| + 1 && jobs'[..|jobs|] == jobs else jobs' == jobs
    ensures ProgressInv(Next(s, e, unpack), jobs') && DiskInv(Next(s, e, unpack), jobs', disk)
  {
    if e.Accept? {
      assert jobs' == jobs + [jobs'[|jobs|]];
      AcceptKeepsDisk(s, jobs, disk, e.name, jobs'[|jobs|], unpack);
    } else {
      DiskStep(s, jobs, disk, e, unpack);
    }
  }

  lemma NamesAfter(s: State, e: Event, unpack: Unpack)
    requires Shaped(s) && Enabled(s, e, unpack)
    ensures |Next(s, e, unpack).names| == |s.names| + if e.Accept? then 1 else 0
  {
    if !e.Stage? {
      FilesKept(s, e, unpack);
    }
  }

  lemma ConfluentNext(s: State, disk: Disk, e: Event, jobs: seq<Job>, jobs': seq<Job>, unpack: Unpack)
    requires T.Inv(s.threads) && ProgressInv(s, jobs) && DiskInv(s, jobs, disk) && Intact(s, jobs, unpack)
    requires GoodJobs(jobs') && |s.names| <= |jobs'| && jobs'[..|s.names|] == jobs
    requires Unordered(s, jobs') && Enabled(s, e, unpack) && |Next(s, e, unpack).names| == |jobs'|
    ensures ProgressInv(Next(s, e, unpack), jobs') && DiskInv(Next(s, e, unpack), jobs', disk)
  {
    NamesAfter(s, e, unpack);
    assert !e.Accept? ==> jobs' == jobs;
    ConfluentOn(s, disk, e, jobs, jobs', unpack);
  }

  /**
   * At every moment of every run, with one worker or with jobs that do not
   * meet, the disk is as if the jobs had been replayed, as far as they have
   * come, one after another in the order they were accepted.
   */
  lemma {:induction false} ReplayIsConfluent(
    n: nat, dir: Dir, disk: Disk, es: seq<Event>, jobs: seq<Job>, unpack: Unpack)
    requires Legal(Init(n, dir, disk), es, unpack) && GoodJobs(jobs)
    requires Undisturbed(Init(n, dir, disk), es, jobs, unpack)
    requires n == 1 || AllDisjoint(jobs)
    ensures var s := After(Init(n, dir, disk), es, unpack);
            ProgressInv(s, jobs[..|s.names|]) && DiskInv(s, jobs[..|s.names|], disk)
    decreases |es|
  {
    if es == [] {
      NothingReplayed(disk, [], []);
    } else {
      var front := es[..|es| - 1];
      ThreadsOfRun(n, dir, disk, front, unpack);
      ReplayIsConfluent(n, dir, disk, front, jobs, unpack);
      var s, e := After(Init(n, dir, disk), front, unpack), es[|es| - 1];
      NamesAfter(s, e, unpack);
      var m := |Next(s, e, unpack).names|;
      assert jobs[..m][..|s.names|] == jobs[..|s.names|];
      ConfluentNext(s, disk, e, jobs[..|s.names|], jobs[..m], unpack);
    }
  }

  /** Workers joined and nothing given up: every job is replayed to its end. */
  lemma JoinedIsComplete(s: State, jobs: seq<Job>)
    requires T.Inv(s.threads) && ProgressInv(s, jobs) && |s.threads.workers| > 0
    requires T.Joined(s.threads) && s.gaveUp == {}
    ensures s.progress == Limits(jobs)
  {
    assert s.threads.workers[0] == T.Exited;
    T.QuietIsDrained(s.threads);
  }

  /** Joined, with no job skipped or broken off: the disk is that of the jobs run one after another. */
  lemma JoinedIsReplayed(n: nat, dir: Dir, disk: Disk, es: seq<Event>, jobs: seq<Job>, unpack: Unpack)
    requires n > 0 && Legal(Init(n, dir, disk), es, unpack) && GoodJobs(jobs)
    requires Undisturbed(Init(n, dir, disk), es, jobs, unpack)
    requires n == 1 || AllDisjoint(jobs)
    requires T.Joined(After(Init(n, dir, disk), es, unpack).threads) && After(Init(n, dir, disk), es, unpack).gaveUp == {}
    requires |After(Init(n, dir, disk), es, unpack).names| == |jobs|
    ensures After(Init(n, dir, disk), es, unpack).disk == RunInOrder(disk, jobs)
  {
    var s := After(Init(n, dir, disk), es, unpack);
    ThreadsOfRun(n, dir, disk, es, unpack);
    ReplayIsConfluent(n, dir, disk, es, jobs, unpack);
    assert jobs[..|jobs|] == jobs;
    JoinedIsComplete(s, jobs);
  }
}
