/**
 * Nothing ever stands in the way of a run: wherever the machine is, what was
 * handed over can still be delivered, replayed to its last byte and joined.
 */
module Completion {
  import opened Disk
  import opened EndToEnd
  import opened Shutdown
  import opened Worker
  import opened Wrappers
  import D = Daemon
  import H = Handle
  import N = Node
  import Q = JobQueue
  import T = Threads

  // ----- one worker and its job -----

  /** A daemon whose workers read their own jobs' bytes, from files that are left alone. */
  ghost predicate Good(s: D.State, jobs: seq<Job>, unpack: Unpack) {
    D.ProgressInv(s, jobs) && T.Inv(s.threads) && D.Intact(s, jobs, unpack)
  }

  /** What the daemon does by itself, as it should: nothing is skipped or broken off. */
  predicate Own(e: D.Event) {
    e.Control? || e.Open? || e.Fetch? || e.Put? || e.Finish?
  }

  predicate AllOwn(es: seq<D.Event>) {
    forall k :: 0 <= k < |es| ==> Own(es[k])
  }

  /** The same names, files and skipped jobs, and as many workers. */
  ghost predicate Kept(s: D.State, t: D.State) {
    && t.names == s.names && t.dir == s.dir && t.gaveUp == s.gaveUp
    && |t.threads.workers| == |s.threads.workers|
  }

  lemma OwnStep(s: D.State, jobs: seq<Job>, e: D.Event, unpack: Unpack)
    requires Good(s, jobs, unpack) && D.Enabled(s, e, unpack) && Own(e)
    ensures Good(D.Next(s, e, unpack), jobs, unpack) && Kept(s, D.Next(s, e, unpack))
  {
    D.ProgressStep(s, jobs, e, unpack);
    D.ThreadsKeep(s, e, unpack);
    D.FilesKept(s, e, unpack);
  }

  /** How far worker w is from the end of its job: each byte is read and written, and the file is opened once. */
  ghost function ToReplay(s: D.State, jobs: seq<Job>, w: nat): (n: nat)
    requires D.ProgressInv(s, jobs) && T.IsBusy(s.threads, w)
  {
    var id := D.Current(s, w);
    var bytes := 2 * (Limit(jobs[id]) - s.progress[id]) - if id in s.held then |s.held[id].buffer| else 0;
    if id !in s.held then 2 * Limit(jobs[id]) + 1 else if bytes < 0 then 0 else bytes
  }

  lemma BusyIsUnderWay(s: D.State, jobs: seq<Job>, w: nat)
    requires D.ProgressInv(s, jobs) && T.Inv(s.threads) && T.IsBusy(s.threads, w)
    ensures D.Current(s, w) < |jobs| && D.Current(s, w) !in s.threads.over
    ensures D.JobProgress(s, jobs[D.Current(s, w)], D.Current(s, w))
  {
  }

  /** What a busy worker does next: it opens its file, reads, writes all it has read, or is at the end. */
  ghost function NextOfWorker(s: D.State, w: nat): D.Event
    requires D.Shaped(s) && T.IsBusy(s.threads, w)
  {
    if !D.Holding(s, w) then D.Open(w)
    else if s.held[D.Current(s, w)].buffer != [] then D.Put(w, |s.held[D.Current(s, w)].buffer|)
    else if D.FetchSize(s, w) > 0 then D.Fetch(w)
    else D.Finish(w)
  }

  lemma NeverStuck(s: D.State, jobs: seq<Job>, w: nat, unpack: Unpack)
    requires Good(s, jobs, unpack) && T.IsBusy(s.threads, w)
    ensures D.Enabled(s, NextOfWorker(s, w), unpack) && Own(NextOfWorker(s, w))
  {
    BusyIsUnderWay(s, jobs, w);
  }

  /** Short of the end, each step brings the job nearer to it. */
  lemma OpenComesNearer(s: D.State, jobs: seq<Job>, w: nat, unpack: Unpack)
    requires D.ProgressInv(s, jobs) && D.Enabled(s, D.Open(w), unpack)
    requires D.ProgressInv(D.Next(s, D.Open(w), unpack), jobs)
    ensures ToReplay(D.Next(s, D.Open(w), unpack), jobs, w) < ToReplay(s, jobs, w)
  {
  }

  lemma FetchComesNearer(s: D.State, jobs: seq<Job>, w: nat, unpack: Unpack)
    requires Good(s, jobs, unpack) && D.Enabled(s, D.Fetch(w), unpack)
    requires D.ProgressInv(D.Next(s, D.Fetch(w), unpack), jobs)
    ensures ToReplay(D.Next(s, D.Fetch(w), unpack), jobs, w) < ToReplay(s, jobs, w)
  {
    BusyIsUnderWay(s, jobs, w);
    D.FetchReads(s, jobs, w, unpack);
  }

  lemma PutComesNearer(s: D.State, jobs: seq<Job>, w: nat, n: nat, unpack: Unpack)
    requires Good(s, jobs, unpack) && D.Enabled(s, D.Put(w, n), unpack)
    requires D.ProgressInv(D.Next(s, D.Put(w, n), unpack), jobs)
    ensures ToReplay(D.Next(s, D.Put(w, n), unpack), jobs, w) < ToReplay(s, jobs, w)
  {
    BusyIsUnderWay(s, jobs, w);
  }

  lemma ComesNearer(s: D.State, jobs: seq<Job>, w: nat, unpack: Unpack)
    requires Good(s, jobs, unpack) && T.IsBusy(s.threads, w)
    requires D.Enabled(s, NextOfWorker(s, w), unpack) && !NextOfWorker(s, w).Finish?
    requires D.ProgressInv(D.Next(s, NextOfWorker(s, w), unpack), jobs)
    ensures var t := D.Next(s, NextOfWorker(s, w), unpack);
            t.threads == s.threads && ToReplay(t, jobs, w) < ToReplay(s, jobs, w)
  {
    match NextOfWorker(s, w)
    case Open(_) => OpenComesNearer(s, jobs, w, unpack);
    case Fetch(_) => FetchComesNearer(s, jobs, w, unpack);
    case Put(_, n) => PutComesNearer(s, jobs, w, n, unpack);
  }

  // ----- the daemon's own runs -----

  /** One run and then another are one run. */
  lemma {:induction false} RunsJoin(s: D.State, a: seq<D.Event>, b: seq<D.Event>, unpack: Unpack)
    requires D.Legal(s, a, unpack) && D.Legal(D.After(s, a, unpack), b, unpack)
    ensures D.Legal(s, a + b, unpack) && D.After(s, a + b, unpack) == D.After(D.After(s, a, unpack), b, unpack)
    decreases |b|
  {
    if b == [] {
      assert a + b == a;
    } else {
      RunsJoin(s, a, b[..|b| - 1], unpack);
      assert (a + b)[..|a + b| - 1] == a + b[..|b| - 1];
    }
  }

  lemma OneEvent(s: D.State, e: D.Event, unpack: Unpack)
    requires D.Shaped(s) && D.Enabled(s, e, unpack)
    ensures D.Legal(s, [e], unpack) && D.After(s, [e], unpack) == D.Next(s, e, unpack)
  {
    var none: seq<D.Event> := [];
    assert [e][..|[e]| - 1] == none;
    assert D.Legal(s, none, unpack) && D.After(s, none, unpack) == s;
  }

  /** The daemon's own events es lead from s to t. */
  ghost predicate Leads(s: D.State, es: seq<D.Event>, t: D.State, unpack: Unpack) {
    D.Legal(s, es, unpack) && AllOwn(es) && D.After(s, es, unpack) == t
  }

  lemma LeadsOn(s: D.State, e: D.Event, rest: seq<D.Event>, t: D.State, unpack: Unpack)
    requires D.Shaped(s) && D.Enabled(s, e, unpack) && Own(e) && Leads(D.Next(s, e, unpack), rest, t, unpack)
    ensures Leads(s, [e] + rest, t, unpack)
  {
    OneEvent(s, e, unpack);
    RunsJoin(s, [e], rest, unpack);
  }

  /** A busy worker can replay its job to the last byte and be done with it, whatever the others do not do meanwhile. */
  lemma {:induction false} WorkerCanFinish(s: D.State, jobs: seq<Job>, w: nat, unpack: Unpack)
    returns (es: seq<D.Event>, t: D.State)
    requires Good(s, jobs, unpack) && T.IsBusy(s.threads, w)
    ensures Leads(s, es, t, unpack) && Good(t, jobs, unpack) && Kept(s, t)
    ensures T.Enabled(s.threads, T.Over(w)) && t.threads == T.Next(s.threads, T.Over(w))
    decreases ToReplay(s, jobs, w)
  {
    var e := NextOfWorker(s, w);
    NeverStuck(s, jobs, w, unpack);
    OwnStep(s, jobs, e, unpack);
    var next := D.Next(s, e, unpack);
    if e.Finish? {
      OneEvent(s, e, unpack);
      es, t := [e], next;
    } else {
      ComesNearer(s, jobs, w, unpack);
      var rest;
      rest, t := WorkerCanFinish(next, jobs, w, unpack);
      LeadsOn(s, e, rest, t, unpack);
      es := [e] + rest;
    }
  }

  lemma LeadsJoin(s: D.State, a: seq<D.Event>, t: D.State, b: seq<D.Event>, u: D.State, unpack: Unpack)
    requires Leads(s, a, t, unpack) && Leads(t, b, u, unpack)
    ensures Leads(s, a + b, u, unpack)
  {
    RunsJoin(s, a, b, unpack);
  }

  /** A worker that has not returned can make its next step, be it a whole job. */
  lemma WorkerCanMove(s: D.State, jobs: seq<Job>, w: nat, unpack: Unpack) returns (es: seq<D.Event>, t: D.State)
    requires Good(s, jobs, unpack) && w < |s.threads.workers| && s.threads.workers[w] != T.Exited
    ensures Leads(s, es, t, unpack) && Good(t, jobs, unpack) && Kept(s, t)
    ensures T.Enabled(s.threads, NextOf(s.threads, w)) && t.threads == T.Next(s.threads, NextOf(s.threads, w))
  {
    if T.IsBusy(s.threads, w) {
      es, t := WorkerCanFinish(s, jobs, w, unpack);
    } else {
      var e := D.Control(NextOf(s.threads, w));
      OneEvent(s, e, unpack);
      OwnStep(s, jobs, e, unpack);
      es, t := [e], D.Next(s, e, unpack);
    }
  }

  /** With the flag set, worker after worker can come to its end. */
  lemma {:induction false} CanDrain(s: D.State, jobs: seq<Job>, unpack: Unpack) returns (es: seq<D.Event>, t: D.State)
    requires Good(s, jobs, unpack) && s.threads.shutting
    ensures Leads(s, es, t, unpack) && Good(t, jobs, unpack) && Kept(s, t) && T.Joined(t.threads)
    decreases Left(s.threads)
  {
    if T.Joined(s.threads) {
      es, t := [], s;
    } else {
      var w: nat :| w < |s.threads.workers| && s.threads.workers[w] != T.Exited;
      var first, next := WorkerCanMove(s, jobs, w, unpack);
      EventCounts(s.threads, NextOf(s.threads, w));
      var rest;
      rest, t := CanDrain(next, jobs, unpack);
      LeadsJoin(s, first, next, rest, t, unpack);
      es := first + rest;
    }
  }

  // ----- the whole machine -----

  /** The workers keep reading their own jobs' bytes in every orderly run, whether jobs meet or not. */
  lemma ProgressNext(s: N.State, e: N.Event, unpack: Unpack)
    requires N.Inv(s, unpack) && N.Enabled(s, e, unpack) && N.Orderly(s, e, unpack)
    requires D.ProgressInv(s.daemon, N.Jobs(s, unpack)) && N.TicketInv(N.Next(s, e, unpack), unpack)
    ensures D.ProgressInv(N.Next(s, e, unpack).daemon, N.Jobs(N.Next(s, e, unpack), unpack))
  {
    var t, de := N.Next(s, e, unpack), N.DaemonEvent(s, e, unpack);
    N.DaemonMoves(s, e, unpack);
    N.JobsKept(s, e, unpack);
    N.LiveFilesAreIntact(s, unpack);
    N.NamesGrow(s, e, unpack);
    NextProgress(s.daemon, de, N.Jobs(s, unpack), N.Jobs(t, unpack), unpack);
  }

  lemma NextProgress(s: D.State, e: D.Event, jobs: seq<Job>, jobs': seq<Job>, unpack: Unpack)
    requires Good(s, jobs, unpack) && D.Enabled(s, e, unpack) && GoodJobs(jobs')
    requires |jobs'| == |jobs| + (if e.Accept? then 1 else 0) && jobs'[..|jobs|] == jobs
    ensures D.ProgressInv(D.Next(s, e, unpack), jobs')
  {
    if e.Accept? {
      assert jobs' == jobs + [jobs'[|jobs|]];
      D.AcceptProgress(s, jobs, e.name, jobs'[|jobs|], unpack);
    } else {
      assert jobs' == jobs;
      D.ProgressStep(s, jobs, e, unpack);
    }
  }

  lemma {:induction false} RunKeepsProgress(n: nat, dir: D.Dir, disk: Disk, es: seq<N.Event>, unpack: Unpack)
    requires N.Legal(N.Init(n, dir, disk), es, unpack) && N.OrderlyRun(N.Init(n, dir, disk), es, unpack)
    ensures var s := N.After(N.Init(n, dir, disk), es, unpack);
            N.TicketInv(s, unpack) && D.ProgressInv(s.daemon, N.Jobs(s, unpack))
    decreases |es|
  {
    N.RunKeepsInv(n, dir, disk, es, unpack);
    if es == [] {
      assert N.Jobs(N.Init(n, dir, disk), unpack) == [];
    } else {
      var front := es[..|es| - 1];
      N.RunKeepsInv(n, dir, disk, front, unpack);
      RunKeepsProgress(n, dir, disk, front, unpack);
      ProgressNext(N.After(N.Init(n, dir, disk), front, unpack), es[|es| - 1], unpack);
    }
  }

  /** The orderly events es lead from s to t. */
  ghost predicate Brings(s: N.State, es: seq<N.Event>, t: N.State, unpack: Unpack) {
    N.Legal(s, es, unpack) && N.OrderlyRun(s, es, unpack) && N.After(s, es, unpack) == t
  }

  lemma BringsOneMore(s: N.State, es: seq<N.Event>, t: N.State, e: N.Event, unpack: Unpack)
    requires Brings(s, es, t, unpack) && N.Shaped(t) && N.Enabled(t, e, unpack) && N.Orderly(t, e, unpack)
    ensures Brings(s, es + [e], N.Next(t, e, unpack), unpack)
  {
    assert (es + [e])[..|es|] == es;
  }

  lemma BringsNothing(s: N.State, t: N.State, unpack: Unpack)
    requires Brings(s, [], t, unpack)
    ensures t == s
  {
  }

  lemma BringsFront(s: N.State, es: seq<N.Event>, t: N.State, unpack: Unpack) returns (u: N.State)
    requires es != [] && Brings(s, es, t, unpack)
    ensures Brings(s, es[..|es| - 1], u, unpack) && N.Shaped(u)
    ensures N.Enabled(u, es[|es| - 1], unpack) && N.Orderly(u, es[|es| - 1], unpack) && t == N.Next(u, es[|es| - 1], unpack)
  {
    u := N.After(s, es[..|es| - 1], unpack);
  }

  lemma {:induction false} BringsOn(s: N.State, a: seq<N.Event>, t: N.State, b: seq<N.Event>, u: N.State, unpack: Unpack)
    requires Brings(s, a, t, unpack) && Brings(t, b, u, unpack)
    ensures Brings(s, a + b, u, unpack)
    decreases |b|
  {
    if b == [] {
      BringsNothing(t, u, unpack);
      assert a + b == a;
    } else {
      var front := b[..|b| - 1];
      var v := BringsFront(t, b, u, unpack);
      BringsOn(s, a, t, front, v, unpack);
      BringsOneMore(s, a + front, v, b[|b| - 1], unpack);
      FrontAndLast(b);
      assert a + b == a + front + [b[|b| - 1]];
    }
  }

  function Lifted(es: seq<D.Event>): (r: seq<N.Event>)
    ensures |r| == |es| && forall k :: 0 <= k < |es| ==> r[k] == N.Daemon(es[k])
  {
    seq(|es|, k requires 0 <= k < |es| => N.Daemon(es[k]))
  }

  lemma LiftedStep(s: N.State, e: D.Event, unpack: Unpack)
    requires N.Shaped(s) && T.Inv(s.daemon.threads) && D.Enabled(s.daemon, e, unpack) && Own(e)
    ensures N.Enabled(s, N.Daemon(e), unpack) && N.Orderly(s, N.Daemon(e), unpack)
    ensures N.Next(s, N.Daemon(e), unpack) == s.(daemon := D.Next(s.daemon, e, unpack))
    ensures N.Shaped(N.Next(s, N.Daemon(e), unpack)) && T.Inv(D.Next(s.daemon, e, unpack).threads)
  {
    var t := s.(daemon := D.Next(s.daemon, e, unpack));
    D.FilesKept(s.daemon, e, unpack);
    D.ShapedStep(s.daemon, e, unpack);
    D.ThreadsKeep(s.daemon, e, unpack);
    forall i: nat | i < |t.clients|
      ensures H.Shaped(N.HandleOf(t, i))
    {
      assert N.HandleOf(t, i) == N.HandleOf(s, i);
    }
  }

  lemma FrontAndLast<A>(s: seq<A>)
    requires s != []
    ensures s == s[..|s| - 1] + [s[|s| - 1]]
  {
  }

  lemma LeadsNowhere(s: D.State, t: D.State, unpack: Unpack)
    requires Leads(s, [], t, unpack)
    ensures t == s
  {
  }

  lemma LeadsFront(s: D.State, es: seq<D.Event>, t: D.State, unpack: Unpack) returns (u: D.State)
    requires es != [] && Leads(s, es, t, unpack)
    ensures Leads(s, es[..|es| - 1], u, unpack) && D.Shaped(u)
    ensures Own(es[|es| - 1]) && D.Enabled(u, es[|es| - 1], unpack) && t == D.Next(u, es[|es| - 1], unpack)
  {
    u := D.After(s, es[..|es| - 1], unpack);
  }

  /** The machine is where the daemon's own events es have brought it. */
  ghost predicate Lifts(s: N.State, es: seq<D.Event>, t: D.State, unpack: Unpack) {
    Brings(s, Lifted(es), s.(daemon := t), unpack) && N.Shaped(s.(daemon := t)) && T.Inv(t.threads)
  }

  lemma LiftsOneMore(s: N.State, es: seq<D.Event>, t: D.State, e: D.Event, unpack: Unpack)
    requires Lifts(s, es, t, unpack) && D.Enabled(t, e, unpack) && Own(e)
    ensures Lifts(s, es + [e], D.Next(t, e, unpack), unpack)
  {
    LiftedStep(s.(daemon := t), e, unpack);
    BringsOneMore(s, Lifted(es), s.(daemon := t), N.Daemon(e), unpack);
    assert Lifted(es + [e]) == Lifted(es) + [N.Daemon(e)];
  }

  lemma LiftsNothing(s: N.State, unpack: Unpack)
    requires N.Shaped(s) && T.Inv(s.daemon.threads)
    ensures Lifts(s, [], s.daemon, unpack)
  {
    assert s.(daemon := s.daemon) == s && Lifted([]) == [];
  }

  /** What the daemon does by itself, the machine does. */
  lemma {:induction false} LiftedRun(s: N.State, es: seq<D.Event>, t: D.State, unpack: Unpack)
    requires N.Shaped(s) && T.Inv(s.daemon.threads) && Leads(s.daemon, es, t, unpack)
    ensures Lifts(s, es, t, unpack)
    decreases |es|
  {
    if es == [] {
      LeadsNowhere(s.daemon, t, unpack);
      LiftsNothing(s, unpack);
    } else {
      var front, e := es[..|es| - 1], es[|es| - 1];
      var u := LeadsFront(s.daemon, es, t, unpack);
      LiftedRun(s, front, u, unpack);
      LiftsOneMore(s, front, u, e, unpack);
      FrontAndLast(es);
    }
  }

  /** A machine to which nothing bad has happened: no job skipped, and the workers read their own jobs' bytes. */
  ghost predicate Fine(s: N.State, unpack: Unpack) {
    N.Inv(s, unpack) && D.ProgressInv(s.daemon, N.Jobs(s, unpack)) && s.daemon.gaveUp == {}
  }

  /** The same handles and hand-overs. */
  ghost predicate SameClients(s: N.State, t: N.State) {
    t.clients == s.clients && t.handed == s.handed && |t.daemon.threads.workers| == |s.daemon.threads.workers|
  }

  lemma DeliveryArrives(s: N.State, unpack: Unpack)
    requires N.Inv(s, unpack) && s.sent != [] && s.daemon.threads.listener == T.Accepting
    ensures N.Enabled(s, N.Deliver, unpack) && N.Orderly(s, N.Deliver, unpack)
    ensures var t := N.Next(s, N.Deliver, unpack);
            && SameClients(s, t) && t.sent == s.sent[1..] && t.daemon.threads.listener == T.Accepting
            && t.daemon.gaveUp == s.daemon.gaveUp
  {
    N.NextArrives(s, unpack);
    N.DeliverIsArrival(s, unpack);
  }

  lemma OneDelivery(s: N.State, unpack: Unpack)
    requires Fine(s, unpack) && s.sent != [] && s.daemon.threads.listener == T.Accepting
    ensures N.Enabled(s, N.Deliver, unpack) && Brings(s, [N.Deliver], N.Next(s, N.Deliver, unpack), unpack)
    ensures var t := N.Next(s, N.Deliver, unpack);
            Fine(t, unpack) && SameClients(s, t) && t.sent == s.sent[1..] && t.daemon.threads.listener == T.Accepting
  {
    DeliveryArrives(s, unpack);
    N.InvStep(s, N.Deliver, unpack);
    ProgressNext(s, N.Deliver, unpack);
    BringsOneMore(s, [], s, N.Deliver, unpack);
    assert [] + [N.Deliver] == [N.Deliver];
  }

  lemma {:induction false} CanDeliver(s: N.State, unpack: Unpack) returns (es: seq<N.Event>, t: N.State)
    requires Fine(s, unpack) && s.daemon.threads.listener == T.Accepting
    ensures Brings(s, es, t, unpack) && Fine(t, unpack) && SameClients(s, t)
    ensures t.sent == [] && t.daemon.threads.listener == T.Accepting
    decreases |s.sent|
  {
    if s.sent == [] {
      es, t := [], s;
    } else {
      OneDelivery(s, unpack);
      var rest;
      rest, t := CanDeliver(N.Next(s, N.Deliver, unpack), unpack);
      BringsOn(s, [N.Deliver], N.Next(s, N.Deliver, unpack), rest, t, unpack);
      es := [N.Deliver] + rest;
    }
  }

  /** The listener reads terminate, if it has not, and sets the flag. */
  lemma CanClose(s: D.State, jobs: seq<Job>, unpack: Unpack) returns (es: seq<D.Event>, t: D.State)
    requires Good(s, jobs, unpack) && s.threads.listener != T.Stopped
    ensures Leads(s, es, t, unpack) && Good(t, jobs, unpack) && Kept(s, t) && t.threads.shutting
  {
    es, t := [], s;
    if t.threads.listener == T.Accepting {
      OneEvent(t, D.Control(T.ReadTerminate), unpack);
      OwnStep(t, jobs, D.Control(T.ReadTerminate), unpack);
      es, t := [D.Control(T.ReadTerminate)], D.Next(t, D.Control(T.ReadTerminate), unpack);
    }
    if t.threads.listener == T.GotTerminate {
      var u := D.Next(t, D.Control(T.SetFlag), unpack);
      OneEvent(t, D.Control(T.SetFlag), unpack);
      OwnStep(t, jobs, D.Control(T.SetFlag), unpack);
      LeadsJoin(s, es, t, [D.Control(T.SetFlag)], u, unpack);
      es, t := es + [D.Control(T.SetFlag)], u;
    }
  }

  /** With no name on its way, the daemon can come to its end by itself. */
  lemma CanJoin(s: N.State, unpack: Unpack) returns (es: seq<N.Event>, t: N.State)
    requires Fine(s, unpack) && s.sent == [] && s.daemon.threads.listener != T.Stopped
    ensures Brings(s, es, t, unpack) && RanToTheEnd(t) && SameClients(s, t)
  {
    var jobs := N.Jobs(s, unpack);
    N.LiveFilesAreIntact(s, unpack);
    var a, d := CanClose(s.daemon, jobs, unpack);
    var b, e := CanDrain(d, jobs, unpack);
    LeadsJoin(s.daemon, a, d, b, e, unpack);
    LiftedRun(s, a + b, e, unpack);
    es, t := Lifted(a + b), s.(daemon := e);
  }

  /**
   * Every orderly run in which nothing was skipped can be completed: whatever
   * was handed over is delivered and replayed, and all workers are joined,
   * while no client moves. All it takes is that the listener still accepts, or
   * stopped accepting after the last name was sent.
   */
  lemma EveryRunCanEnd(n: nat, dir: D.Dir, disk: Disk, es: seq<N.Event>, unpack: Unpack) returns (more: seq<N.Event>)
    requires N.Legal(N.Init(n, dir, disk), es, unpack) && N.OrderlyRun(N.Init(n, dir, disk), es, unpack)
    requires var s := N.After(N.Init(n, dir, disk), es, unpack);
             && s.daemon.gaveUp == {} && s.daemon.threads.listener != T.Stopped
             && (s.sent == [] || s.daemon.threads.listener == T.Accepting)
    ensures N.Legal(N.Init(n, dir, disk), es + more, unpack) && N.OrderlyRun(N.Init(n, dir, disk), es + more, unpack)
    ensures var s, t := N.After(N.Init(n, dir, disk), es, unpack), N.After(N.Init(n, dir, disk), es + more, unpack);
            RanToTheEnd(t) && t.clients == s.clients && t.handed == s.handed
  {
    var init := N.Init(n, dir, disk);
    var s := N.After(init, es, unpack);
    N.RunKeepsInv(n, dir, disk, es, unpack);
    RunKeepsProgress(n, dir, disk, es, unpack);
    var a, t := [], s;
    if s.sent != [] {
      a, t := CanDeliver(s, unpack);
    }
    var b, u := CanJoin(t, unpack);
    BringsOn(s, a, t, b, u, unpack);
    BringsOn(init, es, s, a + b, u, unpack);
    more := a + b;
  }
}
