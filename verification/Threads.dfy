/**
 * The threads of the daemon as they interleave: a listener that accepts jobs
 * until it reads terminate, and any number of workers that take jobs from the
 * queue, whatever they do with them. Every event is one critical section or
 * one atomic update.
 */
module Threads {

  /** Where a worker stands; Busy is between taking a job and asking for the next. */
  datatype Pc = NotStarted | AtDequeue | Asleep | Busy(id: nat) | Leaving | Exited

  /** Where the listener stands. GotTerminate is before the flag is set, Polling after; Stopped is a failed accept. */
  datatype Listener = Accepting | GotTerminate | Polling | Replied | Stopped

  /**
   * accepted, taken and over are the history of the run: how many jobs were
   * ever enqueued, those handed out in order, and those whose worker step is
   * over. Jobs are numbered as they are accepted.
   */
  datatype State = State(
    queue: seq<nat>, workers: seq<Pc>, active: int, shutting: bool, listener: Listener,
    accepted: nat, taken: seq<nat>, over: set<nat>)

  datatype Event =
    | Accept                // accept, read, enqueue
    | ReadTerminate
    | SetFlag
    | PollDone              // no active worker: "done" is sent
    | AcceptFails
    | Start(w: nat)         // the worker counts itself active
    | TryDequeue(w: nat)    // one look at the queue under the mutex
    | Wake(w: nat)
    | Over(w: nat)          // end of the worker's step, replayed or skipped
    | Leave(w: nat)         // the worker uncounts itself and returns

  function Init(n: nat): State {
    State([], seq(n, _ => NotStarted), 0, false, Accepting, 0, [], {})
  }

  predicate At(s: State, w: nat, pc: Pc) {
    w < |s.workers| && s.workers[w] == pc
  }

  predicate IsBusy(s: State, w: nat) {
    w < |s.workers| && s.workers[w].Busy?
  }

  predicate Enabled(s: State, e: Event) {
    match e
    case Accept => s.listener == Accepting
    case ReadTerminate => s.listener == Accepting
    case SetFlag => s.listener == GotTerminate
    case PollDone => s.listener == Polling && s.active <= 0
    case AcceptFails => s.listener == Accepting
    case Start(w) => At(s, w, NotStarted)
    case TryDequeue(w) => At(s, w, AtDequeue)
    case Wake(w) => At(s, w, Asleep)
    case Over(w) => IsBusy(s, w)
    case Leave(w) => At(s, w, Leaving)
  }

  function Goto(s: State, w: nat, pc: Pc): State
    requires w < |s.workers|
  {
    s.(workers := s.workers[w := pc])
  }

  function Next(s: State, e: Event): State
    requires Enabled(s, e)
  {
    match e
    case Accept => s.(accepted := s.accepted + 1, queue := s.queue + [s.accepted])
    case ReadTerminate => s.(listener := GotTerminate)
    case SetFlag => s.(shutting := true, listener := Polling)
    case PollDone => s.(listener := Replied)
    case AcceptFails => s.(listener := Stopped)
    case Start(w) => Goto(s, w, AtDequeue).(active := s.active + 1)
    case TryDequeue(w) =>
      if s.queue != [] then
        Goto(s, w, Busy(s.queue[0])).(queue := s.queue[1..], taken := s.taken + [s.queue[0]])
      else Goto(s, w, if s.shutting then Leaving else Asleep)
    case Wake(w) => Goto(s, w, AtDequeue)
    case Over(w) => Goto(s, w, AtDequeue).(over := s.over + {s.workers[w].id})
    case Leave(w) => Goto(s, w, Exited).(active := s.active - 1)
  }

  // ----- what every event keeps -----

  /** Jobs are handed out in the order they were accepted, each once, and the queue is the rest. */
  ghost predicate QueueInv(s: State) {
    && |s.taken| + |s.queue| == s.accepted
    && (forall k :: 0 <= k < |s.taken| ==> s.taken[k] == k)
    && (forall k :: 0 <= k < |s.queue| ==> s.queue[k] == |s.taken| + k)
  }

  /** A job that was handed out is over or with exactly one worker. */
  ghost predicate BusyInv(s: State) {
    && (forall w :: 0 <= w < |s.workers| && s.workers[w].Busy? ==>
          s.workers[w].id < |s.taken| && s.workers[w].id !in s.over)
    && (forall v, w :: 0 <= v < w < |s.workers| && s.workers[v].Busy? ==> s.workers[v] != s.workers[w])
    && (forall id :: id in s.over ==> id < |s.taken|)
    && (forall id: nat :: id < |s.taken| && id !in s.over ==> Busy(id) in s.workers)
  }

  predicate IsActive(pc: Pc) {
    pc != NotStarted && pc != Exited
  }

  function Actives(workers: seq<Pc>): nat {
    if workers == [] then 0
    else Actives(workers[..|workers| - 1]) + if IsActive(workers[|workers| - 1]) then 1 else 0
  }

  ghost predicate CountInv(s: State) {
    s.active == Actives(s.workers)
  }

  /** A worker leaves only when the flag is set and the queue is empty; the flag is set only when nothing is accepted any more. */
  ghost predicate ShutInv(s: State) {
    && (s.shutting <==> s.listener == Polling || s.listener == Replied)
    && (forall w :: 0 <= w < |s.workers| && (s.workers[w] == Leaving || s.workers[w] == Exited) ==> s.shutting && s.queue == [])
  }

  ghost predicate Inv(s: State) {
    QueueInv(s) && BusyInv(s) && CountInv(s) && ShutInv(s)
  }

  lemma {:induction false} ActivesUpdate(workers: seq<Pc>, w: nat, pc: Pc)
    requires w < |workers|
    ensures Actives(workers[w := pc])
         == Actives(workers) - (if IsActive(workers[w]) then 1 else 0) + (if IsActive(pc) then 1 else 0)
  {
    var last := |workers| - 1;
    if w == last {
      assert workers[w := pc][..last] == workers[..last];
    } else {
      assert workers[w := pc][..last] == workers[..last][w := pc];
      ActivesUpdate(workers[..last], w, pc);
    }
  }

  lemma {:induction false} NoActives(workers: seq<Pc>)
    ensures Actives(workers) == 0 <==> forall w :: 0 <= w < |workers| ==> !IsActive(workers[w])
  {
    if workers != [] {
      NoActives(workers[..|workers| - 1]);
    }
  }

  lemma QueueStep(s: State, e: Event)
    requires Inv(s) && Enabled(s, e)
    ensures QueueInv(Next(s, e))
  {
  }

  /** A worker that takes the next job is the only one that has it. */
  lemma BusyAfterTake(s: State, w: nat)
    requires Inv(s) && Enabled(s, TryDequeue(w))
    ensures BusyInv(Next(s, TryDequeue(w)))
  {
    var t := Next(s, TryDequeue(w));
    forall id: nat | id < |t.taken| && id !in t.over
      ensures Busy(id) in t.workers
    {
      if id < |s.taken| {
        StillBusy(s, TryDequeue(w), id);
      } else {
        assert t.workers[w] == Busy(id);
      }
    }
  }

  lemma StillBusy(s: State, e: Event, id: nat)
    requires Inv(s) && Enabled(s, e) && id < |s.taken| && id !in Next(s, e).over
    ensures Busy(id) in Next(s, e).workers
  {
    var v :| 0 <= v < |s.workers| && s.workers[v] == Busy(id);
    assert Next(s, e).workers[v] == Busy(id);
  }

  lemma BusyStep(s: State, e: Event)
    requires Inv(s) && Enabled(s, e)
    ensures BusyInv(Next(s, e))
  {
    if e.TryDequeue? {
      BusyAfterTake(s, e.w);
    } else {
      forall id: nat | id < |s.taken| && id !in Next(s, e).over
        ensures Busy(id) in Next(s, e).workers
      {
        StillBusy(s, e, id);
      }
    }
  }

  lemma CountStep(s: State, e: Event)
    requires Inv(s) && Enabled(s, e)
    ensures CountInv(Next(s, e))
  {
    if e.Start? || e.TryDequeue? || e.Wake? || e.Over? || e.Leave? {
      ActivesUpdate(s.workers, e.w, Next(s, e).workers[e.w]);
    }
  }

  lemma ShutStep(s: State, e: Event)
    requires Inv(s) && Enabled(s, e)
    ensures ShutInv(Next(s, e))
  {
  }

  lemma InvStep(s: State, e: Event)
    requires Inv(s) && Enabled(s, e)
    ensures Inv(Next(s, e))
  {
    QueueStep(s, e);
    BusyStep(s, e);
    CountStep(s, e);
    ShutStep(s, e);
  }

  // ----- runs -----

  /** Each event of the run is enabled where it happens. */
  ghost predicate Legal(s: State, es: seq<Event>)
    decreases |es|, 0
  {
    es == [] ||
    var front := es[..|es| - 1];
    Legal(s, front) && Enabled(After(s, front), es[|es| - 1])
  }

  ghost function After(s: State, es: seq<Event>): State
    requires Legal(s, es)
    decreases |es|, 1
  {
    if es == [] then s else Next(After(s, es[..|es| - 1]), es[|es| - 1])
  }

  lemma InitInv(n: nat)
    ensures Inv(Init(n))
  {
    NoActives(Init(n).workers);
  }

  /** Every state of every run keeps the invariant. */
  lemma {:induction false} RunKeepsInv(s: State, es: seq<Event>)
    requires Inv(s) && Legal(s, es)
    ensures Inv(After(s, es))
    decreases |es|
  {
    if es != [] {
      RunKeepsInv(s, es[..|es| - 1]);
      InvStep(After(s, es[..|es| - 1]), es[|es| - 1]);
    }
  }

  // ----- shutdown -----

  /** Every accepted job was handed out and its worker step is over. */
  ghost predicate Drained(s: State) {
    forall id: nat :: id < s.accepted ==> id in s.over
  }

  ghost predicate Started(s: State) {
    exists w :: 0 <= w < |s.workers| && s.workers[w] != NotStarted
  }

  /** Nothing is enqueued any more: the listener is past accepting. */
  ghost predicate Closed(s: State) {
    s.listener == GotTerminate || s.listener == Polling || s.listener == Replied
  }

  /** All workers have returned, as main finds after joining them. */
  ghost predicate Joined(s: State) {
    forall w :: 0 <= w < |s.workers| ==> s.workers[w] == Exited
  }

  lemma QuietIsDrained(s: State)
    requires Inv(s) && s.queue == []
    requires forall w :: 0 <= w < |s.workers| ==> !s.workers[w].Busy?
    ensures Drained(s)
  {
    assert forall id: nat :: id < |s.taken| && id !in s.over ==> Busy(id) in s.workers;
  }

  /** When main has joined its workers, every accepted job is over and none is accepted any more. */
  lemma JoinedIsDrained(n: nat, es: seq<Event>)
    requires n > 0 && Legal(Init(n), es) && Joined(After(Init(n), es))
    ensures var s := After(Init(n), es); Drained(s) && s.queue == [] && Closed(s)
  {
    var s := After(Init(n), es);
    InitInv(n);
    RunKeepsInv(Init(n), es);
    RunKeepsWorkers(Init(n), es);
    assert s.workers[0] == Exited;
    QuietIsDrained(s);
  }

  lemma WorkersStep(s: State, e: Event)
    requires Enabled(s, e)
    ensures |Next(s, e).workers| == |s.workers|
  {
  }

  lemma {:induction false} RunKeepsWorkers(s: State, es: seq<Event>)
    requires Legal(s, es)
    ensures |After(s, es).workers| == |s.workers|
    decreases |es|
  {
    if es != [] {
      RunKeepsWorkers(s, es[..|es| - 1]);
      WorkersStep(After(s, es[..|es| - 1]), es[|es| - 1]);
    }
  }

  ghost predicate HasLeft(s: State, w: nat) {
    w < |s.workers| && (s.workers[w] == Leaving || s.workers[w] == Exited)
  }

  lemma LeftStep(s: State, w: nat, e: Event)
    requires Inv(s) && Enabled(s, e) && HasLeft(s, w)
    ensures Next(s, e).accepted == s.accepted && HasLeft(Next(s, e), w)
  {
  }

  /** From the moment a worker leaves its loop the queue is empty and stays empty, and nothing more is accepted. */
  lemma {:induction false} NothingAfterLeaving(s: State, w: nat, es: seq<Event>)
    requires Inv(s) && Legal(s, es) && HasLeft(s, w)
    ensures var t := After(s, es); t.queue == [] && t.accepted == s.accepted && t.shutting && HasLeft(t, w)
    decreases |es|
  {
    if es != [] {
      NothingAfterLeaving(s, w, es[..|es| - 1]);
      RunKeepsInv(s, es[..|es| - 1]);
      LeftStep(After(s, es[..|es| - 1]), w, es[|es| - 1]);
      InvStep(After(s, es[..|es| - 1]), es[|es| - 1]);
    }
  }

  /** Once closed, a run stays closed, keeps its jobs, and forgets neither started workers nor jobs that are over. */
  lemma ClosedStep(s: State, e: Event)
    requires Inv(s) && Enabled(s, e) && Closed(s)
    ensures Closed(Next(s, e)) && Next(s, e).accepted == s.accepted
    ensures Started(s) ==> Started(Next(s, e))
    ensures Drained(s) ==> Drained(Next(s, e))
  {
    if Started(s) {
      var w :| 0 <= w < |s.workers| && s.workers[w] != NotStarted;
      assert Next(s, e).workers[w] != NotStarted;
    }
  }

  /** With no worker active and one that has run, everything is done. */
  lemma IdleAfterStartIsDrained(s: State)
    requires Inv(s) && s.active <= 0 && Started(s)
    ensures Drained(s)
  {
    NoActives(s.workers);
    var w :| 0 <= w < |s.workers| && s.workers[w] != NotStarted;
    assert !IsActive(s.workers[w]);
    QuietIsDrained(s);
  }

  /** If a worker has started by the time terminate is read, "done" is sent only when all is done. */
  lemma {:induction false} StartedDrains(s: State, es: seq<Event>)
    requires Inv(s) && Legal(s, es) && s.listener == GotTerminate
    requires Started(s) || Drained(s)
    ensures var t := After(s, es);
            Closed(t) && (Started(t) || Drained(t)) && (t.listener == Replied ==> Drained(t))
    decreases |es|
  {
    if es != [] {
      var t, e := After(s, es[..|es| - 1]), es[|es| - 1];
      StartedDrains(s, es[..|es| - 1]);
      RunKeepsInv(s, es[..|es| - 1]);
      ClosedStep(t, e);
      if e == PollDone && !Drained(t) {
        IdleAfterStartIsDrained(t);
      }
    }
  }

  /** "Done" holds back for the drain in every run that goes on from s. */
  ghost predicate DoneMeansDrained(s: State) {
    forall es: seq<Event> :: Legal(s, es) && After(s, es).listener == Replied ==> Drained(After(s, es))
  }

  /** No worker started: the reply comes at once. */
  lemma ReplyAtOnce(s: State)
    requires Inv(s) && s.listener == GotTerminate && !Started(s)
    ensures Legal(s, [SetFlag, PollDone]) && After(s, [SetFlag, PollDone]).listener == Replied
    ensures After(s, [SetFlag, PollDone]).over == s.over && After(s, [SetFlag, PollDone]).accepted == s.accepted
  {
    NoActives(s.workers);
    assert [SetFlag, PollDone][..1] == [SetFlag] && [SetFlag][..0] == [];
    assert Legal(s, [SetFlag]) && After(s, [SetFlag]) == Next(s, SetFlag);
    InvStep(s, SetFlag);
  }

  /**
   * When terminate has been read, "done" means drained in every way the run can
   * go on if and only if some worker has started or the queue is empty.
   */
  lemma DoneMeansDrainedExactly(n: nat, es: seq<Event>)
    requires Legal(Init(n), es) && After(Init(n), es).listener == GotTerminate
    ensures var s := After(Init(n), es); DoneMeansDrained(s) <==> Started(s) || s.queue == []
  {
    var s := After(Init(n), es);
    InitInv(n);
    RunKeepsInv(Init(n), es);
    if Started(s) || s.queue == [] {
      if !Started(s) {
        QuietIsDrained(s);
      }
      forall more: seq<Event> | Legal(s, more) && After(s, more).listener == Replied
        ensures Drained(After(s, more))
      {
        StartedDrains(s, more);
      }
    } else {
      ReplyAtOnce(s);
      assert s.queue[0] !in s.over;
      assert !Drained(After(s, [SetFlag, PollDone]));
    }
  }

  /** A job accepted, terminate read, and "done" answered at once, the job still in the queue. */
  lemma DoneWithAJobQueued()
    ensures var es := [Accept, ReadTerminate, SetFlag, PollDone];
            && Legal(Init(1), es) && After(Init(1), es).listener == Replied
            && After(Init(1), es).queue == [0] && !Drained(After(Init(1), es))
  {
    var es := [Accept, ReadTerminate, SetFlag, PollDone];
    assert es[..3] == [Accept, ReadTerminate, SetFlag] && es[..3][..2] == [Accept, ReadTerminate];
    assert es[..3][..2][..1] == [Accept] && es[..3][..2][..1][..0] == [];
    assert Legal(Init(1), [Accept]) && After(Init(1), [Accept]) == Next(Init(1), Accept);
    assert Legal(Init(1), [Accept, ReadTerminate]);
    assert Legal(Init(1), [Accept, ReadTerminate, SetFlag]);
    assert 0 !in After(Init(1), es).over;
  }

  /** The listener has given up before the command came: workers are asked for no end. */
  ghost predicate Abandoned(s: State) {
    Inv(s) && s.listener == Stopped
  }

  lemma AbandonedStep(s: State, e: Event)
    requires Abandoned(s) && Enabled(s, e)
    ensures Abandoned(Next(s, e)) && Next(s, e).accepted == s.accepted
  {
    InvStep(s, e);
  }

  /** A failed accept ends the listener for good: nothing more is accepted, and no run ever joins a worker or answers. */
  lemma {:induction false} FailedAcceptNeverEnds(s: State, es: seq<Event>)
    requires Inv(s) && Enabled(s, AcceptFails) && Legal(Next(s, AcceptFails), es)
    ensures var t := After(Next(s, AcceptFails), es);
            && Abandoned(t) && t.accepted == s.accepted && !t.shutting
            && forall w :: 0 <= w < |t.workers| ==> t.workers[w] != Leaving && t.workers[w] != Exited
    decreases |es|
  {
    if es == [] {
      InvStep(s, AcceptFails);
    } else {
      FailedAcceptNeverEnds(s, es[..|es| - 1]);
      AbandonedStep(After(Next(s, AcceptFails), es[..|es| - 1]), es[|es| - 1]);
    }
  }

  // ----- a single worker -----

  /** A single worker is busy only with the job handed out last. */
  ghost predicate OneAtATime(s: State) {
    forall w :: 0 <= w < |s.workers| && s.workers[w].Busy? ==> s.workers[w].id == |s.taken| - 1
  }

  lemma OneWorkerStep(s: State, e: Event)
    requires Inv(s) && Enabled(s, e) && |s.workers| == 1 && OneAtATime(s)
    ensures OneAtATime(Next(s, e))
  {
  }

  lemma {:induction false} OneWorkerInOrder(n: nat, es: seq<Event>)
    requires n == 1 && Legal(Init(n), es)
    ensures OneAtATime(After(Init(n), es))
    decreases |es|
  {
    if es != [] {
      var front := es[..|es| - 1];
      OneWorkerInOrder(n, front);
      InitInv(n);
      RunKeepsInv(Init(n), front);
      RunKeepsWorkers(Init(n), front);
      OneWorkerStep(After(Init(n), front), es[|es| - 1]);
    }
  }
}
