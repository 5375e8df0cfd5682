/**
 * The daemon's threads with the mutex and the signals its workers wait for. A
 * worker that finds nothing to do keeps the mutex until it waits, but the
 * shutdown flag is set, and all that wait are woken, without the mutex.
 */
module WakeUps {
  import opened Shutdown
  import opened Wrappers
  import T = Threads

  /**
   * threads has as Asleep all workers that found nothing to do. looking are
   * those of them that do not wait yet, and hold the mutex; woken are those
   * that waited and were signalled. broadcast is set once all were woken.
   */
  datatype State = State(threads: T.State, looking: set<nat>, woken: set<nat>, broadcast: bool)

  datatype Event =
    | Step(e: T.Event)            // any step but accepting a job
    | Accept(v: Option<nat>)      // a job is enqueued, and one that waits, if any, is signalled
    | Wait(w: nat)                // pthread_cond_wait
    | Broadcast                   // pthread_cond_broadcast

  function Init(n: nat): State {
    State(T.Init(n), {}, {}, false)
  }

  /** The workers that wait and have not been signalled. */
  function Waiting(s: State): set<nat> {
    set w: nat | w < |s.threads.workers| && T.At(s.threads, w, T.Asleep) && w !in s.looking && w !in s.woken
  }

  predicate Enabled(s: State, e: Event) {
    match e
    case Step(e) =>
      && T.Enabled(s.threads, e)
      && (match e
          case Accept => false
          case TryDequeue(_) => s.looking == {}
          case Wake(w) => s.looking == {} && w in s.woken
          case PollDone => s.broadcast
          case _ => true)
    case Accept(v) =>
      && T.Enabled(s.threads, T.Accept) && s.looking == {}
      && (v.None? ==> Waiting(s) == {}) && (v.Some? ==> v.value in Waiting(s))
    case Wait(w) => w in s.looking
    case Broadcast => s.threads.listener == T.Polling && !s.broadcast
  }

  function Next(s: State, e: Event): State
    requires Enabled(s, e)
  {
    match e
    case Step(e) =>
      var t := T.Next(s.threads, e);
      (match e
       case TryDequeue(w) => s.(threads := t, looking := if t.workers[w] == T.Asleep then s.looking + {w} else s.looking)
       case Wake(w) => s.(threads := t, woken := s.woken - {w})
       case _ => s.(threads := t))
    case Accept(v) =>
      s.(threads := T.Next(s.threads, T.Accept), woken := if v.Some? then s.woken + {v.value} else s.woken)
    case Wait(w) => s.(looking := s.looking - {w})
    case Broadcast => s.(broadcast := true, woken := s.woken + Waiting(s))
  }

  /** The event of the threads behind an event, if there is one. */
  function ThreadEvent(e: Event): Option<T.Event> {
    match e
    case Step(e) => Some(e)
    case Accept(_) => Some(T.Accept)
    case _ => None
  }

  /** Waiting for signals the threads do nothing they could not do anyhow. */
  lemma ThreadsMove(s: State, e: Event)
    requires Enabled(s, e)
    ensures match ThreadEvent(e)
            case Some(te) => T.Enabled(s.threads, te) && Next(s, e).threads == T.Next(s.threads, te)
            case None => Next(s, e).threads == s.threads
  {
  }

  /** Who holds the mutex or was signalled found nothing to do; all are woken only after the flag is set. */
  ghost predicate Inv(s: State) {
    && T.Inv(s.threads)
    && (forall w :: w in s.looking || w in s.woken ==> T.At(s.threads, w, T.Asleep))
    && s.looking !! s.woken
    && (s.broadcast ==> s.threads.shutting) && (s.threads.listener == T.Replied ==> s.broadcast)
  }

  lemma InvStep(s: State, e: Event)
    requires Inv(s) && Enabled(s, e)
    ensures Inv(Next(s, e)) && |Next(s, e).threads.workers| == |s.threads.workers|
  {
    ThreadsMove(s, e);
    if ThreadEvent(e).Some? {
      T.InvStep(s.threads, ThreadEvent(e).value);
      T.WorkersStep(s.threads, ThreadEvent(e).value);
    }
  }

  // ----- runs -----

  ghost predicate Legal(s: State, es: seq<Event>)
    decreases |es|, 0
  {
    es == [] ||
    var front := es[..|es| - 1];
    Legal(s, front) && Enabled(After(s, front), es[|es| - 1])
  }

  ghost function After(s: State, es: seq<Event>): State
    requires Legal(s, es)
    decreases |es|, 1
  {
    if es == [] then s else Next(After(s, es[..|es| - 1]), es[|es| - 1])
  }

  lemma {:induction false} RunKeepsInv(s: State, es: seq<Event>)
    requires Inv(s) && Legal(s, es)
    ensures Inv(After(s, es)) && |After(s, es).threads.workers| == |s.threads.workers|
    decreases |es|
  {
    if es != [] {
      RunKeepsInv(s, es[..|es| - 1]);
      InvStep(After(s, es[..|es| - 1]), es[|es| - 1]);
    }
  }

  // ----- a worker that waits too late -----

  /** All were woken, but worker w, that found nothing to do, was not. */
  ghost predicate Missed(s: State, w: nat) {
    Inv(s) && s.broadcast && T.At(s.threads, w, T.Asleep) && w !in s.woken
  }

  lemma MissedStep(s: State, w: nat, e: Event)
    requires Missed(s, w) && Enabled(s, e)
    ensures Missed(Next(s, e), w)
  {
    InvStep(s, e);
  }

  lemma MissedNeverEnds(s: State, w: nat)
    requires Missed(s, w)
    ensures !T.Joined(s.threads) && s.threads.active > 0
  {
    T.NoActives(s.threads.workers);
    assert T.IsActive(s.threads.workers[w]);
  }

  /** The reply waits for all active workers. */
  lemma NoReply(s: State, w: nat, e: Event)
    requires Missed(s, w) && Enabled(s, e) && s.threads.listener != T.Replied
    ensures Next(s, e).threads.listener != T.Replied
  {
    MissedNeverEnds(s, w);
  }

  lemma {:induction false} MissedForGood(s: State, w: nat, es: seq<Event>)
    requires Missed(s, w) && s.threads.listener != T.Replied && Legal(s, es)
    ensures Missed(After(s, es), w) && After(s, es).threads.listener != T.Replied
    decreases |es|
  {
    if es != [] {
      MissedForGood(s, w, es[..|es| - 1]);
      MissedStep(After(s, es[..|es| - 1]), w, es[|es| - 1]);
      NoReply(After(s, es[..|es| - 1]), w, es[|es| - 1]);
    }
  }

  // ----- nobody waits too late -----

  /** All were woken, and all that found nothing to do are among them. */
  ghost predicate Awake(s: State) {
    && Inv(s) && s.broadcast && s.looking == {} && s.threads.workers != []
    && forall w :: T.At(s.threads, w, T.Asleep) ==> w in s.woken
  }

  lemma AwakeStep(s: State, e: Event)
    requires Awake(s) && Enabled(s, e)
    ensures Awake(Next(s, e)) && Left(Next(s, e).threads) + 1 == Left(s.threads)
  {
    InvStep(s, e);
    ThreadsMove(s, e);
    EventCounts(s.threads, ThreadEvent(e).value);
  }

  lemma {:induction false} AwakeCounts(s: State, es: seq<Event>)
    requires Awake(s) && Legal(s, es)
    ensures Awake(After(s, es)) && Left(After(s, es).threads) + |es| == Left(s.threads)
    decreases |es|
  {
    if es != [] {
      AwakeCounts(s, es[..|es| - 1]);
      AwakeStep(After(s, es[..|es| - 1]), es[|es| - 1]);
    }
  }

  lemma AwakeGoesOn(s: State)
    requires Awake(s)
    ensures Left(s.threads) == 0 <==> Ended(s.threads)
    ensures Left(s.threads) > 0 ==> exists e :: Enabled(s, e)
  {
    EndedOrEnabled(s.threads);
    if T.Enabled(s.threads, T.PollDone) {
      assert Enabled(s, Step(T.PollDone));
    } else if Left(s.threads) > 0 {
      var w :| 0 <= w < |s.threads.workers| && s.threads.workers[w] != T.Exited;
      assert Enabled(s, Step(NextOf(s.threads, w)));
    }
  }

  /** After so many events, no fewer and no more, all workers have returned, "done" is sent, and every accepted job is over. */
  ghost predicate EndsAfter(s: State, n: nat) {
    forall more :: Legal(s, more) ==>
      && |more| <= n && (|more| == n <==> Ended(After(s, more).threads))
      && (|more| < n ==> exists e :: Enabled(After(s, more), e))
  }

  /** No run ever joins all workers or answers. */
  ghost predicate NeverEnds(s: State) {
    forall more :: Legal(s, more) ==> !T.Joined(After(s, more).threads) && After(s, more).threads.listener != T.Replied
  }

  /**
   * A shutdown ends in every run, after a number of events that is known
   * beforehand, if no worker stands between its look at the flag and its wait
   * when all are woken; otherwise it ends in none.
   */
  lemma ShutdownEndsExactly(n: nat, es: seq<Event>)
    requires n > 0 && Legal(Init(n), es) && Enabled(After(Init(n), es), Broadcast)
    ensures var s := After(Init(n), es);
            if s.looking == {} then EndsAfter(Next(s, Broadcast), Left(s.threads)) else NeverEnds(Next(s, Broadcast))
  {
    T.InitInv(n);
    RunKeepsInv(Init(n), es);
    var s := After(Init(n), es);
    var t := Next(s, Broadcast);
    InvStep(s, Broadcast);
    if s.looking == {} {
      forall more | Legal(t, more)
        ensures |more| <= Left(s.threads) && (|more| == Left(s.threads) <==> Ended(After(t, more).threads))
        ensures |more| < Left(s.threads) ==> exists e :: Enabled(After(t, more), e)
      {
        AwakeCounts(t, more);
        AwakeGoesOn(After(t, more));
      }
    } else {
      var w :| w in s.looking;
      forall more | Legal(t, more)
        ensures !T.Joined(After(t, more).threads) && After(t, more).threads.listener != T.Replied
      {
        MissedForGood(t, w, more);
        MissedNeverEnds(After(t, more), w);
      }
    }
  }

  lemma OneMore(s: State, es: seq<Event>, e: Event)
    requires Legal(s, es) && Enabled(After(s, es), e)
    ensures Legal(s, es + [e]) && After(s, es + [e]) == Next(After(s, es), e)
  {
    assert (es + [e])[..|es|] == es;
  }

  /** A worker looks, and the flag is set. */
  function LookAndSet(): seq<Event> {
    [] + [Step(T.Start(0))] + [Step(T.TryDequeue(0))] + [Step(T.ReadTerminate)] + [Step(T.SetFlag)]
  }

  lemma LookedAndSet()
    ensures Legal(Init(1), LookAndSet())
    ensures var s := After(Init(1), LookAndSet());
            && s.threads.workers == [T.Asleep] && s.threads.queue == [] && s.threads.active == 1
            && s.threads.listener == T.Polling && s.looking == {0} && s.woken == {} && !s.broadcast
  {
    OneMore(Init(1), [], Step(T.Start(0)));
    OneMore(Init(1), [] + [Step(T.Start(0))], Step(T.TryDequeue(0)));
    OneMore(Init(1), [] + [Step(T.Start(0))] + [Step(T.TryDequeue(0))], Step(T.ReadTerminate));
    OneMore(Init(1), [] + [Step(T.Start(0))] + [Step(T.TryDequeue(0))] + [Step(T.ReadTerminate)], Step(T.SetFlag));
  }

  /** A worker finds nothing, the flag is set and all that wait are woken, and then it waits: nothing can happen any more. */
  lemma WaitsForGood()
    ensures var es := LookAndSet() + [Broadcast] + [Wait(0)];
            && Legal(Init(1), es) && !T.Joined(After(Init(1), es).threads)
            && forall e :: !Enabled(After(Init(1), es), e)
  {
    LookedAndSet();
    OneMore(Init(1), LookAndSet(), Broadcast);
    OneMore(Init(1), LookAndSet() + [Broadcast], Wait(0));
    var s := After(Init(1), LookAndSet() + [Broadcast] + [Wait(0)]);
    assert s.threads.workers[0] == T.Asleep;
  }

  // ----- jobs and signals -----

  /** While a job is queued some worker will look at the queue: it runs, was signalled, or has yet to start. */
  ghost predicate JobsSeen(s: State) {
    s.threads.queue != [] ==>
      exists w :: 0 <= w < |s.threads.workers| && (s.threads.workers[w] == T.Asleep ==> w in s.woken)
                  && s.threads.workers[w] != T.Leaving && s.threads.workers[w] != T.Exited
  }

  lemma SeenAfterAccept(s: State, v: Option<nat>)
    requires Inv(s) && JobsSeen(s) && Enabled(s, Accept(v)) && s.threads.workers != []
    ensures JobsSeen(Next(s, Accept(v)))
  {
    var t := Next(s, Accept(v));
    if v.Some? {
      assert t.threads.workers[v.value] == T.Asleep && v.value in t.woken;
    } else {
      assert s.threads.workers[0] == T.Asleep ==> 0 in s.woken || 0 in Waiting(s);
      assert t.threads.workers[0] == s.threads.workers[0];
    }
  }

  lemma SeenStep(s: State, e: Event)
    requires Inv(s) && JobsSeen(s) && Enabled(s, e) && s.threads.workers != []
    ensures JobsSeen(Next(s, e))
  {
    if e.Accept? {
      SeenAfterAccept(s, e.v);
    } else if s.threads.queue != [] {
      var t := Next(s, e);
      var w :| 0 <= w < |s.threads.workers| && (s.threads.workers[w] == T.Asleep ==> w in s.woken)
               && s.threads.workers[w] != T.Leaving && s.threads.workers[w] != T.Exited;
      assert t.threads.queue != [] ==>
               (t.threads.workers[w] == T.Asleep ==> w in t.woken)
               && t.threads.workers[w] != T.Leaving && t.threads.workers[w] != T.Exited;
    }
  }

  /** No job is ever forgotten: a signal is never spent on nobody while a worker could sleep through the job. */
  lemma {:induction false} NoJobForgotten(n: nat, es: seq<Event>)
    requires n > 0 && Legal(Init(n), es)
    ensures JobsSeen(After(Init(n), es))
    decreases |es|
  {
    if es != [] {
      var front := es[..|es| - 1];
      NoJobForgotten(n, front);
      T.InitInv(n);
      RunKeepsInv(Init(n), front);
      SeenStep(After(Init(n), front), es[|es| - 1]);
    }
  }
}
