/**
 * How much is left of a shutdown: once the flag is set every event of the
 * threads is one less to go.
 */
module Shutdown {
  import opened Threads

  /** How many events a worker has to go through until it has returned, jobs it has yet to take left out. */
  function ToGo(pc: Pc): nat {
    match pc
    case NotStarted => 3
    case Asleep => 3
    case Busy(_) => 3
    case AtDequeue => 2
    case Leaving => 1
    case Exited => 0
  }

  function AllToGo(workers: seq<Pc>): nat {
    if workers == [] then 0 else AllToGo(workers[..|workers| - 1]) + ToGo(workers[|workers| - 1])
  }

  /** How many events are left: each job takes two, to take it and to be done with it, and the reply is one more. */
  function Left(s: State): nat {
    AllToGo(s.workers) + 2 * |s.queue| + if s.listener == Polling then 1 else 0
  }

  lemma {:induction false} ToGoUpdate(workers: seq<Pc>, w: nat, pc: Pc)
    requires w < |workers|
    ensures AllToGo(workers[w := pc]) + ToGo(workers[w]) == AllToGo(workers) + ToGo(pc)
  {
    var last := |workers| - 1;
    if w == last {
      assert workers[w := pc][..last] == workers[..last];
    } else {
      assert workers[w := pc][..last] == workers[..last][w := pc];
      ToGoUpdate(workers[..last], w, pc);
    }
  }

  lemma {:induction false} NothingToGo(workers: seq<Pc>)
    ensures AllToGo(workers) == 0 <==> forall w :: 0 <= w < |workers| ==> workers[w] == Exited
  {
    if workers != [] {
      NothingToGo(workers[..|workers| - 1]);
    }
  }

  /** With the flag set, every event is one less to go. */
  lemma EventCounts(s: State, e: Event)
    requires Inv(s) && s.shutting && Enabled(s, e)
    ensures Next(s, e).shutting && Left(Next(s, e)) + 1 == Left(s)
  {
    if e.Start? || e.TryDequeue? || e.Wake? || e.Over? || e.Leave? {
      ToGoUpdate(s.workers, e.w, Next(s, e).workers[e.w]);
    }
  }

  /** The event a worker that has not returned is at. */
  function NextOf(s: State, w: nat): Event
    requires w < |s.workers| && s.workers[w] != Exited
  {
    match s.workers[w]
    case NotStarted => Start(w)
    case AtDequeue => TryDequeue(w)
    case Asleep => Wake(w)
    case Busy(_) => Over(w)
    case Leaving => Leave(w)
  }

  /** All workers have returned, the reply is sent, and every accepted job is over. */
  ghost predicate Ended(s: State) {
    Joined(s) && s.listener == Replied && Drained(s)
  }

  /** With nothing left to do all has ended, and until then some event can happen. */
  lemma EndedOrEnabled(s: State)
    requires Inv(s) && s.shutting && s.workers != []
    ensures Left(s) == 0 <==> Ended(s)
    ensures Left(s) > 0 ==> Enabled(s, PollDone) || exists w :: 0 <= w < |s.workers| && s.workers[w] != Exited
  {
    NothingToGo(s.workers);
    if AllToGo(s.workers) == 0 {
      assert s.workers[0] == Exited;
      NoActives(s.workers);
      QuietIsDrained(s);
      if s.listener == Polling {
        assert Enabled(s, PollDone);
      }
    } else {
      var w :| 0 <= w < |s.workers| && s.workers[w] != Exited;
    }
  }
}
