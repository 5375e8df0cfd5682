/**
 * One machine: any number of handles, opened and closed as the applications
 * please, over one staging directory, the names they have sent but the
 * listener has not read, and the daemon. A set_view is two events, so that
 * others may come between its flush and its new staging file.
 */
module Node {
  import opened Disk
  import opened Sections
  import opened Storage
  import opened Worker
  import opened Wrappers
  import D = Daemon
  import H = Handle
  import Q = JobQueue
  import T = Threads

  /** The second part of a set_view, still to be done. */
  datatype Rest = Rest(v: H.SavedView, o: H.Outcome)

  datatype Client = Client(session: H.Session, handle: H.State, rest: Option<Rest>)

  /** Section k of a client, as it was handed over. */
  datatype Ticket = Ticket(client: nat, k: nat)

  /** sent are the names on their way to the listener; handed is the history of all hand-overs. */
  datatype State = State(clients: seq<Client>, daemon: D.State, sent: seq<string>, handed: seq<Ticket>)

  datatype Event =
    | OpenFile(c: H.Session)
    | BeginSetView(i: nat, datarep: string, sequential: bool, v: H.SavedView, o: H.Outcome)
    | FinishSetView(i: nat)
    | Call(i: nat, call: H.Event)   // any call but set_view
    | Deliver                       // the listener reads the next name sent
    | Daemon(e: D.Event)            // any step of the daemon but that

  function Init(n: nat, dir: D.Dir, disk: Disk): State {
    State([], D.Init(n, dir, disk), [], [])
  }

  /** A client's handle, with the directory as it is now. */
  function HandleOf(s: State, i: nat): H.State
    requires i < |s.clients|
  {
    s.clients[i].handle.(files := s.daemon.dir)
  }

  ghost predicate Shaped(s: State) {
    D.Shaped(s.daemon) && forall i: nat :: i < |s.clients| ==> H.Shaped(HandleOf(s, i))
  }

  predicate Idle(s: State, i: nat) {
    i < |s.clients| && s.clients[i].rest.None? && !s.clients[i].handle.closed
  }

  ghost predicate Enabled(s: State, e: Event, unpack: Unpack)
    requires Shaped(s)
  {
    match e
    case OpenFile(_) => true
    case BeginSetView(i, _, _, v, _) => Idle(s, i) && H.GoodView(v)
    case FinishSetView(i) => i < |s.clients| && s.clients[i].rest.Some?
    case Call(i, call) => Idle(s, i) && !call.SetViewCall?
    case Deliver => s.sent != [] && s.daemon.threads.listener == T.Accepting
    case Daemon(e) => !e.Accept? && !e.Stage? && D.Enabled(s.daemon, e, unpack)
  }

  predicate ByClient(e: Event) {
    e.BeginSetView? || e.FinishSetView? || e.Call?
  }

  /** What a client's event makes of its handle, and what of a set_view is left to do. */
  ghost function Moved(s: State, e: Event, unpack: Unpack): (H.State, Option<Rest>)
    requires Shaped(s) && ByClient(e) && Enabled(s, e, unpack)
  {
    match e
    case BeginSetView(i, datarep, sequential, v, o) =>
      var (h', code) := H.BeginSetView(s.clients[i].session, HandleOf(s, i), datarep, sequential, v, o);
      (h', if code == H.SUCCESS then Some(Rest(v, o)) else None)
    case FinishSetView(i) =>
      (H.FinishSetView(s.clients[i].session, HandleOf(s, i), s.clients[i].rest.value.v, s.clients[i].rest.value.o).0, None)
    case Call(i, call) => (H.Next(s.clients[i].session, HandleOf(s, i), call), None)
  }

  /** A client's handle has changed: the directory with it, and a name handed over is on its way. */
  function Move(s: State, i: nat, h': H.State, rest: Option<Rest>): State
    requires i < |s.clients|
  {
    var n := |s.clients[i].handle.handed|;
    var t := s.(clients := s.clients[i := s.clients[i].(handle := h', rest := rest)], daemon := s.daemon.(dir := h'.files));
    if n < |h'.handed| then t.(sent := s.sent + [h'.handed[n]], handed := s.handed + [Ticket(i, n)]) else t
  }

  ghost function Next(s: State, e: Event, unpack: Unpack): State
    requires Shaped(s) && Enabled(s, e, unpack)
  {
    match e
    case OpenFile(c) => s.(clients := s.clients + [Client(c, H.Opened(s.daemon.dir), None)])
    case Deliver =>
      var t := s.(sent := s.sent[1..]);
      (match Q.Receive(s.sent[0])
       case Path(name) => t.(daemon := D.Next(s.daemon, D.Accept(name), unpack))
       case Terminate => t.(daemon := D.Next(s.daemon, D.Control(T.ReadTerminate), unpack))
       case Ignored => t)
    case Daemon(e) => s.(daemon := D.Next(s.daemon, e, unpack))
    case _ => Move(s, e.i, Moved(s, e, unpack).0, Moved(s, e, unpack).1)
  }

  // ----- what is asked of the clients -----

  function NameOf(s: State, t: Ticket): string
    requires t.client < |s.clients|
  {
    H.FileName(s.clients[t.client].session, t.k + 1)
  }

  /** The sections of a client whose jobs are over. */
  ghost function Done(s: State, i: nat): set<nat> {
    set id | id in s.daemon.threads.over && id < |s.handed| && s.handed[id].client == i :: s.handed[id].k
  }

  /** The section was activated, and its bytes are not all where they belong yet. */
  ghost predicate Live(s: State, t: Ticket) {
    && t.client < |s.clients| && t.k < |s.clients[t.client].handle.sections|
    && t.k !in Done(s, t.client)
  }

  /** No live section, handed over or not, has its bytes under the name. */
  ghost predicate Free(s: State, name: string) {
    forall t: Ticket :: Live(s, t) ==> NameOf(s, t) != name
  }

  /** A section the daemon can be given, by a name that arrives. */
  ghost predicate Deliverable(section: H.Section, name: string, unpack: Unpack) {
    Proper(section) && Unpacks(section, unpack) && Q.Receive(name) == Q.Path(name)
  }

  /** What is handed over can be delivered. */
  ghost predicate HandsOverWell(c: H.Session, h: H.State, h': H.State, unpack: Unpack) {
    |h.handed| < |h'.handed| ==>
      |h.handed| < |h.sections| && Deliverable(h.sections[|h.handed|], H.FileName(c, |h.handed| + 1), unpack)
  }

  /** A new staging file takes no name that is in use, and spoils no description. */
  ghost predicate ActivatesWell(s: State, c: H.Session, h: H.State, h': H.State) {
    h.viewIndex < h'.viewIndex ==>
      && h'.saved.Some? && H.Reusable(c, h, h'.saved.value)
      && Free(s, H.FileName(c, h.viewIndex + 1))
  }

  /** Outside calls succeed, but for flushes; what is handed over is proper; no activation takes a name in use. */
  ghost predicate Orderly(s: State, e: Event, unpack: Unpack)
    requires Shaped(s) && Enabled(s, e, unpack)
  {
    && (e.OpenFile? ==> H.GoodSession(e.c))
    && (e.BeginSetView? ==> e.o.described && e.o.opens)
    && (ByClient(e) ==>
          var c, h, h' := s.clients[e.i].session, HandleOf(s, e.i), Moved(s, e, unpack).0;
          HandsOverWell(c, h, h', unpack) && ActivatesWell(s, c, h, h'))
  }

  // ----- what every orderly event keeps -----

  /** How many of a client's sections are handed over. */
  function ToHand(c: Client): int {
    if c.rest.Some? then c.handle.viewIndex else H.HandedCount(c.handle)
  }

  /** The client's live sections are in their files, as it left them. */
  ghost predicate ClientInv(s: State, i: nat)
    requires i < |s.clients|
  {
    && H.Sound(s.clients[i].session, HandleOf(s, i), ToHand(s.clients[i]), Done(s, i))
    && (s.clients[i].rest.Some? ==>
          var Rest(v, o) := s.clients[i].rest.value;
          !s.clients[i].handle.closed && H.GoodView(v) && o.described && o.opens)
  }

  /** How many hand-overs are the client's. */
  function Count(handed: seq<Ticket>, i: nat): nat {
    if handed == [] then 0
    else Count(handed[..|handed| - 1], i) + if handed[|handed| - 1].client == i then 1 else 0
  }

  /** Each client's sections are handed over in order, each once. */
  ghost predicate Numbered(handed: seq<Ticket>) {
    forall p :: 0 <= p < |handed| ==> handed[p].k == Count(handed[..p], handed[p].client)
  }

  ghost predicate GoodTicket(s: State, t: Ticket, unpack: Unpack) {
    && t.client < |s.clients| && t.k < |s.clients[t.client].handle.handed| <= |s.clients[t.client].handle.sections|
    && Deliverable(s.clients[t.client].handle.sections[t.k], NameOf(s, t), unpack)
  }

  /** Each client's hand-overs are numbered, as many as it knows of. */
  ghost predicate CountInv(s: State) {
    Numbered(s.handed) && forall i: nat :: i < |s.clients| ==> Count(s.handed, i) == |s.clients[i].handle.handed|
  }

  /** Every hand-over is of a proper section. */
  ghost predicate GoodInv(s: State, unpack: Unpack) {
    forall p :: 0 <= p < |s.handed| ==> GoodTicket(s, s.handed[p], unpack)
  }

  function NameAt(s: State, p: nat): string
    requires p < |s.daemon.names| + |s.sent|
  {
    if p < |s.daemon.names| then s.daemon.names[p] else s.sent[p - |s.daemon.names|]
  }

  /** The name of every hand-over has arrived at the daemon or is on its way there, in order. */
  ghost predicate NameInv(s: State) {
    && |s.daemon.names| + |s.sent| == |s.handed|
    && forall p: nat :: p < |s.handed| ==> s.handed[p].client < |s.clients| && NameAt(s, p) == NameOf(s, s.handed[p])
  }

  ghost predicate TicketInv(s: State, unpack: Unpack) {
    CountInv(s) && GoodInv(s, unpack) && NameInv(s)
  }

  /** No two live sections share a file. */
  ghost predicate Apart(s: State) {
    forall t: Ticket, u: Ticket :: Live(s, t) && Live(s, u) && t != u ==> NameOf(s, t) != NameOf(s, u)
  }

  ghost predicate Inv(s: State, unpack: Unpack) {
    && Shaped(s) && T.Inv(s.daemon.threads) && TicketInv(s, unpack) && Apart(s)
    && forall i: nat :: i < |s.clients| ==> ClientInv(s, i)
  }

  // ----- tickets -----

  lemma {:induction false} CountRises(handed: seq<Ticket>, p: nat, q: nat, i: nat)
    requires p <= q <= |handed|
    ensures Count(handed[..p], i) <= Count(handed[..q], i)
    decreases q
  {
    if p < q {
      CountRises(handed, p, q - 1, i);
      assert handed[..q][..q - 1] == handed[..q - 1];
    }
  }

  /** No section is handed over twice. */
  lemma NoneTwice(handed: seq<Ticket>, p: nat, q: nat)
    requires Numbered(handed) && p < q < |handed|
    ensures handed[p] != handed[q]
  {
    var i := handed[p].client;
    assert handed[..p + 1][..p] == handed[..p];
    CountRises(handed, p + 1, q, i);
  }

  lemma CountAppend(handed: seq<Ticket>, t: Ticket, i: nat)
    ensures Count(handed + [t], i) == Count(handed, i) + if t.client == i then 1 else 0
  {
    assert (handed + [t])[..|handed|] == handed;
  }

  lemma NumberedAppend(handed: seq<Ticket>, t: Ticket)
    requires Numbered(handed) && t.k == Count(handed, t.client)
    ensures Numbered(handed + [t])
  {
    forall p | 0 <= p < |handed + [t]|
      ensures (handed + [t])[p].k == Count((handed + [t])[..p], (handed + [t])[p].client)
    {
      assert (handed + [t])[..p] == if p < |handed| then handed[..p] else handed;
    }
  }

  /** A job not over is of a section that is not done. */
  lemma NotOverNotDone(s: State, id: nat)
    requires Numbered(s.handed) && id < |s.handed| && id !in s.daemon.threads.over
    ensures s.handed[id].k !in Done(s, s.handed[id].client)
  {
    if s.handed[id].k in Done(s, s.handed[id].client) {
      var id' :| id' in s.daemon.threads.over && id' < |s.handed| && s.handed[id'] == s.handed[id];
      NoneTwice(s.handed, if id < id' then id else id', if id < id' then id' else id);
    }
  }

  /** What is done was handed over. */
  lemma DoneWasHanded(s: State, i: nat, unpack: Unpack)
    requires TicketInv(s, unpack) && i < |s.clients|
    ensures forall k :: k in Done(s, i) ==> k < |s.clients[i].handle.handed|
  {
    forall k | k in Done(s, i)
      ensures k < |s.clients[i].handle.handed|
    {
      var id :| id in s.daemon.threads.over && id < |s.handed| && s.handed[id] == Ticket(i, k);
      assert GoodTicket(s, s.handed[id], unpack);
    }
  }

  // ----- the jobs of the hand-overs -----

  ghost function SentAs(s: State, t: Ticket): Sent
    requires t.client < |s.clients| && t.k < |s.clients[t.client].handle.sections|
  {
    Sent(s.clients[t.client].session.dest, s.clients[t.client].handle.sections[t.k])
  }

  lemma SentIsProper(s: State, t: Ticket, unpack: Unpack)
    requires GoodTicket(s, t, unpack)
    ensures Proper(SentAs(s, t).section)
  {
  }

  /** The sections the daemon was given so far, in the order their names arrived. */
  ghost function Given(s: State, unpack: Unpack): (sent: seq<Sent>)
    requires TicketInv(s, unpack)
    ensures |sent| == |s.daemon.names| && AllProper(sent)
  {
    assert |s.daemon.names| <= |s.handed|;
    forall p | 0 <= p < |s.handed|
      ensures s.handed[p].client < |s.clients| && s.handed[p].k < |s.clients[s.handed[p].client].handle.sections|
      ensures Proper(SentAs(s, s.handed[p]).section)
    {
      SentIsProper(s, s.handed[p], unpack);
    }
    seq(|s.daemon.names|, p requires 0 <= p < |s.daemon.names| => SentAs(s, s.handed[p]))
  }

  ghost function Jobs(s: State, unpack: Unpack): (jobs: seq<Job>)
    requires TicketInv(s, unpack)
    ensures JobsOf(Given(s, unpack), jobs) && GoodJobs(jobs)
  {
    var sent := Given(s, unpack);
    forall p | 0 <= p < |sent|
      ensures GoodJob(SectionJob(sent[p]))
    {
      SectionJobIsWhole(sent[p]);
    }
    seq(|sent|, p requires 0 <= p < |sent| => SectionJob(sent[p]))
  }

  lemma TicketIsIntact(s: State, id: nat, unpack: Unpack)
    requires Inv(s, unpack) && id < |s.daemon.names| && id !in s.daemon.threads.over
    ensures id < |s.handed| && GoodTicket(s, s.handed[id], unpack)
    ensures D.JobOf(s.daemon.dir, s.daemon.names[id], unpack) == Some(SectionJob(SentAs(s, s.handed[id])))
  {
    var t := s.handed[id];
    assert GoodTicket(s, t, unpack) && NameAt(s, id) == NameOf(s, t);
    NotOverNotDone(s, id);
    assert ClientInv(s, t.client);
    LiveTicketKept(s, t);
    LiveTicketJob(s, t, unpack);
  }

  lemma LiveTicketKept(s: State, t: Ticket)
    requires t.client < |s.clients| && ClientInv(s, t.client) && Live(s, t) && t.k < |s.clients[t.client].handle.handed|
    ensures H.Shaped(HandleOf(s, t.client))
    ensures H.Carries(s.clients[t.client].session, HandleOf(s, t.client), t.k)
    ensures H.Holds(s.clients[t.client].session, HandleOf(s, t.client), t.k)
  {
    assert H.KeepsSection(s.clients[t.client].session, HandleOf(s, t.client), ToHand(s.clients[t.client]), t.k);
  }

  lemma LiveTicketJob(s: State, t: Ticket, unpack: Unpack)
    requires GoodTicket(s, t, unpack) && H.Shaped(HandleOf(s, t.client))
    requires H.Carries(s.clients[t.client].session, HandleOf(s, t.client), t.k)
    requires H.Holds(s.clients[t.client].session, HandleOf(s, t.client), t.k)
    ensures D.JobOf(s.daemon.dir, NameOf(s, t), unpack) == Some(SectionJob(SentAs(s, t)))
  {
    HandedJob(s.clients[t.client].session, HandleOf(s, t.client), t.k, unpack);
  }

  /** Until its worker is done with it, every name handed over leads to the section it was sent for. */
  lemma LiveFilesAreIntact(s: State, unpack: Unpack)
    requires Inv(s, unpack)
    ensures D.Intact(s.daemon, Jobs(s, unpack), unpack)
  {
    forall id: nat | id < |s.daemon.names| && id !in s.daemon.threads.over
      ensures D.JobOf(s.daemon.dir, s.daemon.names[id], unpack) == Some(Jobs(s, unpack)[id])
    {
      TicketIsIntact(s, id, unpack);
    }
  }

  // ----- a client's event -----

  /** Only client i differs, and what it has handed over stands. */
  ghost predicate Grows(s: State, s': State, i: nat) {
    && i < |s.clients| == |s'.clients|
    && (forall j :: 0 <= j < |s.clients| && j != i ==> s'.clients[j] == s.clients[j])
    && s'.clients[i].session == s.clients[i].session
    && var h, h' := s.clients[i].handle, s'.clients[i].handle;
       && |h.handed| <= |h'.handed| <= |h'.sections| && |h.handed| <= |h.sections| <= |h'.sections| <= |h.sections| + 1
       && forall k :: 0 <= k < |h.handed| ==> h'.sections[k] == h.sections[k]
  }

  /** Jobs that are over were handed over. */
  ghost predicate OverInv(s: State) {
    forall id :: id in s.daemon.threads.over ==> id < |s.handed|
  }

  lemma OverWasHanded(s: State, unpack: Unpack)
    requires D.Shaped(s.daemon) && T.Inv(s.daemon.threads) && TicketInv(s, unpack)
    ensures OverInv(s)
  {
    assert |s.daemon.names| <= |s.handed|;
  }

  lemma DoneKept(s: State, s': State, j: nat)
    requires OverInv(s) && s'.daemon.threads == s.daemon.threads && s.handed <= s'.handed
    ensures Done(s', j) == Done(s, j)
  {
  }

  /** The others' live files are not the one that was touched. */
  ghost predicate LeavesAlone(s: State, i: nat, dir: D.Dir, touched: string) {
    dir == s.daemon.dir
    || (H.OnlyTouches(s.daemon.dir, dir, touched) && forall t: Ticket :: Live(s, t) && t.client != i ==> NameOf(s, t) != touched)
  }

  lemma FileLeftAlone(s: State, i: nat, dir: D.Dir, touched: string, t: Ticket)
    requires LeavesAlone(s, i, dir, touched) && Live(s, t) && t.client != i && NameOf(s, t) in s.daemon.dir
    ensures NameOf(s, t) in dir && dir[NameOf(s, t)] == s.daemon.dir[NameOf(s, t)]
  {
  }

  lemma OtherFileKept(s: State, i: nat, dir: D.Dir, touched: string, j: nat, k: nat)
    requires LeavesAlone(s, i, dir, touched) && j < |s.clients| && j != i
    requires k < |s.clients[j].handle.sections| && k !in Done(s, j)
    requires H.FileName(s.clients[j].session, k + 1) in s.daemon.dir
    ensures var name := H.FileName(s.clients[j].session, k + 1); name in dir && dir[name] == s.daemon.dir[name]
  {
    FileLeftAlone(s, i, dir, touched, Ticket(j, k));
  }

  lemma OtherClientKept(s: State, s': State, i: nat, touched: string, j: nat)
    requires LeavesAlone(s, i, s'.daemon.dir, touched)
    requires j < |s.clients| && j < |s'.clients| && s'.clients[j] == s.clients[j]
    requires j != i && Done(s', j) == Done(s, j) && ClientInv(s, j)
    ensures ClientInv(s', j)
  {
    var c, h, done := s.clients[j].session, HandleOf(s, j), Done(s, j);
    forall k: nat | k < |h.sections| && k !in done && H.FileName(c, k + 1) in h.files
      ensures var name := H.FileName(c, k + 1); name in s'.daemon.dir && s'.daemon.dir[name] == h.files[name]
    {
      OtherFileKept(s, i, s'.daemon.dir, touched, j, k);
    }
    assert HandleOf(s', j) == h.(files := s'.daemon.dir);
    H.OthersMove(c, h, ToHand(s.clients[j]), done, s'.daemon.dir, done);
  }

  lemma LiveBefore(s: State, s': State, i: nat, t: Ticket)
    requires Grows(s, s', i) && Done(s', t.client) == Done(s, t.client)
    requires Live(s', t) && t != Ticket(i, |s.clients[i].handle.sections|)
    ensures Live(s, t) && NameOf(s', t) == NameOf(s, t)
  {
  }

  lemma StillApart(s: State, s': State, i: nat)
    requires Apart(s) && Grows(s, s', i) && forall j: nat :: Done(s', j) == Done(s, j)
    requires var m := |s.clients[i].handle.sections|;
             m < |s'.clients[i].handle.sections| ==> Free(s, H.FileName(s.clients[i].session, m + 1))
    ensures Apart(s')
  {
    var added := Ticket(i, |s.clients[i].handle.sections|);
    forall t: Ticket, u: Ticket | Live(s', t) && Live(s', u) && t != u
      ensures NameOf(s', t) != NameOf(s', u)
    {
      if t != added {
        LiveBefore(s, s', i, t);
      }
      if u != added {
        LiveBefore(s, s', i, u);
      }
    }
  }

  lemma SectionStays(s: State, s': State, i: nat, t: Ticket)
    requires Grows(s, s', i) && t.client < |s.clients|
    requires t.k < |s.clients[t.client].handle.handed| <= |s.clients[t.client].handle.sections|
    ensures t.k < |s'.clients[t.client].handle.handed| <= |s'.clients[t.client].handle.sections|
    ensures s'.clients[t.client].session == s.clients[t.client].session
    ensures s'.clients[t.client].handle.sections[t.k] == s.clients[t.client].handle.sections[t.k]
  {
  }

  lemma GoodTicketKept(s: State, s': State, i: nat, t: Ticket, unpack: Unpack)
    requires Grows(s, s', i) && GoodTicket(s, t, unpack)
    ensures GoodTicket(s', t, unpack) && NameOf(s', t) == NameOf(s, t) && SentAs(s', t) == SentAs(s, t)
  {
    SectionStays(s, s', i, t);
  }

  lemma GoodTicketsKept(s: State, s': State, i: nat, unpack: Unpack)
    requires Grows(s, s', i) && GoodInv(s, unpack) && s'.handed == s.handed
    ensures GoodInv(s', unpack)
    ensures forall p: nat :: p < |s.handed| ==>
              s.handed[p].client < |s.clients| && NameOf(s', s.handed[p]) == NameOf(s, s.handed[p])
  {
    forall p: nat | p < |s.handed|
      ensures GoodTicket(s', s'.handed[p], unpack)
      ensures s.handed[p].client < |s.clients| && NameOf(s', s.handed[p]) == NameOf(s, s.handed[p])
    {
      assert GoodTicket(s, s.handed[p], unpack);
      GoodTicketKept(s, s', i, s.handed[p], unpack);
    }
  }

  lemma NameStays(s: State, s': State, p: nat)
    requires p < |s.daemon.names| + |s.sent| && s.sent <= s'.sent && s'.daemon.names == s.daemon.names
    ensures NameAt(s', p) == NameAt(s, p)
  {
  }

  /** The names on their way and arrived are as they were. */
  lemma NamesOnly(s: State, s': State)
    requires NameInv(s) && |s.clients| <= |s'.clients| && s'.handed == s.handed
    requires s'.daemon.names == s.daemon.names && s'.sent == s.sent
    requires forall p: nat :: p < |s.handed| ==> NameOf(s', s.handed[p]) == NameOf(s, s.handed[p])
    ensures NameInv(s')
  {
    forall p: nat | p < |s.handed|
      ensures NameAt(s', p) == NameOf(s', s'.handed[p])
    {
      NameStays(s, s', p);
      assert NameAt(s, p) == NameOf(s, s.handed[p]);
    }
  }

  lemma TicketsKept(s: State, s': State, i: nat, unpack: Unpack)
    requires TicketInv(s, unpack) && Grows(s, s', i) && s'.clients[i].handle.handed == s.clients[i].handle.handed
    requires s'.handed == s.handed && s'.sent == s.sent && s'.daemon.names == s.daemon.names
    ensures TicketInv(s', unpack)
  {
    GoodTicketsKept(s, s', i, unpack);
    NamesOnly(s, s');
  }

  lemma CountAdded(s: State, s': State, i: nat)
    requires CountInv(s) && Grows(s, s', i)
    requires |s'.clients[i].handle.handed| == |s.clients[i].handle.handed| + 1
    requires s'.handed == s.handed + [Ticket(i, |s.clients[i].handle.handed|)]
    ensures CountInv(s')
  {
    var t := Ticket(i, |s.clients[i].handle.handed|);
    NumberedAppend(s.handed, t);
    forall j: nat | j < |s'.clients|
      ensures Count(s'.handed, j) == |s'.clients[j].handle.handed|
    {
      CountAppend(s.handed, t, j);
    }
  }

  lemma NameAdded(s: State, s': State, t: Ticket)
    requires NameInv(s) && |s.clients| <= |s'.clients| && t.client < |s'.clients|
    requires forall p: nat :: p < |s.handed| ==> NameOf(s', s.handed[p]) == NameOf(s, s.handed[p])
    requires s'.handed == s.handed + [t] && s'.sent == s.sent + [NameOf(s', t)] && s'.daemon.names == s.daemon.names
    ensures NameInv(s')
  {
    forall p: nat | p < |s'.handed|
      ensures s'.handed[p].client < |s'.clients| && NameAt(s', p) == NameOf(s', s'.handed[p])
    {
      if p < |s.handed| {
        assert NameAt(s, p) == NameOf(s, s.handed[p]) && s'.handed[p] == s.handed[p];
        NameStays(s, s', p);
      }
    }
  }

  lemma GoodAdded(s: State, s': State, i: nat, t: Ticket, unpack: Unpack)
    requires GoodInv(s, unpack) && Grows(s, s', i) && s'.handed == s.handed + [t] && GoodTicket(s', t, unpack)
    ensures GoodInv(s', unpack)
    ensures forall p: nat :: p < |s.handed| ==>
              s.handed[p].client < |s.clients| && NameOf(s', s.handed[p]) == NameOf(s, s.handed[p])
  {
    forall p: nat | p < |s.handed|
      ensures GoodTicket(s', s'.handed[p], unpack)
      ensures s.handed[p].client < |s.clients| && NameOf(s', s.handed[p]) == NameOf(s, s.handed[p])
    {
      assert s'.handed[p] == s.handed[p] && GoodTicket(s, s.handed[p], unpack);
      GoodTicketKept(s, s', i, s.handed[p], unpack);
    }
  }

  lemma TicketAdded(s: State, s': State, i: nat, t: Ticket, unpack: Unpack)
    requires TicketInv(s, unpack) && Grows(s, s', i) && t == Ticket(i, |s.clients[i].handle.handed|)
    requires |s'.clients[i].handle.handed| == |s.clients[i].handle.handed| + 1
    requires s'.handed == s.handed + [t] && GoodTicket(s', t, unpack)
    requires s'.sent == s.sent + [NameOf(s', t)] && s'.daemon.names == s.daemon.names
    ensures TicketInv(s', unpack)
  {
    CountAdded(s, s', i);
    GoodAdded(s, s', i, t, unpack);
    NameAdded(s, s', t);
  }

  /** The client's next section is handed over by its own name, to be delivered. */
  ghost predicate HandsOn(c: H.Session, h': H.State, n: nat, unpack: Unpack) {
    && n < |h'.handed| <= |h'.sections| && h'.handed[n] == H.FileName(c, n + 1)
    && Deliverable(h'.sections[n], H.FileName(c, n + 1), unpack)
  }

  /** What a client's event does, as far as the client is concerned. */
  ghost predicate OwnMove(s: State, i: nat, h': H.State, rest: Option<Rest>, unpack: Unpack)
    requires Shaped(s) && i < |s.clients|
  {
    var c, h := s.clients[i].session, HandleOf(s, i);
    var n, m := |h.handed|, |h.sections|;
    && H.Sound(c, h', ToHand(Client(c, h', rest)), Done(s, i))
    && (rest.Some? ==> !h'.closed && H.GoodView(rest.value.v) && rest.value.o.described && rest.value.o.opens)
    && Grows(s, Move(s, i, h', rest), i) && |h'.handed| <= n + 1
    && (m < |h'.sections| ==> Free(s, H.FileName(c, m + 1)))
    && (n == |h'.handed| ==> h'.handed == h.handed)
    && (n < |h'.handed| ==>
          n < m && h'.sections[n] == h.sections[n] && HandsOn(c, h', n, unpack))
  }

  lemma MoveAppends(s: State, i: nat, h': H.State, rest: Option<Rest>, t: Ticket)
    requires i < |s.clients| && t == Ticket(i, |s.clients[i].handle.handed|) && t.k < |h'.handed|
    requires h'.handed[t.k] == H.FileName(s.clients[i].session, t.k + 1)
    ensures var s' := Move(s, i, h', rest);
            && t.client < |s'.clients| && s'.clients[i].handle == h' && NameOf(s', t) == H.FileName(s.clients[i].session, t.k + 1)
            && s'.handed == s.handed + [t] && s'.sent == s.sent + [NameOf(s', t)] && s'.daemon.names == s.daemon.names
  {
  }

  lemma TicketIsGood(s: State, t: Ticket, section: H.Section, name: string, unpack: Unpack)
    requires t.client < |s.clients| && t.k < |s.clients[t.client].handle.handed| <= |s.clients[t.client].handle.sections|
    requires section == s.clients[t.client].handle.sections[t.k] && name == NameOf(s, t) && Deliverable(section, name, unpack)
    ensures GoodTicket(s, t, unpack)
  {
  }

  lemma MoveHandsOver(s: State, i: nat, h': H.State, rest: Option<Rest>, t: Ticket, unpack: Unpack)
    requires i < |s.clients| && t == Ticket(i, |s.clients[i].handle.handed|)
    requires HandsOn(s.clients[i].session, h', t.k, unpack)
    ensures var s' := Move(s, i, h', rest);
            && t.client < |s'.clients| && GoodTicket(s', t, unpack) && s'.handed == s.handed + [t]
            && s'.sent == s.sent + [NameOf(s', t)] && s'.daemon.names == s.daemon.names
  {
    MoveAppends(s, i, h', rest, t);
    TicketIsGood(Move(s, i, h', rest), t, h'.sections[t.k], H.FileName(s.clients[i].session, t.k + 1), unpack);
  }

  lemma TicketsGrow(s: State, i: nat, h': H.State, rest: Option<Rest>, n: nat, unpack: Unpack)
    requires TicketInv(s, unpack) && i < |s.clients| && Grows(s, Move(s, i, h', rest), i)
    requires n == |s.clients[i].handle.handed| && |h'.handed| <= n + 1
    requires if n < |h'.handed| then HandsOn(s.clients[i].session, h', n, unpack) else h'.handed == s.clients[i].handle.handed
    ensures TicketInv(Move(s, i, h', rest), unpack)
  {
    if n < |h'.handed| {
      MoveHandsOver(s, i, h', rest, Ticket(i, n), unpack);
      TicketAdded(s, Move(s, i, h', rest), i, Ticket(i, n), unpack);
    } else {
      TicketsKept(s, Move(s, i, h', rest), i, unpack);
    }
  }

  lemma TicketsAfterMove(s: State, i: nat, h': H.State, rest: Option<Rest>, unpack: Unpack)
    requires Shaped(s) && TicketInv(s, unpack) && i < |s.clients| && OwnMove(s, i, h', rest, unpack)
    ensures TicketInv(Move(s, i, h', rest), unpack)
  {
    TicketsGrow(s, i, h', rest, |s.clients[i].handle.handed|, unpack);
  }

  lemma ClientsAfterMove(s: State, i: nat, h': H.State, rest: Option<Rest>, touched: string, unpack: Unpack)
    requires Shaped(s) && OverInv(s) && (forall j: nat :: j < |s.clients| ==> ClientInv(s, j))
    requires i < |s.clients| && OwnMove(s, i, h', rest, unpack) && LeavesAlone(s, i, h'.files, touched)
    ensures var t := Move(s, i, h', rest); Shaped(t) && forall j: nat :: j < |t.clients| ==> ClientInv(t, j)
  {
    var s' := Move(s, i, h', rest);
    assert HandleOf(s', i) == h';
    forall j: nat | j < |s'.clients|
      ensures ClientInv(s', j) && H.Shaped(HandleOf(s', j))
    {
      DoneKept(s, s', j);
      if j != i {
        OtherClientKept(s, s', i, touched, j);
      }
    }
  }

  lemma ApartAfterMove(s: State, i: nat, h': H.State, rest: Option<Rest>, unpack: Unpack)
    requires Shaped(s) && OverInv(s) && Apart(s) && i < |s.clients| && OwnMove(s, i, h', rest, unpack)
    ensures Apart(Move(s, i, h', rest))
  {
    var s' := Move(s, i, h', rest);
    forall j: nat
      ensures Done(s', j) == Done(s, j)
    {
      DoneKept(s, s', j);
    }
    StillApart(s, s', i);
  }

  lemma MoveKeeps(s: State, i: nat, h': H.State, rest: Option<Rest>, touched: string, unpack: Unpack)
    requires Inv(s, unpack) && i < |s.clients| && OwnMove(s, i, h', rest, unpack)
    requires LeavesAlone(s, i, h'.files, touched)
    ensures Inv(Move(s, i, h', rest), unpack)
  {
    OverWasHanded(s, unpack);
    ClientsAfterMove(s, i, h', rest, touched, unpack);
    TicketsAfterMove(s, i, h', rest, unpack);
    ApartAfterMove(s, i, h', rest, unpack);
  }

  // ----- the events, one by one -----

  lemma ActiveIsLive(s: State, i: nat)
    requires i < |s.clients| && ClientInv(s, i)
    requires s.clients[i].handle.state == H.ACTIVE && ToHand(s.clients[i]) == s.clients[i].handle.viewIndex - 1
    ensures s.clients[i].handle.viewIndex > 0 && Live(s, Ticket(i, s.clients[i].handle.viewIndex - 1))
  {
  }

  /** A live section's file is no other's. */
  lemma OwnFileIsAlone(s: State, i: nat, k: nat)
    requires Apart(s) && Live(s, Ticket(i, k))
    ensures forall t: Ticket :: Live(s, t) && t.client != i ==> NameOf(s, t) != H.FileName(s.clients[i].session, k + 1)
  {
    assert NameOf(s, Ticket(i, k)) == H.FileName(s.clients[i].session, k + 1);
  }

  /** A call that hands over a section, or nothing, is the client's own affair. */
  lemma HandOverMoves(s: State, i: nat, h': H.State, rest: Option<Rest>, unpack: Unpack)
    requires Shaped(s) && Idle(s, i) && ClientInv(s, i)
    requires var h := HandleOf(s, i);
             && h' == h.(files := h'.files, handed := h'.handed, closed := h'.closed)
             && (h'.handed == h.handed || h'.handed == h.handed + [H.FileName(s.clients[i].session, |h.handed| + 1)])
             && HandsOverWell(s.clients[i].session, h, h', unpack)
    requires H.Sound(s.clients[i].session, h', ToHand(Client(s.clients[i].session, h', rest)), Done(s, i))
    requires rest.Some? ==> !h'.closed && H.GoodView(rest.value.v) && rest.value.o.described && rest.value.o.opens
    ensures OwnMove(s, i, h', rest, unpack)
  {
  }

  lemma BeginFits(s: State, i: nat, datarep: string, sequential: bool, v: H.SavedView, o: H.Outcome, unpack: Unpack)
    requires Shaped(s) && Idle(s, i) && ClientInv(s, i) && H.GoodView(v) && o.described && o.opens
    requires var c, h := s.clients[i].session, HandleOf(s, i);
             HandsOverWell(c, h, H.BeginSetView(c, h, datarep, sequential, v, o).0, unpack)
    ensures var (h', code) := H.BeginSetView(s.clients[i].session, HandleOf(s, i), datarep, sequential, v, o);
            OwnMove(s, i, h', if code == H.SUCCESS then Some(Rest(v, o)) else None, unpack)
  {
    var c, h := s.clients[i].session, HandleOf(s, i);
    var (h', code) := H.BeginSetView(c, h, datarep, sequential, v, o);
    H.BeginKeeps(c, h, datarep, sequential, v, o, Done(s, i));
    H.BeginFrame(c, h, datarep, sequential, v, o, Done(s, i));
    HandOverMoves(s, i, h', if code == H.SUCCESS then Some(Rest(v, o)) else None, unpack);
  }

  lemma BeginMoves(s: State, e: Event, unpack: Unpack)
    requires Inv(s, unpack) && e.BeginSetView? && Enabled(s, e, unpack) && Orderly(s, e, unpack)
    ensures OwnMove(s, e.i, Moved(s, e, unpack).0, Moved(s, e, unpack).1, unpack)
  {
    assert ClientInv(s, e.i);
    BeginFits(s, e.i, e.datarep, e.sequential, e.v, e.o, unpack);
  }

  lemma BeginLeavesAlone(s: State, i: nat, datarep: string, sequential: bool, v: H.SavedView, o: H.Outcome)
    requires Apart(s) && Idle(s, i) && ClientInv(s, i)
    ensures var c, h := s.clients[i].session, HandleOf(s, i);
            LeavesAlone(s, i, H.BeginSetView(c, h, datarep, sequential, v, o).0.files, H.FileName(c, h.viewIndex))
  {
    H.BeginTouches(s.clients[i].session, HandleOf(s, i), datarep, sequential, v, o);
    if s.clients[i].handle.state == H.ACTIVE {
      ActiveIsLive(s, i);
      OwnFileIsAlone(s, i, s.clients[i].handle.viewIndex - 1);
    }
  }

  lemma BeginKeeps(s: State, e: Event, unpack: Unpack)
    requires Inv(s, unpack) && e.BeginSetView? && Enabled(s, e, unpack) && Orderly(s, e, unpack)
    ensures Inv(Next(s, e, unpack), unpack)
  {
    var c, h := s.clients[e.i].session, HandleOf(s, e.i);
    assert ClientInv(s, e.i);
    BeginMoves(s, e, unpack);
    BeginLeavesAlone(s, e.i, e.datarep, e.sequential, e.v, e.o);
    MoveKeeps(s, e.i, Moved(s, e, unpack).0, Moved(s, e, unpack).1, H.FileName(c, h.viewIndex), unpack);
  }

  /** What the second part of set_view does to the history of the handle. */
  lemma FinishFrame(c: H.Session, h: H.State, v: H.SavedView, o: H.Outcome)
    ensures var h' := H.FinishSetView(c, h, v, o).0;
            && h'.handed == h.handed
            && h.viewIndex <= h'.viewIndex <= h.viewIndex + 1
            && (h'.viewIndex == h.viewIndex ==> h'.sections == h.sections)
            && (h.viewIndex < h'.viewIndex ==> h'.sections == h.sections + [H.Section(v, [])] && h'.saved == Some(v))
  {
  }

  lemma FinishMoves(s: State, i: nat, unpack: Unpack)
    requires Inv(s, unpack) && i < |s.clients| && s.clients[i].rest.Some?
    requires var r := s.clients[i].rest.value;
             ActivatesWell(s, s.clients[i].session, HandleOf(s, i),
                           H.FinishSetView(s.clients[i].session, HandleOf(s, i), r.v, r.o).0)
    ensures var r := s.clients[i].rest.value;
            OwnMove(s, i, H.FinishSetView(s.clients[i].session, HandleOf(s, i), r.v, r.o).0, None, unpack)
  {
    var c, h, r := s.clients[i].session, HandleOf(s, i), s.clients[i].rest.value;
    assert ClientInv(s, i);
    FinishFrame(c, h, r.v, r.o);
    H.FinishKeeps(c, h, r.v, r.o, Done(s, i));
  }

  lemma FinishKeeps(s: State, e: Event, unpack: Unpack)
    requires Inv(s, unpack) && e.FinishSetView? && Enabled(s, e, unpack) && Orderly(s, e, unpack)
    ensures Inv(Next(s, e, unpack), unpack)
  {
    var c, h, r := s.clients[e.i].session, HandleOf(s, e.i), s.clients[e.i].rest.value;
    FinishMoves(s, e.i, unpack);
    FinishFrame(c, h, r.v, r.o);
    H.FinishTouches(c, h, r.v, r.o);
    MoveKeeps(s, e.i, H.FinishSetView(c, h, r.v, r.o).0, None, H.FileName(c, h.viewIndex + 1), unpack);
  }

  /** A call that changes nothing. */
  lemma StayMoves(s: State, i: nat, unpack: Unpack)
    requires Inv(s, unpack) && Idle(s, i)
    ensures OwnMove(s, i, HandleOf(s, i), None, unpack)
  {
    assert ClientInv(s, i);
  }

  lemma WriteMoves(s: State, i: nat, w: Write, unpack: Unpack)
    requires Inv(s, unpack) && Idle(s, i) && s.clients[i].handle.state == H.ACTIVE
    ensures OwnMove(s, i, H.WriteStaged(HandleOf(s, i), w), None, unpack)
  {
    var c, h := s.clients[i].session, HandleOf(s, i);
    assert ClientInv(s, i);
    H.WriteKeeps(c, h, w, Done(s, i));
    H.WrittenFile(c, h, w, Done(s, i));
  }

  lemma CloseMoves(s: State, i: nat, o: H.Outcome, unpack: Unpack)
    requires Inv(s, unpack) && Idle(s, i)
    requires HandsOverWell(s.clients[i].session, HandleOf(s, i), H.Close(s.clients[i].session, HandleOf(s, i), o).0, unpack)
    ensures OwnMove(s, i, H.Close(s.clients[i].session, HandleOf(s, i), o).0, None, unpack)
  {
    var c, h := s.clients[i].session, HandleOf(s, i);
    assert ClientInv(s, i);
    H.CloseKeeps(c, h, o, Done(s, i));
    H.CloseFrame(c, h, o, Done(s, i));
    HandOverMoves(s, i, H.Close(c, h, o).0, None, unpack);
  }

  lemma AtomicityMoves(s: State, i: nat, flag: bool, agreed: bool, supported: bool, unpack: Unpack)
    requires Inv(s, unpack) && Idle(s, i)
    ensures OwnMove(s, i, H.SetAtomicity(HandleOf(s, i), flag, agreed, supported).0, None, unpack)
  {
    assert ClientInv(s, i);
    H.AtomicityKeeps(s.clients[i].session, HandleOf(s, i), flag, agreed, supported, Done(s, i));
  }

  lemma CallMoves(s: State, i: nat, call: H.Event, unpack: Unpack)
    requires Inv(s, unpack) && Idle(s, i) && !call.SetViewCall?
    requires HandsOverWell(s.clients[i].session, HandleOf(s, i), H.Next(s.clients[i].session, HandleOf(s, i), call), unpack)
    ensures OwnMove(s, i, H.Next(s.clients[i].session, HandleOf(s, i), call), None, unpack)
  {
    match call
    case WriteCall(w) =>
      if s.clients[i].handle.state == H.ACTIVE {
        WriteMoves(s, i, w, unpack);
      } else {
        StayMoves(s, i, unpack);
      }
    case CloseCall(o) => CloseMoves(s, i, o, unpack);
    case SetAtomicityCall(flag, agreed, supported) => AtomicityMoves(s, i, flag, agreed, supported, unpack);
  }

  lemma CallLeavesAlone(s: State, i: nat, call: H.Event)
    requires Apart(s) && Idle(s, i) && ClientInv(s, i) && !call.SetViewCall?
    ensures var c, h := s.clients[i].session, HandleOf(s, i);
            LeavesAlone(s, i, H.Next(c, h, call).files, H.FileName(c, h.viewIndex))
  {
    H.OtherCallsTouch(s.clients[i].session, HandleOf(s, i), call);
    if s.clients[i].handle.state == H.ACTIVE {
      ActiveIsLive(s, i);
      OwnFileIsAlone(s, i, s.clients[i].handle.viewIndex - 1);
    }
  }

  lemma CallKeeps(s: State, e: Event, unpack: Unpack)
    requires Inv(s, unpack) && e.Call? && Enabled(s, e, unpack) && Orderly(s, e, unpack)
    ensures Inv(Next(s, e, unpack), unpack)
  {
    var c, h := s.clients[e.i].session, HandleOf(s, e.i);
    assert ClientInv(s, e.i);
    CallMoves(s, e.i, e.call, unpack);
    CallLeavesAlone(s, e.i, e.call);
    MoveKeeps(s, e.i, H.Next(c, h, e.call), None, H.FileName(c, h.viewIndex), unpack);
  }

  /** One more client, that has done nothing yet. */
  function Joining(s: State, c: H.Session): State {
    s.(clients := s.clients + [Client(c, H.Opened(s.daemon.dir), None)])
  }

  lemma OpenGood(s: State, c: H.Session, unpack: Unpack)
    requires GoodInv(s, unpack)
    ensures GoodInv(Joining(s, c), unpack)
    ensures forall p: nat :: p < |s.handed| ==>
              s.handed[p].client < |s.clients| && NameOf(Joining(s, c), s.handed[p]) == NameOf(s, s.handed[p])
  {
    forall p: nat | p < |s.handed|
      ensures GoodTicket(Joining(s, c), s.handed[p], unpack)
      ensures s.handed[p].client < |s.clients| && NameOf(Joining(s, c), s.handed[p]) == NameOf(s, s.handed[p])
    {
      assert GoodTicket(s, s.handed[p], unpack);
    }
  }

  lemma OpenCount(s: State, c: H.Session)
    requires CountInv(s) && Count(s.handed, |s.clients|) == 0
    ensures CountInv(Joining(s, c))
  {
  }

  lemma OpenTickets(s: State, c: H.Session, unpack: Unpack)
    requires TicketInv(s, unpack)
    ensures TicketInv(Joining(s, c), unpack)
  {
    NothingYet(s, unpack);
    OpenCount(s, c);
    OpenGood(s, c, unpack);
    NamesOnly(s, Joining(s, c));
  }

  lemma OldClientKept(s: State, c: H.Session, j: nat)
    requires j < |s.clients| && ClientInv(s, j)
    ensures ClientInv(Joining(s, c), j)
  {
    assert HandleOf(Joining(s, c), j) == HandleOf(s, j) && Done(Joining(s, c), j) == Done(s, j);
  }

  lemma NewClientFine(s: State, c: H.Session)
    requires H.GoodSession(c) && Done(s, |s.clients|) == {}
    ensures ClientInv(Joining(s, c), |s.clients|)
  {
    assert Done(Joining(s, c), |s.clients|) == {};
    H.OpenedIsSound(c, s.daemon.dir);
  }

  lemma OpenApart(s: State, c: H.Session)
    requires Apart(s)
    ensures Apart(Joining(s, c))
  {
    var s' := Joining(s, c);
    forall t: Ticket | Live(s', t)
      ensures Live(s, t) && NameOf(s', t) == NameOf(s, t)
    {
    }
  }

  lemma OpenKeeps(s: State, c: H.Session, unpack: Unpack)
    requires Inv(s, unpack) && H.GoodSession(c)
    ensures Inv(Joining(s, c), unpack)
  {
    OpenTickets(s, c, unpack);
    OpenApart(s, c);
    NothingYet(s, unpack);
    NewClientFine(s, c);
    forall j: nat | j <= |s.clients|
      ensures ClientInv(Joining(s, c), j) && H.Shaped(HandleOf(Joining(s, c), j))
    {
      if j < |s.clients| {
        OldClientKept(s, c, j);
      }
    }
  }

  /** No hand-over is of a client to come. */
  lemma NothingYet(s: State, unpack: Unpack)
    requires TicketInv(s, unpack)
    ensures Done(s, |s.clients|) == {} && Count(s.handed, |s.clients|) == 0
  {
    forall p | 0 <= p < |s.handed|
      ensures s.handed[p].client != |s.clients|
    {
      assert GoodTicket(s, s.handed[p], unpack);
    }
    NoneCounted(s.handed, |s.clients|);
  }

  lemma {:induction false} NoneCounted(handed: seq<Ticket>, i: nat)
    requires forall p :: 0 <= p < |handed| ==> handed[p].client != i
    ensures Count(handed, i) == 0
  {
    if handed != [] {
      NoneCounted(handed[..|handed| - 1], i);
    }
  }

  /** A step of the daemon that leaves the directory alone: sections may be done with. */
  lemma DaemonClientKept(s: State, s': State, j: nat, unpack: Unpack)
    requires TicketInv(s, unpack) && j < |s.clients| && ClientInv(s, j)
    requires s'.clients == s.clients && s'.handed == s.handed && s'.daemon.dir == s.daemon.dir
    requires s.daemon.threads.over <= s'.daemon.threads.over && TicketInv(s', unpack)
    ensures ClientInv(s', j) && Done(s, j) <= Done(s', j)
  {
    DoneWasHanded(s', j, unpack);
    H.OthersMove(s.clients[j].session, HandleOf(s, j), ToHand(s.clients[j]), Done(s, j), s.daemon.dir, Done(s', j));
  }

  lemma DaemonKeeps(s: State, s': State, unpack: Unpack)
    requires Inv(s, unpack) && s'.clients == s.clients && s'.handed == s.handed && s'.daemon.dir == s.daemon.dir
    requires D.Shaped(s'.daemon) && T.Inv(s'.daemon.threads) && s.daemon.threads.over <= s'.daemon.threads.over
    requires NameInv(s')
    ensures Inv(s', unpack)
  {
    forall p | 0 <= p < |s'.handed|
      ensures GoodTicket(s', s'.handed[p], unpack)
    {
      assert GoodTicket(s, s.handed[p], unpack);
    }
    forall j: nat | j < |s'.clients|
      ensures ClientInv(s', j) && Done(s, j) <= Done(s', j) && H.Shaped(HandleOf(s', j))
    {
      DaemonClientKept(s, s', j, unpack);
    }
    forall t: Ticket | Live(s', t)
      ensures Live(s, t) && NameOf(s', t) == NameOf(s, t)
    {
    }
  }

  lemma DaemonEventKeeps(s: State, e: Event, unpack: Unpack)
    requires Inv(s, unpack) && e.Daemon? && Enabled(s, e, unpack)
    ensures Inv(Next(s, e, unpack), unpack)
  {
    var s' := Next(s, e, unpack);
    D.ShapedStep(s.daemon, e.e, unpack);
    D.ThreadsKeep(s.daemon, e.e, unpack);
    D.FilesKept(s.daemon, e.e, unpack);
    NamesOnly(s, s');
    DaemonKeeps(s, s', unpack);
  }

  /** The first name on its way is the next hand-over's, and arrives as it was sent. */
  lemma NextArrives(s: State, unpack: Unpack)
    requires TicketInv(s, unpack) && s.sent != []
    ensures |s.daemon.names| < |s.handed| && GoodTicket(s, s.handed[|s.daemon.names|], unpack)
    ensures s.sent[0] == NameOf(s, s.handed[|s.daemon.names|]) && Q.Receive(s.sent[0]) == Q.Path(s.sent[0])
  {
    var p := |s.daemon.names|;
    assert GoodTicket(s, s.handed[p], unpack) && NameAt(s, p) == NameOf(s, s.handed[p]);
  }

  /** The state after the next name has arrived. */
  ghost function Arrived(s: State, unpack: Unpack): State
    requires Shaped(s) && Enabled(s, Deliver, unpack)
  {
    s.(sent := s.sent[1..], daemon := D.Next(s.daemon, D.Accept(s.sent[0]), unpack))
  }

  lemma NameShifted(s: State, s': State, p: nat)
    requires p < |s.daemon.names| + |s.sent| && s.sent != []
    requires s'.daemon.names == s.daemon.names + [s.sent[0]] && s'.sent == s.sent[1..]
    ensures NameAt(s', p) == NameAt(s, p)
  {
    if p > |s.daemon.names| {
      assert s.sent[1..][p - |s.daemon.names| - 1] == s.sent[p - |s.daemon.names|];
    }
  }

  lemma NamesShift(s: State, s': State)
    requires NameInv(s) && s.sent != [] && s'.clients == s.clients && s'.handed == s.handed
    requires s'.daemon.names == s.daemon.names + [s.sent[0]] && s'.sent == s.sent[1..]
    ensures NameInv(s')
  {
    forall p: nat | p < |s.handed|
      ensures NameAt(s', p) == NameOf(s', s'.handed[p])
    {
      NameShifted(s, s', p);
      assert NameAt(s, p) == NameOf(s, s.handed[p]);
    }
  }

  lemma ArrivedKeeps(s: State, unpack: Unpack)
    requires Inv(s, unpack) && Enabled(s, Deliver, unpack)
    ensures Inv(Arrived(s, unpack), unpack)
  {
    D.ShapedStep(s.daemon, D.Accept(s.sent[0]), unpack);
    D.ThreadsKeep(s.daemon, D.Accept(s.sent[0]), unpack);
    D.FilesKept(s.daemon, D.Accept(s.sent[0]), unpack);
    NamesShift(s, Arrived(s, unpack));
    DaemonKeeps(s, Arrived(s, unpack), unpack);
  }

  lemma DeliverIsArrival(s: State, unpack: Unpack)
    requires Shaped(s) && Enabled(s, Deliver, unpack) && Q.Receive(s.sent[0]) == Q.Path(s.sent[0])
    ensures Next(s, Deliver, unpack) == Arrived(s, unpack)
  {
  }

  /** Every orderly event, of whichever party, keeps all live staging files as they were left. */
  lemma InvStep(s: State, e: Event, unpack: Unpack)
    requires Inv(s, unpack) && Enabled(s, e, unpack) && Orderly(s, e, unpack)
    ensures Inv(Next(s, e, unpack), unpack)
  {
    match e
    case OpenFile(c) => OpenKeeps(s, c, unpack);
    case BeginSetView(_, _, _, _, _) => BeginKeeps(s, e, unpack);
    case FinishSetView(_) => FinishKeeps(s, e, unpack);
    case Call(_, _) => CallKeeps(s, e, unpack);
    case Deliver =>
      NextArrives(s, unpack);
      DeliverIsArrival(s, unpack);
      ArrivedKeeps(s, unpack);
    case Daemon(_) => DaemonEventKeeps(s, e, unpack);
  }

  // ----- runs -----

  /** Each event of the run is enabled where it happens. */
  ghost predicate Legal(s: State, es: seq<Event>, unpack: Unpack)
    decreases |es|, 0
  {
    es == [] ||
    var front := es[..|es| - 1];
    && Legal(s, front, unpack) && Shaped(After(s, front, unpack))
    && Enabled(After(s, front, unpack), es[|es| - 1], unpack)
  }

  ghost function After(s: State, es: seq<Event>, unpack: Unpack): State
    requires Legal(s, es, unpack)
    decreases |es|, 1
  {
    if es == [] then s else Next(After(s, es[..|es| - 1], unpack), es[|es| - 1], unpack)
  }

  ghost predicate OrderlyRun(s: State, es: seq<Event>, unpack: Unpack)
    requires Legal(s, es, unpack)
  {
    es != [] ==>
      var front := es[..|es| - 1];
      OrderlyRun(s, front, unpack) && Orderly(After(s, front, unpack), es[|es| - 1], unpack)
  }

  lemma InitInv(n: nat, dir: D.Dir, disk: Disk, unpack: Unpack)
    ensures Inv(Init(n, dir, disk), unpack)
  {
    T.InitInv(n);
  }

  /** The step of the daemon behind an event, if there is one. */
  ghost function DaemonEvent(s: State, e: Event, unpack: Unpack): D.Event
    requires Shaped(s) && Enabled(s, e, unpack)
  {
    match e
    case OpenFile(_) => D.Stage(s.daemon.dir)
    case Deliver => D.Accept(s.sent[0])
    case Daemon(e) => e
    case _ => D.Stage(Moved(s, e, unpack).0.files)
  }

  /** Seen from the daemon, clients change the directory, and names arrive. */
  lemma DaemonMoves(s: State, e: Event, unpack: Unpack)
    requires Inv(s, unpack) && Enabled(s, e, unpack)
    ensures D.Enabled(s.daemon, DaemonEvent(s, e, unpack), unpack)
    ensures Next(s, e, unpack).daemon == D.Next(s.daemon, DaemonEvent(s, e, unpack), unpack)
  {
    if e.Deliver? {
      NextArrives(s, unpack);
      DeliverIsArrival(s, unpack);
    }
  }

  /** The invariant holds over every orderly run, and a single worker takes one job at a time. */
  lemma {:induction false} RunKeepsInv(n: nat, dir: D.Dir, disk: Disk, es: seq<Event>, unpack: Unpack)
    requires Legal(Init(n, dir, disk), es, unpack) && OrderlyRun(Init(n, dir, disk), es, unpack)
    ensures var s := After(Init(n, dir, disk), es, unpack);
            && Inv(s, unpack) && |s.daemon.threads.workers| == n
            && (n == 1 ==> T.OneAtATime(s.daemon.threads))
    decreases |es|
  {
    if es == [] {
      InitInv(n, dir, disk, unpack);
    } else {
      var front, e := es[..|es| - 1], es[|es| - 1];
      var s := After(Init(n, dir, disk), front, unpack);
      RunKeepsInv(n, dir, disk, front, unpack);
      InvStep(s, e, unpack);
      DaemonMoves(s, e, unpack);
      D.ThreadsKeep(s.daemon, DaemonEvent(s, e, unpack), unpack);
      D.OneWorkerKeeps(s.daemon, DaemonEvent(s, e, unpack), unpack);
    }
  }

  // ----- what the replays leave -----

  /** The disk is what the bytes written of the sections delivered so far leave, section after section. */
  ghost predicate Replayed(s: State, disk: Disk, unpack: Unpack)
    requires TicketInv(s, unpack)
  {
    D.ProgressInv(s.daemon, Jobs(s, unpack)) && D.DiskInv(s.daemon, Jobs(s, unpack), disk)
  }

  /** No event changes what was handed over before it. */
  lemma SentKept(s: State, e: Event, p: nat, unpack: Unpack)
    requires Inv(s, unpack) && Enabled(s, e, unpack) && Orderly(s, e, unpack) && p < |s.handed|
    ensures GoodTicket(s, s.handed[p], unpack)
    ensures var t := Next(s, e, unpack);
            p < |t.handed| && t.handed[p] == s.handed[p] && GoodTicket(t, s.handed[p], unpack)
            && SentAs(t, s.handed[p]) == SentAs(s, s.handed[p])
  {
    var t := Next(s, e, unpack);
    assert GoodTicket(s, s.handed[p], unpack);
    if ByClient(e) {
      ClientGrows(s, e, unpack);
      GoodTicketKept(s, t, e.i, s.handed[p], unpack);
    } else if e.Deliver? {
      NextArrives(s, unpack);
      DeliverIsArrival(s, unpack);
    }
  }

  lemma ClientGrows(s: State, e: Event, unpack: Unpack)
    requires Inv(s, unpack) && Enabled(s, e, unpack) && Orderly(s, e, unpack) && ByClient(e)
    ensures Grows(s, Next(s, e, unpack), e.i) && s.handed <= Next(s, e, unpack).handed
  {
    match e
    case BeginSetView(_, _, _, _, _) => BeginMoves(s, e, unpack);
    case FinishSetView(i) => FinishMoves(s, i, unpack);
    case Call(i, call) => CallMoves(s, i, call, unpack);
  }

  lemma NamesGrow(s: State, e: Event, unpack: Unpack)
    requires Inv(s, unpack) && Enabled(s, e, unpack)
    ensures |Next(s, e, unpack).daemon.names| == |s.daemon.names| + if e.Deliver? then 1 else 0
  {
    DaemonMoves(s, e, unpack);
    if !DaemonEvent(s, e, unpack).Stage? {
      D.FilesKept(s.daemon, DaemonEvent(s, e, unpack), unpack);
    }
  }

  lemma JobAt(s: State, p: nat, unpack: Unpack)
    requires TicketInv(s, unpack) && p < |s.daemon.names|
    ensures GoodTicket(s, s.handed[p], unpack) && Jobs(s, unpack)[p] == SectionJob(SentAs(s, s.handed[p]))
  {
    assert GoodTicket(s, s.handed[p], unpack);
  }

  lemma JobKept(s: State, e: Event, p: nat, unpack: Unpack)
    requires Inv(s, unpack) && Enabled(s, e, unpack) && Orderly(s, e, unpack) && TicketInv(Next(s, e, unpack), unpack)
    requires p < |s.daemon.names| && p < |Next(s, e, unpack).daemon.names|
    ensures Jobs(Next(s, e, unpack), unpack)[p] == Jobs(s, unpack)[p]
  {
    SentKept(s, e, p, unpack);
    JobAt(s, p, unpack);
    JobAt(Next(s, e, unpack), p, unpack);
  }

  /** The jobs so far stay as they are; an arriving name brings the next. */
  lemma JobsKept(s: State, e: Event, unpack: Unpack)
    requires Inv(s, unpack) && Enabled(s, e, unpack) && Orderly(s, e, unpack) && TicketInv(Next(s, e, unpack), unpack)
    ensures |s.daemon.names| <= |Jobs(Next(s, e, unpack), unpack)|
    ensures Jobs(Next(s, e, unpack), unpack)[..|s.daemon.names|] == Jobs(s, unpack)
  {
    NamesGrow(s, e, unpack);
    forall p: nat | p < |s.daemon.names|
      ensures Jobs(Next(s, e, unpack), unpack)[p] == Jobs(s, unpack)[p]
    {
      JobKept(s, e, p, unpack);
    }
    SamePrefix(Jobs(s, unpack), Jobs(Next(s, e, unpack), unpack));
  }

  lemma SamePrefix<A>(a: seq<A>, b: seq<A>)
    requires |a| <= |b| && forall p :: 0 <= p < |a| ==> b[p] == a[p]
    ensures b[..|a|] == a
  {
  }

  lemma ReplayedStep(s: State, disk: Disk, e: Event, unpack: Unpack)
    requires Inv(s, unpack) && Enabled(s, e, unpack) && Orderly(s, e, unpack) && TicketInv(Next(s, e, unpack), unpack)
    requires Replayed(s, disk, unpack)
    requires T.OneAtATime(s.daemon.threads) || D.AllDisjoint(Jobs(Next(s, e, unpack), unpack))
    ensures Replayed(Next(s, e, unpack), disk, unpack)
  {
    var t := Next(s, e, unpack);
    DaemonMoves(s, e, unpack);
    JobsKept(s, e, unpack);
    LiveFilesAreIntact(s, unpack);
    D.ConfluentNext(s.daemon, disk, DaemonEvent(s, e, unpack), Jobs(s, unpack), Jobs(t, unpack), unpack);
  }

  /** So it is at every moment of every orderly run, with one worker or with sections that do not meet. */
  lemma {:induction false} RunReplays(n: nat, dir: D.Dir, disk: Disk, es: seq<Event>, unpack: Unpack)
    requires Legal(Init(n, dir, disk), es, unpack) && OrderlyRun(Init(n, dir, disk), es, unpack)
    requires TicketInv(After(Init(n, dir, disk), es, unpack), unpack)
    requires n == 1 || D.AllDisjoint(Jobs(After(Init(n, dir, disk), es, unpack), unpack))
    ensures Replayed(After(Init(n, dir, disk), es, unpack), disk, unpack)
    decreases |es|
  {
    var t := After(Init(n, dir, disk), es, unpack);
    if es == [] {
      assert Jobs(t, unpack) == [];
      NothingReplayed(disk, [], []);
    } else {
      var front, e := es[..|es| - 1], es[|es| - 1];
      var s := After(Init(n, dir, disk), front, unpack);
      RunKeepsInv(n, dir, disk, front, unpack);
      JobsKept(s, e, unpack);
      assert n == 1 || D.AllDisjoint(Jobs(s, unpack));
      RunReplays(n, dir, disk, front, unpack);
      ReplayedStep(s, disk, e, unpack);
    }
  }
}
