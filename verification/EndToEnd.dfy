/**
 * The whole way of a byte: written under a view, staged, handed over with the
 * view, taken by a worker and replayed. What arrives is what writing straight
 * through the views would have left, and this is what can go wrong with it.
 */
module EndToEnd {
  import opened Disk
  import opened Node
  import opened Sections
  import opened StagingName
  import opened Storage
  import opened Worker
  import opened Wrappers
  import D = Daemon
  import H = Handle
  import T = Threads

  /** Every section a client has handed over is among the hand-overs. */
  lemma {:induction false} EveryHandOverIsThere(handed: seq<Ticket>, i: nat, k: nat) returns (p: nat)
    requires Numbered(handed) && k < Count(handed, i)
    ensures p < |handed| && handed[p] == Ticket(i, k)
  {
    var n := |handed| - 1;
    var front := handed[..n];
    if k < Count(front, i) {
      assert forall q :: 0 <= q < n ==> front[..q] == handed[..q];
      p := EveryHandOverIsThere(front, i, k);
    } else {
      p := n;
    }
  }

  /** The machine ran to its end: workers joined, no name left on its way, no job skipped or broken off. */
  ghost predicate RanToTheEnd(s: State) {
    T.Joined(s.daemon.threads) && s.sent == [] && s.daemon.gaveUp == {}
  }

  /** Every section of every closed handle was handed over, once, and has arrived. */
  ghost predicate AllArrived(s: State) {
    && |s.daemon.names| == |s.handed|
    && (forall p, q :: 0 <= p < q < |s.handed| ==> s.handed[p] != s.handed[q])
    && forall i: nat, k: nat :: i < |s.clients| && s.clients[i].handle.closed && k < |s.clients[i].handle.sections| ==>
         Ticket(i, k) in s.handed
  }

  lemma ClosedHaveArrived(s: State, unpack: Unpack)
    requires Inv(s, unpack) && RanToTheEnd(s)
    ensures AllArrived(s)
  {
    forall p, q | 0 <= p < q < |s.handed|
      ensures s.handed[p] != s.handed[q]
    {
      NoneTwice(s.handed, p, q);
    }
    forall i: nat, k: nat | i < |s.clients| && s.clients[i].handle.closed && k < |s.clients[i].handle.sections|
      ensures Ticket(i, k) in s.handed
    {
      assert ClientInv(s, i);
      var p := EveryHandOverIsThere(s.handed, i, k);
    }
  }

  /**
   * Write-behind equals write-through. Any number of handles are opened,
   * used and closed over one staging directory while any number of workers
   * replay; flushes may fail and be retried, everything may interleave. If no
   * activation takes a name that is in use, every file ends up as the writes of
   * the sections would have left it, made straight through their views, section
   * after section as they were handed over; other files are as they were.
   */
  lemma WriteBehindIsWriteThrough(n: nat, dir: D.Dir, disk: Disk, es: seq<Event>, unpack: Unpack, path: seq<byte>)
    requires n > 0 && Legal(Init(n, dir, disk), es, unpack) && OrderlyRun(Init(n, dir, disk), es, unpack)
    requires RanToTheEnd(After(Init(n, dir, disk), es, unpack))
    requires var s := After(Init(n, dir, disk), es, unpack);
             n == 1 || (TicketInv(s, unpack) ==> D.AllDisjoint(Jobs(s, unpack)))
    ensures var s := After(Init(n, dir, disk), es, unpack);
            && TicketInv(s, unpack) && AllArrived(s)
            && FileOf(s.daemon.disk, path) == WriteThrough(FileOf(disk, path), path, Given(s, unpack))
            && ((forall p :: 0 <= p < |Given(s, unpack)| ==> Given(s, unpack)[p].dest != path) ==>
                  FileOf(s.daemon.disk, path) == FileOf(disk, path))
  {
    var s := After(Init(n, dir, disk), es, unpack);
    RunKeepsInv(n, dir, disk, es, unpack);
    RunReplays(n, dir, disk, es, unpack);
    ClosedHaveArrived(s, unpack);
    D.JoinedIsComplete(s.daemon, Jobs(s, unpack));
    FileOfIsFile(disk, path);
    FileOfIsFile(s.daemon.disk, path);
    JobsReplay(disk, FileOf(disk, path), Given(s, unpack), Jobs(s, unpack), path);
    IsFileUnique(s.daemon.disk, path, FileOf(s.daemon.disk, path), WriteThrough(FileOf(disk, path), path, Given(s, unpack)));
    if forall p :: 0 <= p < |Given(s, unpack)| ==> Given(s, unpack)[p].dest != path {
      OtherPathsKept(FileOf(disk, path), path, Given(s, unpack));
    }
  }

  // ----- names in use -----

  /** A client is about to open the staging file of a new view. */
  ghost predicate AboutToActivate(s: State, i: nat) {
    && i < |s.clients| && s.clients[i].rest.Some? && s.clients[i].handle.state != H.FALLBACK
    && var Rest(v, o) := s.clients[i].rest.value;
       o.described && o.opens && !H.IsTrivial(v.disp, v.etype, v.filetype)
  }

  /** Dashed file name, rank and view number of the new view are those of the section. */
  ghost predicate SameName(s: State, i: nat, t: Ticket)
    requires i < |s.clients| && t.client < |s.clients|
  {
    var c, c' := s.clients[i].session, s.clients[t.client].session;
    Dashed(c.filename, 1) == Dashed(c'.filename, 1) && c.rank == c'.rank && s.clients[i].handle.viewIndex == t.k
  }

  /** The directory a new view leaves: the file of its name is empty, its attributes kept. */
  function DirAfter(s: State, i: nat): D.Dir
    requires i < |s.clients|
  {
    var name, dir := H.FileName(s.clients[i].session, s.clients[i].handle.viewIndex + 1), s.daemon.dir;
    dir[name := H.Staging(if name in dir then dir[name].attrs else map[], map[])]
  }

  lemma ActivationWrites(s: State, i: nat, unpack: Unpack)
    requires Shaped(s) && AboutToActivate(s, i)
    ensures Enabled(s, FinishSetView(i), unpack)
    ensures Next(s, FinishSetView(i), unpack).daemon.dir == DirAfter(s, i)
  {
  }

  /** Emptying a file that was handed over spoils its job, unless it was empty anyhow. */
  lemma EmptiedJob(dir: D.Dir, name: string, sent: Sent, unpack: Unpack)
    requires Proper(sent.section) && name in dir
    requires dir[name].data == Staged(sent.section.view.etype.size, sent.section.writes)
    requires D.JobOf(dir, name, unpack) == Some(SectionJob(sent))
    ensures D.JobOf(dir[name := H.Staging(dir[name].attrs, map[])], name, unpack) == Some(SectionJob(sent))
            <==> dir[name].data == map[]
  {
    var st := dir[name].data;
    assert D.Bytes(map[]) == [];
    if st != map[] {
      var a :| a in st;
      assert |ReadAll(st)| > 0;
    } else {
      assert dir[name := H.Staging(dir[name].attrs, map[])] == dir;
    }
  }

  /** The new view's name is the section's exactly when the three parts are. */
  lemma NameIsTaken(s: State, i: nat, t: Ticket)
    requires i < |s.clients| && t.client < |s.clients| && ClientInv(s, t.client) && Live(s, t)
    requires s.clients[i].session.tmpDir == s.clients[t.client].session.tmpDir
    requires var c := s.clients[i].session; FitsPath(c.tmpDir, c.filename, c.rank, s.clients[i].handle.viewIndex + 1)
    ensures H.FileName(s.clients[i].session, s.clients[i].handle.viewIndex + 1) == NameOf(s, t) <==> SameName(s, i, t)
  {
    var c, c' := s.clients[i].session, s.clients[t.client].session;
    NamesCollideExactly(c.tmpDir, c.filename, c.rank, s.clients[i].handle.viewIndex + 1, c'.filename, c'.rank, t.k + 1);
  }

  /** The file of a hand-over holds its section, and leads to its job. */
  ghost predicate LeadsToJob(s: State, t: Ticket, unpack: Unpack) {
    && t.client < |s.clients| && t.k < |s.clients[t.client].handle.sections|
    && var sent, name := SentAs(s, t), NameOf(s, t);
       && Proper(sent.section) && name in s.daemon.dir
       && s.daemon.dir[name].data == Staged(sent.section.view.etype.size, sent.section.writes)
       && D.JobOf(s.daemon.dir, name, unpack) == Some(SectionJob(sent))
  }

  lemma HeldFile(s: State, t: Ticket, unpack: Unpack)
    requires GoodTicket(s, t, unpack) && H.Shaped(HandleOf(s, t.client))
    requires H.Carries(s.clients[t.client].session, HandleOf(s, t.client), t.k)
    requires H.Holds(s.clients[t.client].session, HandleOf(s, t.client), t.k)
    ensures LeadsToJob(s, t, unpack)
  {
    LiveTicketJob(s, t, unpack);
  }

  /** Opening one staging file for a new view: the job of another is as before, its own only if there was nothing. */
  lemma JobAfterOpen(dir: D.Dir, dir': D.Dir, opened': string, name: string, sent: Sent, unpack: Unpack)
    requires Proper(sent.section) && name in dir
    requires dir[name].data == Staged(sent.section.view.etype.size, sent.section.writes)
    requires D.JobOf(dir, name, unpack) == Some(SectionJob(sent))
    requires dir' == dir[opened' := H.Staging(if opened' in dir then dir[opened'].attrs else map[], map[])]
    ensures D.JobOf(dir', name, unpack) == Some(SectionJob(sent))
            <==> opened' != name || Staged(sent.section.view.etype.size, sent.section.writes) == map[]
  {
    if opened' == name {
      EmptiedJob(dir, name, sent, unpack);
    }
  }

  /** The client's handle, were the directory another. */
  function HandleIn(s: State, j: nat, dir: D.Dir): H.State
    requires j < |s.clients|
  {
    s.clients[j].handle.(files := dir)
  }

  /** A file opened for a new view: a section keeps its bytes if the file is another's, or it has none. */
  lemma HeldAfterOpen(c: H.Session, h: H.State, k: nat, opened': string, staging: H.Staging)
    requires H.Shaped(h) && k < |h.sections| && H.Holds(c, h, k) && staging.data == map[]
    ensures H.Shaped(h.(files := h.files[opened' := staging]))
    ensures H.Holds(c, h.(files := h.files[opened' := staging]), k) <==>
            || opened' != H.FileName(c, k + 1)
            || Staged(h.sections[k].view.etype.size, h.sections[k].writes) == map[]
  {
  }

  /** What client j's handle finds after the opening. */
  lemma HandleAfter(s: State, i: nat, j: nat, name: string) returns (staging: H.Staging)
    requires i < |s.clients| && j < |s.clients|
    requires name == H.FileName(s.clients[i].session, s.clients[i].handle.viewIndex + 1)
    ensures staging.data == map[] && HandleIn(s, j, DirAfter(s, i)) == HandleOf(s, j).(files := s.daemon.dir[name := staging])
  {
    staging := DirAfter(s, i)[name];
  }

  lemma HeldAfterActivation(s: State, i: nat, t: Ticket, name: string, section: H.Section)
    requires i < |s.clients| && t.client < |s.clients| && t.k < |s.clients[t.client].handle.sections|
    requires H.Shaped(HandleOf(s, t.client)) && H.Holds(s.clients[t.client].session, HandleOf(s, t.client), t.k)
    requires name == H.FileName(s.clients[i].session, s.clients[i].handle.viewIndex + 1)
    requires section == s.clients[t.client].handle.sections[t.k] && section.view.etype.size > 0
    ensures H.Shaped(HandleIn(s, t.client, DirAfter(s, i)))
    ensures H.Holds(s.clients[t.client].session, HandleIn(s, t.client, DirAfter(s, i)), t.k)
            <==> name != NameOf(s, t) || Staged(section.view.etype.size, section.writes) == map[]
  {
    var staging := HandleAfter(s, i, t.client, name);
    HeldAfterOpen(s.clients[t.client].session, HandleOf(s, t.client), t.k, name, staging);
  }

  lemma LiveSectionHeld(s: State, t: Ticket)
    requires t.client < |s.clients| && ClientInv(s, t.client) && Live(s, t)
    ensures H.Shaped(HandleOf(s, t.client)) && H.Holds(s.clients[t.client].session, HandleOf(s, t.client), t.k)
  {
    assert H.KeepsSection(s.clients[t.client].session, HandleOf(s, t.client), ToHand(s.clients[t.client]), t.k);
  }

  /**
   * A new view leaves a live section, still written or handed over, in its
   * file if and only if its dashed file name, rank and view number are not all
   * the section's, or no byte of the section was ever written. Just so it
   * leaves the job of a section that is handed over.
   */
  lemma ActivationDisturbsExactly(s: State, i: nat, t: Ticket, unpack: Unpack)
    requires Shaped(s) && AboutToActivate(s, i)
    requires t.client < |s.clients| && ClientInv(s, t.client) && Live(s, t)
    requires s.clients[i].session.tmpDir == s.clients[t.client].session.tmpDir
    requires var c := s.clients[i].session; FitsPath(c.tmpDir, c.filename, c.rank, s.clients[i].handle.viewIndex + 1)
    ensures Enabled(s, FinishSetView(i), unpack)
    ensures var dir, section := Next(s, FinishSetView(i), unpack).daemon.dir, SentAs(s, t).section;
            var spared := !SameName(s, i, t) || Staged(section.view.etype.size, section.writes) == map[];
            && H.Shaped(HandleIn(s, t.client, dir))
            && (H.Holds(s.clients[t.client].session, HandleIn(s, t.client, dir), t.k) <==> spared)
            && (GoodTicket(s, t, unpack) ==>
                  (D.JobOf(dir, NameOf(s, t), unpack) == Some(SectionJob(SentAs(s, t))) <==> spared))
  {
    var name, sent := H.FileName(s.clients[i].session, s.clients[i].handle.viewIndex + 1), SentAs(s, t);
    ActivationWrites(s, i, unpack);
    NameIsTaken(s, i, t);
    LiveSectionHeld(s, t);
    HeldAfterActivation(s, i, t, name, sent.section);
    if GoodTicket(s, t, unpack) {
      LiveTicketKept(s, t);
      HeldFile(s, t, unpack);
      JobAfterOpen(s.daemon.dir, DirAfter(s, i), name, NameOf(s, t), sent, unpack);
    }
  }
}
