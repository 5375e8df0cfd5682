/**
 * A file opened again while its first staging file still waits: the numbers of
 * views start over with every open, so the name is taken a second time.
 */
module Reopening {
  import opened AddressMap
  import opened Attributes
  import opened Disk
  import opened Node
  import opened Storage
  import opened ViewShape
  import opened Worker
  import opened Wrappers
  import D = Daemon
  import H = Handle

  lemma OneMore(s: State, es: seq<Event>, e: Event, unpack: Unpack)
    requires Legal(s, es, unpack) && Shaped(After(s, es, unpack)) && Enabled(After(s, es, unpack), e, unpack)
    ensures Legal(s, es + [e], unpack) && After(s, es + [e], unpack) == Next(After(s, es, unpack), e, unpack)
  {
    assert (es + [e])[..|es|] == es;
  }

  /** A proper view that is no one byte after the other, and a session whose calls all succeed. */
  ghost predicate GoodTry(c: H.Session, v: H.SavedView, o: H.Outcome) {
    && H.GoodView(v) && v.disp != H.DISPLACEMENT_CURRENT && !H.IsTrivial(v.disp, v.etype, v.filetype)
    && o.described && o.opens && o.viewSet && o.sent && |Entries(c.dest, H.Packed(v))| <= o.budget
  }

  /** Open, set a view. */
  function ViewSet(i: nat, c: H.Session, v: H.SavedView, o: H.Outcome): seq<Event> {
    [OpenFile(c), BeginSetView(i, "native", false, v, o), FinishSetView(i)]
  }

  /** The machine with one more client, whose first view is active on a new staging file. */
  function WithView(s: State, c: H.Session, v: H.SavedView): State {
    var name := H.FileName(c, 1);
    var attrs := if name in s.daemon.dir then s.daemon.dir[name].attrs else map[];
    var dir := s.daemon.dir[name := H.Staging(attrs, map[])];
    var h := H.State(H.ACTIVE, 1, Some(v), H.StagingFile(name), false, false, dir, [], [H.Section(v, [])]);
    s.(clients := s.clients + [Client(c, h, None)], daemon := s.daemon.(dir := dir))
  }

  /** In between: the new client's set_view has passed its first part. */
  function Pending(s: State, c: H.Session, v: H.SavedView, o: H.Outcome): State {
    s.(clients := s.clients + [Client(c, H.Opened(s.daemon.dir), Some(Rest(v, o)))])
  }

  lemma NewClientsShaped(s: State, c: H.Session, v: H.SavedView, o: H.Outcome)
    requires Shaped(s) && H.GoodView(v)
    ensures Shaped(Joining(s, c)) && Shaped(Pending(s, c, v, o)) && Shaped(WithView(s, c, v))
  {
    forall j: nat | j < |s.clients|
      ensures H.Shaped(HandleOf(WithView(s, c, v), j)) && H.Shaped(HandleOf(Joining(s, c), j))
      ensures H.Shaped(HandleOf(Pending(s, c, v, o), j))
    {
      assert H.Shaped(HandleOf(s, j));
    }
  }

  lemma BeginOfNew(s: State, c: H.Session, v: H.SavedView, o: H.Outcome, unpack: Unpack)
    requires Shaped(s) && Shaped(Joining(s, c)) && GoodTry(c, v, o)
    ensures var e := BeginSetView(|s.clients|, "native", false, v, o);
            Enabled(Joining(s, c), e, unpack) && Next(Joining(s, c), e, unpack) == Pending(s, c, v, o)
  {
    var t, i := Joining(s, c), |s.clients|;
    assert t.clients[i := Client(c, H.Opened(s.daemon.dir), Some(Rest(v, o)))] == Pending(s, c, v, o).clients;
  }

  lemma FinishOfNew(s: State, c: H.Session, v: H.SavedView, o: H.Outcome, unpack: Unpack)
    requires Shaped(s) && Shaped(Pending(s, c, v, o)) && GoodTry(c, v, o)
    ensures Enabled(Pending(s, c, v, o), FinishSetView(|s.clients|), unpack)
    ensures Next(Pending(s, c, v, o), FinishSetView(|s.clients|), unpack) == WithView(s, c, v)
  {
    var t, i := Pending(s, c, v, o), |s.clients|;
    var done, sections := WithView(s, c, v), [H.Section(v, [])];
    assert [] + sections == sections;
    assert HandleOf(t, i) == H.Opened(s.daemon.dir);
    assert H.Activate(c, H.Opened(s.daemon.dir), v, o).0 == done.clients[i].handle;
    assert t.clients[i := done.clients[i]] == done.clients;
  }

  /** Three events, by the states they lead to. */
  lemma ThreeMore(s0: State, es: seq<Event>, s: State, e1: Event, s1: State, e2: Event, s2: State, e3: Event, s3: State, unpack: Unpack)
    requires Legal(s0, es, unpack) && After(s0, es, unpack) == s
    requires Shaped(s) && Enabled(s, e1, unpack) && Next(s, e1, unpack) == s1
    requires Shaped(s1) && Enabled(s1, e2, unpack) && Next(s1, e2, unpack) == s2
    requires Shaped(s2) && Enabled(s2, e3, unpack) && Next(s2, e3, unpack) == s3
    ensures Legal(s0, es + [e1, e2, e3], unpack) && After(s0, es + [e1, e2, e3], unpack) == s3
  {
    OneMore(s0, es, e1, unpack);
    OneMore(s0, es + [e1], e2, unpack);
    OneMore(s0, es + [e1] + [e2], e3, unpack);
    assert es + [e1] + [e2] + [e3] == es + [e1, e2, e3];
  }

  /** Open and set_view, from any state. */
  lemma ViewIsSet(s0: State, es: seq<Event>, s: State, c: H.Session, v: H.SavedView, o: H.Outcome, unpack: Unpack)
    requires Legal(s0, es, unpack) && After(s0, es, unpack) == s && Shaped(s) && GoodTry(c, v, o)
    ensures var all := es + ViewSet(|s.clients|, c, v, o);
            Legal(s0, all, unpack) && After(s0, all, unpack) == WithView(s, c, v)
  {
    var i := |s.clients|;
    NewClientsShaped(s, c, v, o);
    BeginOfNew(s, c, v, o, unpack);
    FinishOfNew(s, c, v, o, unpack);
    ThreeMore(s0, es, s, OpenFile(c), Joining(s, c), BeginSetView(i, "native", false, v, o), Pending(s, c, v, o),
              FinishSetView(i), WithView(s, c, v), unpack);
  }

  /** The bytes one write leaves in a staging file. */
  function OneWrite(size: nat, w: Write): File
    requires size > 0
  {
    StagingViewIsLinear(size, 0);
    WriteView(map[], StagingView(size), w.offset * size, w.data)
  }

  /** One client has set a view and written once. */
  function WrittenOnce(n: nat, disk: Disk, c: H.Session, v: H.SavedView, w: Write): State
    requires H.GoodView(v)
  {
    var dir: D.Dir := map[H.FileName(c, 1) := H.Staging(map[], OneWrite(v.etype.size, w))];
    var h := H.State(H.ACTIVE, 1, Some(v), H.StagingFile(H.FileName(c, 1)), false, false, dir, [], [H.Section(v, [w])]);
    State([Client(c, h, None)], D.Init(n, dir, disk), [], [])
  }

  /** And closed; its name is on its way. */
  function ClosedOnce(n: nat, disk: Disk, c: H.Session, v: H.SavedView, w: Write): State
    requires H.GoodView(v)
  {
    var name, attrs := H.FileName(c, 1), PutAll(map[], Entries(c.dest, H.Packed(v)));
    var dir: D.Dir := map[name := H.Staging(attrs, OneWrite(v.etype.size, w))];
    var h := H.State(H.ACTIVE, 1, Some(v), H.StagingFile(name), false, true, dir, [name], [H.Section(v, [w])]);
    State([Client(c, h, None)], D.Init(n, dir, disk), [name], [Ticket(0, 0)])
  }

  lemma WriteOfNew(n: nat, disk: Disk, c: H.Session, v: H.SavedView, w: Write, unpack: Unpack)
    requires H.GoodView(v)
    ensures var s := WithView(Init(n, map[], disk), c, v);
            && Shaped(s) && Enabled(s, Call(0, H.WriteCall(w)), unpack)
            && Next(s, Call(0, H.WriteCall(w)), unpack) == WrittenOnce(n, disk, c, v, w)
  {
    var s, t := WithView(Init(n, map[], disk), c, v), WrittenOnce(n, disk, c, v, w);
    assert Shaped(s) by { NewClientsShaped(Init(n, map[], disk), c, v, H.Outcome(0, true, true, true, true)); }
    StagingViewIsLinear(v.etype.size, 0);
    var h := HandleOf(s, 0);
    assert s.clients[0 := t.clients[0]] == t.clients;
    assert h.sections == [H.Section(v, [])] && [] + [w] == [w];
    assert h.sections[0 := H.Section(v, [w])] == [H.Section(v, [w])];
    assert H.WriteStaged(h, w) == t.clients[0].handle;
  }

  /** Closing hands the one section over. */
  lemma CloseHandsOver(c: H.Session, h: H.State, o: H.Outcome, v: H.SavedView)
    requires GoodTry(c, v, o) && h.state == H.ACTIVE && h.viewIndex == 1 && h.saved == Some(v) && H.FileName(c, 1) in h.files
    ensures var name := H.FileName(c, 1);
            var attrs := PutAll(h.files[name].attrs, Entries(c.dest, H.Packed(v)));
            H.Close(c, h, o).0
            == h.(files := h.files[name := h.files[name].(attrs := attrs)], handed := h.handed + [name], closed := true)
  {
    var es := Entries(c.dest, H.Packed(v));
    assert es[..|es|] == es;
  }

  lemma OnceShaped(n: nat, disk: Disk, c: H.Session, v: H.SavedView, w: Write)
    requires H.GoodView(v)
    ensures Shaped(WrittenOnce(n, disk, c, v, w)) && Shaped(ClosedOnce(n, disk, c, v, w))
  {
  }

  lemma CloseOfNew(n: nat, disk: Disk, c: H.Session, v: H.SavedView, w: Write, o: H.Outcome, unpack: Unpack)
    requires GoodTry(c, v, o) && Shaped(WrittenOnce(n, disk, c, v, w))
    ensures var s := WrittenOnce(n, disk, c, v, w);
            && Enabled(s, Call(0, H.CloseCall(o)), unpack)
            && Next(s, Call(0, H.CloseCall(o)), unpack) == ClosedOnce(n, disk, c, v, w)
  {
    var s, t := WrittenOnce(n, disk, c, v, w), ClosedOnce(n, disk, c, v, w);
    CloseGives(n, disk, c, v, w, o);
    assert s.clients[0 := t.clients[0]] == t.clients;
  }

  lemma CloseGives(n: nat, disk: Disk, c: H.Session, v: H.SavedView, w: Write, o: H.Outcome)
    requires GoodTry(c, v, o)
    ensures H.Close(c, HandleOf(WrittenOnce(n, disk, c, v, w), 0), o).0 == ClosedOnce(n, disk, c, v, w).clients[0].handle
  {
    CloseHandsOver(c, HandleOf(WrittenOnce(n, disk, c, v, w), 0), o, v);
    assert [] + [H.FileName(c, 1)] == [H.FileName(c, 1)];
  }

  function FirstUse(c: H.Session, v: H.SavedView, w: Write, o: H.Outcome): seq<Event> {
    ViewSet(0, c, v, o) + [Call(0, H.WriteCall(w))] + [Call(0, H.CloseCall(o))]
  }

  lemma UsedOnce(n: nat, disk: Disk, c: H.Session, v: H.SavedView, w: Write, o: H.Outcome, unpack: Unpack)
    requires GoodTry(c, v, o)
    ensures Legal(Init(n, map[], disk), FirstUse(c, v, w, o), unpack)
    ensures After(Init(n, map[], disk), FirstUse(c, v, w, o), unpack) == ClosedOnce(n, disk, c, v, w)
  {
    var s0, es := Init(n, map[], disk), ViewSet(0, c, v, o);
    ViewIsSet(s0, [], s0, c, v, o, unpack);
    assert [] + es == es;
    WriteOfNew(n, disk, c, v, w, unpack);
    OneMore(s0, es, Call(0, H.WriteCall(w)), unpack);
    OnceShaped(n, disk, c, v, w);
    CloseOfNew(n, disk, c, v, w, o, unpack);
    OneMore(s0, es + [Call(0, H.WriteCall(w))], Call(0, H.CloseCall(o)), unpack);
  }

  /** The name that is on its way is of an empty file, though its section has a write. */
  ghost predicate WriteIsLost(s: State, c: H.Session, v: H.SavedView, w: Write)
    requires v.etype.size > 0
  {
    var name := H.FileName(c, 1);
    && s.sent == [name] && s.handed == [Ticket(0, 0)] && s.daemon.names == []
    && |s.clients| == 2 && s.clients[0].handle.closed && s.clients[0].handle.sections == [H.Section(v, [w])]
    && Staged(v.etype.size, [w]) != map[]
    && name in s.daemon.dir && s.daemon.dir[name].data == map[]
  }

  lemma WriteLeavesBytes(size: nat, w: Write)
    requires size > 0 && w.data != []
    ensures Staged(size, [w]) != map[]
  {
    StagedIsStream(size, [w]);
    WriteAtKeys(map[], w.offset * size, w.data);
    assert [w][..0] == [];
    assert w.offset * size in StreamOf(size, [w]);
  }

  /**
   * Open, set_view, write, close, and the same file opened again and a view
   * set, all before the daemon has come to the first name: the file that is on
   * its way has been emptied, and the write is lost.
   */
  lemma ReopeningEmptiesWhatIsQueued(
    n: nat, disk: Disk, c: H.Session, v: H.SavedView, w: Write, o: H.Outcome, unpack: Unpack)
    requires GoodTry(c, v, o) && w.data != []
    ensures var es := FirstUse(c, v, w, o) + ViewSet(1, c, v, o);
            Legal(Init(n, map[], disk), es, unpack) && WriteIsLost(After(Init(n, map[], disk), es, unpack), c, v, w)
  {
    var s := ClosedOnce(n, disk, c, v, w);
    UsedOnce(n, disk, c, v, w, o, unpack);
    OnceShaped(n, disk, c, v, w);
    ViewIsSet(Init(n, map[], disk), FirstUse(c, v, w, o), s, c, v, o, unpack);
    WriteLeavesBytes(v.etype.size, w);
  }

  /** Such a use of a file: one byte of /tmp/a, every other byte in the view. */
  function SomeView(): H.SavedView {
    H.SavedView(0, H.DataType([1], 1, 1, [IoVec(0, 1)], true), H.DataType([2], 1, 2, [IoVec(0, 1)], false))
  }

  lemma ReopeningAtAnInput(unpack: Unpack)
    ensures var c, v := H.Session("/tmp", "a", 0, [47, 97]), SomeView();
            var w, o := Write(0, [7]), H.Outcome(5, true, true, true, true);
            var es := FirstUse(c, v, w, o) + ViewSet(1, c, v, o);
            Legal(Init(1, map[], map[]), es, unpack) && WriteIsLost(After(Init(1, map[], map[]), es, unpack), c, v, w)
  {
    var c, v := H.Session("/tmp", "a", 0, [47, 97]), SomeView();
    assert |ChunkEntries(v.filetype.packed, 0)| == 1;
    ReopeningEmptiesWhatIsQueued(1, map[], c, v, Write(0, [7]), H.Outcome(5, true, true, true, true), unpack);
  }
}
