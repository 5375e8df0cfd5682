/**
 * An open file handle: its state machine over set_view, set_atomicity, writes,
 * flush and close, the staging files it fills, and the names it hands to the
 * daemon.
 */
module Handle {
  import opened AddressMap
  import opened Arith
  import opened Paths
  import opened ViewShape
  import opened Storage
  import opened Attributes
  import opened Wrappers
  import opened StagingName

  /** The value mpi.h gives MPI_DISPLACEMENT_CURRENT; the header is not part of this model. */
  const DISPLACEMENT_CURRENT := -54278278

  datatype ViewState = DEFAULT | FALLBACK | ACTIVE

  /** What the handle's descriptor names; Broken is a failed open. */
  datatype Descriptor = Destination | StagingFile(name: string) | Broken

  datatype Code = SUCCESS | ERROR | ERR_UNSUPPORTED_DATAREP | ERR_DISP | ERR_IO

  /** A datatype handle: its packed description, its size and decoded blocks, and whether it is MPI_BYTE itself. */
  datatype DataType = DataType(packed: seq<byte>, size: nat, extent: int, blocks: seq<IoVec>, isByte: bool)

  datatype SavedView = SavedView(disp: int, etype: DataType, filetype: DataType)

  /** A staging file: its extended attributes and what was written to it. */
  datatype Staging = Staging(attrs: Attrs, data: File)

  /** What a handle is opened with: staging directory, file name, rank, and the resolved destination path. */
  datatype Session = Session(tmpDir: string, filename: string, rank: nat, dest: seq<byte>)

  /** History of one activated view: the view and the writes made under it. */
  datatype Section = Section(view: SavedView, writes: seq<Write>)

  datatype State = State(
    state: ViewState, viewIndex: nat, saved: Option<SavedView>, fd: Descriptor, atomicity: bool, closed: bool,
    files: map<string, Staging>, handed: seq<string>, sections: seq<Section>)

  /**
   * What the outside world does in one call: how many attribute writes of a
   * flush succeed, whether the socket takes the name, whether the datatypes can
   * be described, and whether the opens succeed.
   */
  datatype Outcome = Outcome(budget: nat, sent: bool, described: bool, opens: bool, viewSet: bool)

  function FileName(c: Session, index: nat): string {
    Name(c.tmpDir, c.filename, c.rank, index)
  }

  function Opened(files: map<string, Staging>): State {
    State(DEFAULT, 0, None, Destination, false, false, files, [], [])
  }

  function Packed(v: SavedView): Saved {
    Saved(v.disp, v.etype.packed, v.filetype.packed)
  }

  // ----- the calls -----

  /** mca_io_bbview_file_flush. */
  function Flush(c: Session, h: State, o: Outcome): (State, Code)
    requires h.saved.Some? ==> IsOffset(h.saved.value.disp)
  {
    var name := FileName(c, h.viewIndex);
    if h.state != ACTIVE then (h, SUCCESS)
    else if name !in h.files || h.saved.None? then (h, ERROR)
    else
      var es := Entries(c.dest, Packed(h.saved.value));
      var attrs := PutAll(h.files[name].attrs, es[..Lesser(o.budget, |es|)]);
      var h' := h.(files := h.files[name := h.files[name].(attrs := attrs)]);
      if o.budget < |es| || !o.sent then (h', ERROR)
      else (h'.(handed := h.handed + [name]), SUCCESS)
  }

  predicate IsTrivial(disp: int, etype: DataType, filetype: DataType) {
    disp == 0 && etype.isByte && filetype.isByte
  }

  /** The new view becomes active and its staging file is opened empty, its old attributes kept. */
  function Activate(c: Session, h: State, v: SavedView, o: Outcome): (State, Code) {
    var index := h.viewIndex + 1;
    var h' := h.(state := ACTIVE, viewIndex := index, saved := Some(v), sections := h.sections + [Section(v, [])]);
    var name := FileName(c, index);
    if !o.described then (h', ERROR)
    else if !o.opens then (h'.(fd := Broken), ERROR)
    else
      var attrs := if name in h.files then h.files[name].attrs else map[];
      (h'.(fd := StagingFile(name), files := h.files[name := Staging(attrs, map[])]),
       if o.viewSet then SUCCESS else ERROR)
  }

  /** The first part of set_view: the arguments are checked, and a view that is active is flushed. */
  function BeginSetView(c: Session, h: State, datarep: string, sequential: bool, v: SavedView, o: Outcome): (State, Code)
    requires h.saved.Some? ==> IsOffset(h.saved.value.disp)
  {
    if datarep != "native" && datarep != "NATIVE" then (h, ERR_UNSUPPORTED_DATAREP)
    else if v.disp == DISPLACEMENT_CURRENT && !sequential then (h, ERR_DISP)
    else Flush(c, h, o)
  }

  /** The second part: back to the destination for the trivial view, on to a new staging file otherwise. */
  function FinishSetView(c: Session, h: State, v: SavedView, o: Outcome): (State, Code) {
    var last := if o.viewSet then SUCCESS else ERROR;
    if IsTrivial(v.disp, v.etype, v.filetype) then
      if h.state == ACTIVE then (h.(fd := if o.opens then Destination else Broken, state := DEFAULT), last)
      else (h, last)
    else if h.state == FALLBACK then (h, last)
    else Activate(c, h, v, o)
  }

  /** mca_io_bbview_file_set_view. */
  function SetView(c: Session, h: State, datarep: string, sequential: bool, v: SavedView, o: Outcome): (State, Code)
    requires h.saved.Some? ==> IsOffset(h.saved.value.disp)
  {
    var (h', code) := BeginSetView(c, h, datarep, sequential, v, o);
    if code != SUCCESS then (h', code) else FinishSetView(c, h', v, o)
  }

  /** mca_io_bbview_file_set_atomicity: agreed is the broadcast's outcome, supported the file system's answer. */
  function SetAtomicity(h: State, flag: bool, agreed: bool, supported: bool): (State, Code) {
    if h.state == ACTIVE || !agreed then (h, ERROR)
    else if !flag then (h.(atomicity := false), SUCCESS)
    else if supported then (h.(atomicity := true, state := FALLBACK), SUCCESS)
    else (h.(state := FALLBACK), ERR_IO)
  }

  /** A write while a view is active goes through the staging view to the file the descriptor names. */
  function WriteStaged(h: State, w: Write): State
    requires h.saved.Some? ==> h.saved.value.etype.size > 0
    requires h.state == ACTIVE ==> h.sections != []
  {
    if h.state == ACTIVE && h.saved.Some? && h.fd.StagingFile? && h.fd.name in h.files then
      var size := h.saved.value.etype.size;
      StagingViewIsLinear(size, 0);
      var f := h.files[h.fd.name];
      var data := WriteView(f.data, StagingView(size), w.offset * size, w.data);
      var n := |h.sections| - 1;
      h.(files := h.files[h.fd.name := f.(data := data)],
         sections := h.sections[n := h.sections[n].(writes := h.sections[n].writes + [w])])
    else h
  }

  /** mca_io_bbview_file_close. */
  function Close(c: Session, h: State, o: Outcome): (State, Code)
    requires h.saved.Some? ==> IsOffset(h.saved.value.disp)
  {
    if h.viewIndex > 0 then
      var (h', code) := Flush(c, h, o);
      if code != SUCCESS then (h', code) else (h'.(closed := true), SUCCESS)
    else (h.(closed := true), SUCCESS)
  }

  // ----- runs -----

  datatype Event =
    | SetViewCall(datarep: string, sequential: bool, v: SavedView, o: Outcome)
    | SetAtomicityCall(flag: bool, agreed: bool, supported: bool)
    | WriteCall(w: Write)
    | CloseCall(o: Outcome)

  /** A view whose description the attributes can carry. */
  ghost predicate GoodView(v: SavedView) {
    && IsOffset(v.disp) && v.etype.size > 0
    && |v.etype.packed| <= MAX_XATTR_VALUE_SIZE && 0 < |v.filetype.packed| <= TARGET_BUFFER_SIZE
  }

  ghost predicate Shaped(h: State) {
    && |h.sections| == h.viewIndex
    && (forall k :: 0 <= k < |h.sections| ==> GoodView(h.sections[k].view))
    && (h.saved.Some? ==> GoodView(h.saved.value))
    && (h.state == ACTIVE ==> h.viewIndex > 0)
  }

  ghost predicate Enabled(h: State, e: Event) {
    !h.closed && (e.SetViewCall? ==> GoodView(e.v))
  }

  /** The outside calls the event makes succeed, except that a flush may fail before the name is sent. */
  ghost predicate OthersSucceed(e: Event) {
    e.SetViewCall? ==> e.o.described && e.o.opens && e.o.viewSet
  }

  function Next(c: Session, h: State, e: Event): State
    requires Shaped(h)
  {
    match e
    case SetViewCall(datarep, sequential, v, o) => SetView(c, h, datarep, sequential, v, o).0
    case SetAtomicityCall(flag, agreed, supported) => SetAtomicity(h, flag, agreed, supported).0
    case WriteCall(w) => WriteStaged(h, w)
    case CloseCall(o) => Close(c, h, o).0
  }

  // ----- properties of every call, whatever the outside world does -----

  lemma FlushShaped(c: Session, h: State, o: Outcome)
    requires Shaped(h)
    ensures Shaped(Flush(c, h, o).0)
  {
  }

  lemma ActivateShaped(c: Session, h: State, v: SavedView, o: Outcome)
    requires Shaped(h) && GoodView(v)
    ensures Shaped(Activate(c, h, v, o).0)
  {
  }

  lemma ShapedStep(c: Session, h: State, e: Event)
    requires Shaped(h) && Enabled(h, e)
    ensures Shaped(Next(c, h, e))
  {
    match e
    case SetViewCall(_, _, v, o) =>
      FlushShaped(c, h, o);
      ActivateShaped(c, Flush(c, h, o).0, v, o);
    case CloseCall(o) => FlushShaped(c, h, o);
    case _ =>
  }

  /** FALLBACK is never left, and the view number never goes down. */
  lemma FallbackIsKept(c: Session, h: State, e: Event)
    requires Shaped(h) && Enabled(h, e)
    ensures h.state == FALLBACK ==> Next(c, h, e).state == FALLBACK
    ensures h.viewIndex <= Next(c, h, e).viewIndex <= h.viewIndex + 1
  {
  }

  /** The descriptor names the current staging file exactly while a view is active, the destination otherwise. */
  ghost predicate DescriptorInv(c: Session, h: State) {
    h.fd == if h.state == ACTIVE then StagingFile(FileName(c, h.viewIndex)) else Destination
  }

  /** The staging names of a handle's first n views fit their buffer. */
  ghost predicate NamesFit(c: Session, n: nat) {
    forall i: nat :: 1 <= i <= n ==> FitsPath(c.tmpDir, c.filename, c.rank, i)
  }

  lemma NamesDiffer(c: Session, n: nat, i: nat, j: nat)
    requires NamesFit(c, n) && 1 <= i <= n && 1 <= j <= n
    ensures FileName(c, i) == FileName(c, j) ==> i == j
  {
    NamesCollideExactly(c.tmpDir, c.filename, c.rank, i, c.filename, c.rank, j);
  }

  /** set_view gets as far as opening a file: a staging file, or the destination after an active view. */
  predicate Reopens(c: Session, h: State, datarep: string, sequential: bool, v: SavedView, o: Outcome)
    requires h.saved.Some? ==> IsOffset(h.saved.value.disp)
  {
    && BeginSetView(c, h, datarep, sequential, v, o).1 == SUCCESS
    && h.state != FALLBACK
    && (IsTrivial(v.disp, v.etype, v.filetype) ==> h.state == ACTIVE)
  }

  lemma BeginLeavesDescriptor(c: Session, h: State, datarep: string, sequential: bool, v: SavedView, o: Outcome)
    requires Shaped(h)
    ensures var h' := BeginSetView(c, h, datarep, sequential, v, o).0;
            h'.fd == h.fd && h'.state == h.state && h'.viewIndex == h.viewIndex
  {
  }

  lemma FinishDescriptor(c: Session, h: State, v: SavedView, o: Outcome)
    requires DescriptorInv(c, h) && NamesFit(c, h.viewIndex + 1) && (h.state == ACTIVE ==> h.viewIndex > 0)
    ensures DescriptorInv(c, FinishSetView(c, h, v, o).0) <==>
            (h.state != FALLBACK && (IsTrivial(v.disp, v.etype, v.filetype) ==> h.state == ACTIVE) ==>
               o.opens && (IsTrivial(v.disp, v.etype, v.filetype) || o.described))
  {
    if h.state == ACTIVE {
      NamesDiffer(c, h.viewIndex + 1, h.viewIndex, h.viewIndex + 1);
    }
  }

  /**
   * set_view keeps descriptor and state together exactly when, if it gets as
   * far as opening a file, the open succeeds and, for a staging file, the
   * datatypes could be described before it.
   */
  lemma DescriptorInvExactly(c: Session, h: State, datarep: string, sequential: bool, v: SavedView, o: Outcome)
    requires Shaped(h) && DescriptorInv(c, h) && NamesFit(c, h.viewIndex + 1)
    ensures DescriptorInv(c, SetView(c, h, datarep, sequential, v, o).0) <==>
            (Reopens(c, h, datarep, sequential, v, o) ==>
               o.opens && (IsTrivial(v.disp, v.etype, v.filetype) || o.described))
  {
    var (h', code) := BeginSetView(c, h, datarep, sequential, v, o);
    BeginLeavesDescriptor(c, h, datarep, sequential, v, o);
    if code == SUCCESS {
      FinishDescriptor(c, h', v, o);
    }
  }

  /** The open fails: a view is active, and the descriptor names no file. */
  lemma FailedOpenMisleads(c: Session)
    ensures var v := SavedView(0, DataType([1], 1, 1, [IoVec(0, 1)], true), DataType([2], 1, 2, [IoVec(0, 1)], false));
            var h := SetView(c, Opened(map[]), "native", false, v, Outcome(0, true, true, false, true)).0;
            h.state == ACTIVE && h.fd == Broken && !DescriptorInv(c, h)
  {
  }

  // ----- what a run of successful calls keeps -----

  /** Section k's staging file holds what was written under its view. */
  ghost predicate Holds(c: Session, h: State, k: nat)
    requires Shaped(h) && k < |h.sections|
  {
    var name, section := FileName(c, k + 1), h.sections[k];
    name in h.files && h.files[name].data == Staged(section.view.etype.size, section.writes)
  }

  /** Section k's staging file carries its view, as a worker will read it. */
  ghost predicate Carries(c: Session, h: State, k: nat)
    requires Shaped(h) && k < |h.sections|
  {
    var name := FileName(c, k + 1);
    name in h.files && ReadBack(h.files[name].attrs) == Some((c.dest, Packed(h.sections[k].view)))
  }

  /** Section k's staging file is ready for the flush that hands it over. */
  ghost predicate Awaits(c: Session, h: State, k: nat)
    requires Shaped(h) && k < |h.sections|
  {
    var name := FileName(c, k + 1);
    name in h.files && Portable(h.files[name].attrs, c.dest, Packed(h.sections[k].view))
  }

  /** Section k's staging file is as the handle left it; the first n sections are handed over. */
  ghost predicate KeepsSection(c: Session, h: State, n: int, k: nat)
    requires Shaped(h) && k < |h.sections|
  {
    Holds(c, h, k) && if k < n then Carries(c, h, k) else Awaits(c, h, k)
  }

  /**
   * Every section's bytes are in its own staging file; the first n sections
   * are handed over, in order and once each. Of the sections in done no file
   * need be left.
   */
  ghost predicate Keeps(c: Session, h: State, n: int, done: set<nat>) {
    && Shaped(h) && 0 <= n <= |h.sections| && |h.handed| == n
    && (h.state == ACTIVE ==> h.saved == Some(h.sections[h.viewIndex - 1].view))
    && (forall k :: 0 <= k < n ==> h.handed[k] == FileName(c, k + 1))
    && (forall k :: k in done ==> k < n)
    && (forall k: nat :: k < |h.sections| && k !in done ==> KeepsSection(c, h, n, k))
  }

  /** The resolved destination comes out of a path buffer. */
  ghost predicate GoodSession(c: Session) {
    |c.dest| < PATH_MAX
  }

  ghost predicate Sound(c: Session, h: State, n: int, done: set<nat>) {
    GoodSession(c) && NamesFit(c, h.viewIndex) && DescriptorInv(c, h) && Keeps(c, h, n, done)
  }

  /** How many sections are handed over: all but one that is still active. */
  function HandedCount(h: State): int {
    if h.state == ACTIVE && !h.closed then h.viewIndex - 1 else h.viewIndex
  }

  ghost predicate Inv(c: Session, h: State) {
    Sound(c, h, HandedCount(h), {})
  }

  /** Attribute writes of a failed flush do not spoil the next one. */
  lemma PartialFlushStaysPortable(attrs: Attrs, dest: seq<byte>, saved: Saved, n: nat)
    requires Portable(attrs, dest, saved) && n <= |Entries(dest, saved)|
    ensures Portable(PutAll(attrs, Entries(dest, saved)[..n]), dest, saved)
  {
    var es, count := Entries(dest, saved), ChunkCount(saved.filetype);
    var after := PutAll(attrs, es[..n]);
    forall j: nat | count <= j
      ensures GetXattr(after, ChunkName(j), MAX_XATTR_VALUE_SIZE) == GetXattr(attrs, ChunkName(j), MAX_XATTR_VALUE_SIZE)
    {
      LaterChunksDiffer(dest, saved, j);
      PutAllKeeps(attrs, es[..n], ChunkName(j));
    }
    GatherDepends(after, attrs, count);
  }

  /** No file but the named one differs. */
  ghost predicate OnlyTouches(files: map<string, Staging>, files': map<string, Staging>, touched: string) {
    forall name :: name != touched ==>
      (name in files' <==> name in files) && (name in files ==> files'[name] == files[name])
  }

  /** The same section in a file that was not touched. */
  lemma SectionKept(c: Session, h: State, h': State, n: int, n': int, k: nat)
    requires Shaped(h) && Shaped(h') && k < |h.sections| && k < |h'.sections|
    requires h'.sections[k] == h.sections[k] && (k < n <==> k < n')
    requires FileName(c, k + 1) in h.files ==>
               FileName(c, k + 1) in h'.files && h'.files[FileName(c, k + 1)] == h.files[FileName(c, k + 1)]
    requires KeepsSection(c, h, n, k)
    ensures KeepsSection(c, h', n', k)
  {
  }

  lemma OtherKept(c: Session, h: State, h': State, n: int, n': int, index: nat, k: nat)
    requires Shaped(h) && Shaped(h') && k < |h.sections| && k < |h'.sections| && KeepsSection(c, h, n, k)
    requires 1 <= index && NamesFit(c, Larger(index, h.viewIndex)) && k != index - 1
    requires OnlyTouches(h.files, h'.files, FileName(c, index))
    requires h'.sections[k] == h.sections[k] && (k < n <==> k < n')
    ensures KeepsSection(c, h', n', k)
  {
    NamesDiffer(c, Larger(index, h.viewIndex), k + 1, index);
    SectionKept(c, h, h', n, n', k);
  }

  /** A call that touches only the file of view number index keeps every other live section. */
  lemma OthersKept(c: Session, h: State, h': State, n: int, n': int, index: nat, done: set<nat>)
    requires Keeps(c, h, n, done) && Shaped(h') && |h.sections| <= |h'.sections|
    requires 1 <= index && NamesFit(c, Larger(index, h.viewIndex))
    requires OnlyTouches(h.files, h'.files, FileName(c, index))
    requires forall k :: 0 <= k < |h.sections| && k != index - 1 ==> h'.sections[k] == h.sections[k] && (k < n <==> k < n')
    ensures forall k: nat :: k < |h.sections| && k != index - 1 && k !in done ==> KeepsSection(c, h', n', k)
  {
    forall k: nat | k < |h.sections| && k != index - 1 && k !in done
      ensures KeepsSection(c, h', n', k)
    {
      assert KeepsSection(c, h, n, k);
      OtherKept(c, h, h', n, n', index, k);
    }
  }

  function Larger(a: nat, b: nat): nat {
    if a <= b then b else a
  }

  lemma FlushTouches(c: Session, h: State, o: Outcome)
    requires Shaped(h)
    ensures OnlyTouches(h.files, Flush(c, h, o).0.files, FileName(c, h.viewIndex))
    ensures h.state != ACTIVE ==> Flush(c, h, o) == (h, SUCCESS)
    ensures Flush(c, h, o).0.viewIndex == h.viewIndex
  {
  }

  /** What a flush of the active view changes. */
  lemma FlushFrame(c: Session, h: State, o: Outcome, done: set<nat>)
    requires h.state == ACTIVE && Keeps(c, h, h.viewIndex - 1, done)
    ensures var (h', code) := Flush(c, h, o);
            && h' == h.(files := h'.files, handed := h'.handed)
            && h'.handed == if code == SUCCESS then h.handed + [FileName(c, h.viewIndex)] else h.handed
  {
    assert KeepsSection(c, h, h.viewIndex - 1, h.viewIndex - 1);
  }

  /** However far a flush comes the attributes are ready for the next one, and a whole flush is read back. */
  lemma FlushedAttrs(attrs: Attrs, dest: seq<byte>, saved: Saved, budget: nat)
    requires Portable(attrs, dest, saved)
    ensures var es := Entries(dest, saved);
            var after := PutAll(attrs, es[..Lesser(budget, |es|)]);
            Portable(after, dest, saved) && (|es| <= budget ==> ReadBack(after) == Some((dest, saved)))
  {
    var es := Entries(dest, saved);
    PartialFlushStaysPortable(attrs, dest, saved, Lesser(budget, |es|));
    if |es| <= budget {
      assert es[..|es|] == es;
      ViewRoundTrip(attrs, dest, saved);
    }
  }

  /** New attributes on the last section's file keep it, handed over or not, as they are fit for. */
  lemma AttrsReplaced(c: Session, h: State, h': State, n: int, n': int, after: Attrs)
    requires Shaped(h) && Shaped(h') && h.viewIndex > 0 && h'.sections == h.sections
    requires KeepsSection(c, h, n, h.viewIndex - 1)
    requires var name := FileName(c, h.viewIndex); h'.files == h.files[name := h.files[name].(attrs := after)]
    requires var saved := Packed(h.sections[h.viewIndex - 1].view);
             if h.viewIndex - 1 < n' then ReadBack(after) == Some((c.dest, saved)) else Portable(after, c.dest, saved)
    ensures KeepsSection(c, h', n', h.viewIndex - 1)
  {
  }

  /** The file a flush has worked on: its data as before, and its attributes handed over or ready for another try. */
  lemma FlushedFile(c: Session, h: State, o: Outcome, done: set<nat>)
    requires h.state == ACTIVE && Keeps(c, h, h.viewIndex - 1, done)
    ensures var (h', code) := Flush(c, h, o);
            Shaped(h') && KeepsSection(c, h', if code == SUCCESS then h.viewIndex else h.viewIndex - 1, h.viewIndex - 1)
  {
    var last, name, saved := h.viewIndex - 1, FileName(c, h.viewIndex), Packed(h.saved.value);
    assert KeepsSection(c, h, last, last);
    var (h', code) := Flush(c, h, o);
    FlushedAttrs(h.files[name].attrs, c.dest, saved, o.budget);
    var es := Entries(c.dest, saved);
    AttrsReplaced(c, h, h', last, if code == SUCCESS then h.viewIndex else last,
                  PutAll(h.files[name].attrs, es[..Lesser(o.budget, |es|)]));
  }

  /** A flush of the active view: on success one more section is handed over, on failure none. */
  lemma FlushKeeps(c: Session, h: State, o: Outcome, done: set<nat>)
    requires h.state == ACTIVE && Sound(c, h, h.viewIndex - 1, done)
    ensures var (h', code) := Flush(c, h, o);
            Sound(c, h', if code == SUCCESS then h.viewIndex else h.viewIndex - 1, done)
  {
    var (h', code) := Flush(c, h, o);
    FlushedFile(c, h, o, done);
    FlushFrame(c, h, o, done);
    FlushTouches(c, h, o);
    FlushAddsUp(c, h, h', if code == SUCCESS then h.viewIndex else h.viewIndex - 1, done);
  }

  lemma FlushAddsUp(c: Session, h: State, h': State, n': int, done: set<nat>)
    requires h.state == ACTIVE && Sound(c, h, h.viewIndex - 1, done) && h.viewIndex - 1 <= n' <= h.viewIndex
    requires h' == h.(files := h'.files, handed := h'.handed)
    requires h'.handed == if n' == h.viewIndex then h.handed + [FileName(c, h.viewIndex)] else h.handed
    requires OnlyTouches(h.files, h'.files, FileName(c, h.viewIndex))
    requires Shaped(h') && KeepsSection(c, h', n', h.viewIndex - 1)
    ensures Sound(c, h', n', done)
  {
    OthersKept(c, h, h', h.viewIndex - 1, n', h.viewIndex, done);
    HandedAppended(c, h, h', n');
  }

  lemma HandedAppended(c: Session, h: State, h': State, n': int)
    requires h.viewIndex > 0 && |h.handed| == h.viewIndex - 1 && h.viewIndex - 1 <= n' <= h.viewIndex
    requires forall k :: 0 <= k < |h.handed| ==> h.handed[k] == FileName(c, k + 1)
    requires h'.handed == if n' == h.viewIndex then h.handed + [FileName(c, h.viewIndex)] else h.handed
    ensures |h'.handed| == n' && forall k :: 0 <= k < n' ==> h'.handed[k] == FileName(c, k + 1)
  {
  }

  /** The next staging name fits, and no chunks left under it would be read along with the view's own. */
  ghost predicate Reusable(c: Session, h: State, v: SavedView) {
    var name := FileName(c, h.viewIndex + 1);
    && FitsPath(c.tmpDir, c.filename, c.rank, h.viewIndex + 1)
    && (name in h.files ==> Gather(h.files[name].attrs, ChunkCount(v.filetype.packed)) == [])
  }

  /** The new section starts with an empty staging file and attributes a flush can use. */
  lemma ActivatedFile(c: Session, h: State, v: SavedView, o: Outcome)
    requires Shaped(h) && GoodView(v) && GoodSession(c) && o.described && o.opens && Reusable(c, h, v)
    ensures var h' := Activate(c, h, v, o).0;
            && Shaped(h') && OnlyTouches(h.files, h'.files, FileName(c, h.viewIndex + 1))
            && KeepsSection(c, h', h.viewIndex, h.viewIndex)
  {
    var name := FileName(c, h.viewIndex + 1);
    var attrs := if name in h.files then h.files[name].attrs else map[];
    EmptyGathersNothing(ChunkCount(v.filetype.packed));
  }

  lemma EmptyGathersNothing(k: nat)
    ensures Gather(map[], k) == []
  {
  }

  lemma ActivateAddsUp(c: Session, h: State, h': State, v: SavedView, done: set<nat>)
    requires Sound(c, h, h.viewIndex, done) && FitsPath(c.tmpDir, c.filename, c.rank, h.viewIndex + 1)
    requires h'.state == ACTIVE && h'.viewIndex == h.viewIndex + 1 && h'.saved == Some(v) && h'.handed == h.handed
    requires h'.sections == h.sections + [Section(v, [])] && h'.fd == StagingFile(FileName(c, h.viewIndex + 1))
    requires Shaped(h') && OnlyTouches(h.files, h'.files, FileName(c, h.viewIndex + 1))
    requires KeepsSection(c, h', h.viewIndex, h.viewIndex)
    ensures Sound(c, h', h.viewIndex, done)
  {
    OthersKept(c, h, h', h.viewIndex, h.viewIndex, h.viewIndex + 1, done);
  }

  /** Activating a view on a handle that has handed over all its sections adds one that is not. */
  lemma ActivateKeeps(c: Session, h: State, v: SavedView, o: Outcome, done: set<nat>)
    requires Sound(c, h, h.viewIndex, done) && GoodView(v) && o.described && o.opens && Reusable(c, h, v)
    ensures Sound(c, Activate(c, h, v, o).0, h.viewIndex, done)
  {
    ActivatedFile(c, h, v, o);
    ActivateAddsUp(c, h, Activate(c, h, v, o).0, v, done);
  }

  lemma StagedGrows(size: nat, writes: seq<Write>, w: Write)
    requires size > 0
    ensures ViewSize(StagingView(size)) > 0
    ensures Staged(size, writes + [w]) == WriteView(Staged(size, writes), StagingView(size), w.offset * size, w.data)
  {
    StagingViewIsLinear(size, 0);
    assert (writes + [w])[..|writes|] == writes;
  }

  /** A write under the active view goes to its section's own file and is recorded with it. */
  lemma WrittenFile(c: Session, h: State, w: Write, done: set<nat>)
    requires h.state == ACTIVE && DescriptorInv(c, h) && Keeps(c, h, h.viewIndex - 1, done)
    ensures var h' := WriteStaged(h, w);
            && Shaped(h') && OnlyTouches(h.files, h'.files, FileName(c, h.viewIndex))
            && h' == h.(files := h'.files, sections := h'.sections)
            && (forall k :: 0 <= k < h.viewIndex - 1 ==> h'.sections[k] == h.sections[k])
            && h'.sections[h.viewIndex - 1] == Section(h.saved.value, h.sections[h.viewIndex - 1].writes + [w])
            && KeepsSection(c, h', h.viewIndex - 1, h.viewIndex - 1)
  {
    var last := h.viewIndex - 1;
    assert KeepsSection(c, h, last, last);
    StagedGrows(h.saved.value.etype.size, h.sections[last].writes, w);
  }

  lemma WriteAddsUp(c: Session, h: State, h': State, done: set<nat>)
    requires h.state == ACTIVE && Sound(c, h, h.viewIndex - 1, done)
    requires Shaped(h') && OnlyTouches(h.files, h'.files, FileName(c, h.viewIndex))
    requires h' == h.(files := h'.files, sections := h'.sections)
    requires h'.sections[h.viewIndex - 1].view == h.saved.value
    requires forall k :: 0 <= k < h.viewIndex - 1 ==> h'.sections[k] == h.sections[k]
    requires KeepsSection(c, h', h.viewIndex - 1, h.viewIndex - 1)
    ensures Sound(c, h', h.viewIndex - 1, done)
  {
    OthersKept(c, h, h', h.viewIndex - 1, h.viewIndex - 1, h.viewIndex, done);
    AllSectionsKept(c, h', h.viewIndex - 1, h.viewIndex - 1, done);
    StillSound(c, h, h', h.viewIndex - 1, done);
  }

  /** Other files and sections, but all that is not done with kept. */
  lemma StillSound(c: Session, h: State, h': State, n: int, done: set<nat>)
    requires Sound(c, h, n, done) && Shaped(h') && h' == h.(files := h'.files, sections := h'.sections)
    requires h.state == ACTIVE ==> h'.sections[h.viewIndex - 1].view == h.saved.value
    requires forall k: nat :: k < |h'.sections| && k !in done ==> KeepsSection(c, h', n, k)
    ensures Sound(c, h', n, done)
  {
  }

  /** One section, and all others. */
  lemma AllSectionsKept(c: Session, h: State, n: int, last: nat, done: set<nat>)
    requires Shaped(h) && last < |h.sections| && KeepsSection(c, h, n, last)
    requires forall k: nat :: k < |h.sections| && k != last && k !in done ==> KeepsSection(c, h, n, k)
    ensures forall k: nat :: k < |h.sections| && k !in done ==> KeepsSection(c, h, n, k)
  {
  }

  lemma WriteKeeps(c: Session, h: State, w: Write, done: set<nat>)
    requires h.state == ACTIVE && Sound(c, h, h.viewIndex - 1, done)
    ensures Sound(c, WriteStaged(h, w), h.viewIndex - 1, done)
  {
    WrittenFile(c, h, w, done);
    WriteAddsUp(c, h, WriteStaged(h, w), done);
  }

  /** Only state, descriptor, atomicity and the closed flag differ, and no view becomes active. */
  lemma RelabelKeeps(c: Session, h: State, h': State, n: int, done: set<nat>)
    requires Keeps(c, h, n, done)
    requires h' == h.(state := h'.state, fd := h'.fd, atomicity := h'.atomicity, closed := h'.closed)
    requires h'.state == ACTIVE ==> h.state == ACTIVE
    ensures Keeps(c, h', n, done)
  {
    forall k: nat | k < |h.sections| && k !in done
      ensures KeepsSection(c, h', n, k)
    {
      SectionKept(c, h, h', n, n, k);
    }
  }

  /** Whatever others do to the directory, live sections stay sound if their files are left alone; done may grow. */
  lemma OthersMove(c: Session, h: State, n: int, done: set<nat>, files: map<string, Staging>, done': set<nat>)
    requires Sound(c, h, n, done) && done <= done' && forall k :: k in done' ==> k < n
    requires forall k: nat :: k < |h.sections| && k !in done' && FileName(c, k + 1) in h.files ==>
               FileName(c, k + 1) in files && files[FileName(c, k + 1)] == h.files[FileName(c, k + 1)]
    ensures Sound(c, h.(files := files), n, done')
  {
    var h' := h.(files := files);
    forall k: nat | k < |h.sections| && k !in done'
      ensures KeepsSection(c, h', n, k)
    {
      assert KeepsSection(c, h, n, k);
      SectionKept(c, h, h', n, n, k);
    }
  }

  lemma OpenedIsSound(c: Session, files: map<string, Staging>)
    requires GoodSession(c)
    ensures Sound(c, Opened(files), 0, {})
  {
  }

  /** The first part of set_view hands over the view that is active, if it succeeds. */
  lemma BeginKeeps(c: Session, h: State, datarep: string, sequential: bool, v: SavedView, o: Outcome, done: set<nat>)
    requires !h.closed && Sound(c, h, HandedCount(h), done)
    ensures var (h', code) := BeginSetView(c, h, datarep, sequential, v, o);
            && Sound(c, h', if code == SUCCESS then h.viewIndex else HandedCount(h), done)
            && h'.state == h.state && h'.viewIndex == h.viewIndex && !h'.closed && h'.sections == h.sections
  {
    if h.state == ACTIVE {
      FlushKeeps(c, h, o, done);
      FlushFrame(c, h, o, done);
    }
  }

  lemma BeginFrame(c: Session, h: State, datarep: string, sequential: bool, v: SavedView, o: Outcome, done: set<nat>)
    requires !h.closed && Sound(c, h, HandedCount(h), done)
    ensures var h' := BeginSetView(c, h, datarep, sequential, v, o).0;
            && h' == h.(files := h'.files, handed := h'.handed)
            && (h'.handed == h.handed || h'.handed == h.handed + [FileName(c, |h.handed| + 1)])
  {
    if h.state == ACTIVE {
      FlushFrame(c, h, o, done);
    }
  }

  /** The second part leaves the handle with all sections handed over but the one it activates. */
  lemma FinishKeeps(c: Session, h: State, v: SavedView, o: Outcome, done: set<nat>)
    requires !h.closed && Sound(c, h, h.viewIndex, done) && GoodView(v) && o.described && o.opens
    requires FinishSetView(c, h, v, o).0.viewIndex > h.viewIndex ==> Reusable(c, h, v)
    ensures var h' := FinishSetView(c, h, v, o).0; Sound(c, h', HandedCount(h'), done) && !h'.closed
  {
    var h' := FinishSetView(c, h, v, o).0;
    if IsTrivial(v.disp, v.etype, v.filetype) {
      RelabelKeeps(c, h, h', h.viewIndex, done);
    } else if h.state != FALLBACK {
      ActivateKeeps(c, h, v, o, done);
    }
  }

  lemma FlushKeepsReusable(c: Session, h: State, o: Outcome, v: SavedView)
    requires Shaped(h) && NamesFit(c, h.viewIndex) && Reusable(c, h, v)
    ensures Reusable(c, Flush(c, h, o).0, v)
  {
    FlushTouches(c, h, o);
    if h.state == ACTIVE {
      NamesDiffer(c, h.viewIndex + 1, h.viewIndex, h.viewIndex + 1);
    }
  }

  lemma SetViewKeeps(c: Session, h: State, datarep: string, sequential: bool, v: SavedView, o: Outcome)
    requires Inv(c, h) && !h.closed && GoodView(v) && o.described && o.opens
    requires SetView(c, h, datarep, sequential, v, o).0.viewIndex > h.viewIndex ==> Reusable(c, h, v)
    ensures Inv(c, SetView(c, h, datarep, sequential, v, o).0)
  {
    var (h', code) := BeginSetView(c, h, datarep, sequential, v, o);
    BeginKeeps(c, h, datarep, sequential, v, o, {});
    if code == SUCCESS {
      if FinishSetView(c, h', v, o).0.viewIndex > h.viewIndex {
        FlushKeepsReusable(c, h, o, v);
      }
      FinishKeeps(c, h', v, o, {});
    }
  }

  lemma CloseKeeps(c: Session, h: State, o: Outcome, done: set<nat>)
    requires !h.closed && Sound(c, h, HandedCount(h), done)
    ensures var (h', code) := Close(c, h, o);
            && Sound(c, h', HandedCount(h'), done) && h'.viewIndex == h.viewIndex && h'.sections == h.sections
            && (h'.closed <==> code == SUCCESS)
  {
    if h.state == ACTIVE {
      FlushKeeps(c, h, o, done);
      FlushFrame(c, h, o, done);
      var (h', code) := Flush(c, h, o);
      if code == SUCCESS {
        RelabelKeeps(c, h', h'.(closed := true), h.viewIndex, done);
      }
    } else {
      RelabelKeeps(c, h, h.(closed := true), h.viewIndex, done);
    }
  }

  lemma CloseFrame(c: Session, h: State, o: Outcome, done: set<nat>)
    requires !h.closed && Sound(c, h, HandedCount(h), done)
    ensures var h' := Close(c, h, o).0;
            && h' == h.(files := h'.files, handed := h'.handed, closed := h'.closed)
            && (h'.handed == h.handed || h'.handed == h.handed + [FileName(c, |h.handed| + 1)])
  {
    if h.state == ACTIVE {
      FlushFrame(c, h, o, done);
    }
  }

  lemma AtomicityKeeps(c: Session, h: State, flag: bool, agreed: bool, supported: bool, done: set<nat>)
    requires !h.closed && Sound(c, h, HandedCount(h), done)
    ensures var h' := SetAtomicity(h, flag, agreed, supported).0; Sound(c, h', HandedCount(h'), done)
  {
    RelabelKeeps(c, h, SetAtomicity(h, flag, agreed, supported).0, HandedCount(h), done);
  }

  /** The call makes a view active. */
  ghost predicate Activates(c: Session, h: State, e: Event)
    requires Shaped(h)
  {
    e.SetViewCall? && Next(c, h, e).viewIndex > h.viewIndex
  }

  /** Outside calls succeed, but for flushes, and a staging file that is taken again spoils no description. */
  ghost predicate Smooth(c: Session, h: State, e: Event)
    requires Shaped(h)
  {
    OthersSucceed(e) && (Activates(c, h, e) ==> Reusable(c, h, e.v))
  }

  lemma InvStep(c: Session, h: State, e: Event)
    requires Inv(c, h) && Enabled(h, e) && Smooth(c, h, e)
    ensures Inv(c, Next(c, h, e))
  {
    match e
    case SetViewCall(datarep, sequential, v, o) => SetViewKeeps(c, h, datarep, sequential, v, o);
    case SetAtomicityCall(flag, agreed, supported) => AtomicityKeeps(c, h, flag, agreed, supported, {});
    case WriteCall(w) =>
      if h.state == ACTIVE {
        WriteKeeps(c, h, w, {});
      }
    case CloseCall(o) => CloseKeeps(c, h, o, {});
  }

  /** Calls on a handle, none after it is closed. */
  ghost predicate Legal(c: Session, h: State, es: seq<Event>)
    decreases |es|, 0
  {
    es == [] ||
    var front := es[..|es| - 1];
    Legal(c, h, front) && Shaped(After(c, h, front)) && Enabled(After(c, h, front), es[|es| - 1])
  }

  ghost function After(c: Session, h: State, es: seq<Event>): State
    requires Legal(c, h, es)
    decreases |es|, 1
  {
    if es == [] then h else Next(c, After(c, h, es[..|es| - 1]), es[|es| - 1])
  }

  ghost predicate SmoothRun(c: Session, h: State, es: seq<Event>)
    requires Legal(c, h, es)
  {
    es != [] ==>
      var front := es[..|es| - 1];
      SmoothRun(c, h, front) && Smooth(c, After(c, h, front), es[|es| - 1])
  }

  /** The invariant holds over every run from open on in which only flushes fail. */
  lemma {:induction false} RunKeepsInv(c: Session, files: map<string, Staging>, es: seq<Event>)
    requires GoodSession(c) && Legal(c, Opened(files), es) && SmoothRun(c, Opened(files), es)
    ensures Inv(c, After(c, Opened(files), es))
    decreases |es|
  {
    if es != [] {
      var front := es[..|es| - 1];
      RunKeepsInv(c, files, front);
      InvStep(c, After(c, Opened(files), front), es[|es| - 1]);
    }
  }

  /**
   * Each activated view was handed to the daemon exactly once, in order, by the
   * name of a file that carries the view its bytes were written under and holds
   * just those bytes.
   */
  ghost predicate Delivered(c: Session, h: State) {
    && Shaped(h) && |h.handed| == |h.sections|
    && (forall k: nat :: k < |h.handed| ==> h.handed[k] == FileName(c, k + 1) && Carries(c, h, k) && Holds(c, h, k))
    && (forall j: nat, k: nat :: j < k < |h.handed| ==> h.handed[j] != h.handed[k])
  }

  lemma ClosedIsDelivered(c: Session, h: State)
    requires Inv(c, h) && h.closed
    ensures Delivered(c, h)
  {
    forall k: nat | k < |h.handed|
      ensures Carries(c, h, k) && Holds(c, h, k)
    {
      assert KeepsSection(c, h, h.viewIndex, k);
    }
    forall j: nat, k: nat | j < k < |h.handed|
      ensures h.handed[j] != h.handed[k]
    {
      NamesDiffer(c, h.viewIndex, j + 1, k + 1);
    }
  }

  /** From open to a successful close, whatever flushes failed in between. */
  lemma EachViewHandedOnce(c: Session, files: map<string, Staging>, es: seq<Event>)
    requires GoodSession(c) && Legal(c, Opened(files), es) && SmoothRun(c, Opened(files), es)
    requires After(c, Opened(files), es).closed
    ensures Delivered(c, After(c, Opened(files), es))
  {
    RunKeepsInv(c, files, es);
    ClosedIsDelivered(c, After(c, Opened(files), es));
  }

  // ----- which file a call touches -----

  lemma BeginTouches(c: Session, h: State, datarep: string, sequential: bool, v: SavedView, o: Outcome)
    requires Shaped(h)
    ensures var h' := BeginSetView(c, h, datarep, sequential, v, o).0;
            && OnlyTouches(h.files, h'.files, FileName(c, h.viewIndex))
            && (h.state != ACTIVE ==> h' == h) && h'.viewIndex == h.viewIndex
  {
    FlushTouches(c, h, o);
  }

  lemma FinishTouches(c: Session, h: State, v: SavedView, o: Outcome)
    ensures var h' := FinishSetView(c, h, v, o).0;
            && OnlyTouches(h.files, h'.files, FileName(c, h.viewIndex + 1))
            && (h'.viewIndex == h.viewIndex ==> h'.files == h.files)
  {
  }

  lemma SetViewTouches(c: Session, h: State, datarep: string, sequential: bool, v: SavedView, o: Outcome, name: string)
    requires Shaped(h) && name != FileName(c, h.viewIndex + 1)
    requires h.state == ACTIVE ==> name != FileName(c, h.viewIndex)
    requires name in h.files
    ensures var files := SetView(c, h, datarep, sequential, v, o).0.files;
            name in files && files[name] == h.files[name]
  {
    BeginTouches(c, h, datarep, sequential, v, o);
    FinishTouches(c, BeginSetView(c, h, datarep, sequential, v, o).0, v, o);
  }

  lemma OtherCallsTouch(c: Session, h: State, e: Event)
    requires Shaped(h) && DescriptorInv(c, h) && !e.SetViewCall?
    ensures OnlyTouches(h.files, Next(c, h, e).files, FileName(c, h.viewIndex))
    ensures h.state != ACTIVE ==> Next(c, h, e).files == h.files
  {
  }

  /** A file that was handed over is neither the active view's nor the next one's. */
  lemma HandedIsApart(c: Session, h: State, k: nat)
    requires Inv(c, h) && !h.closed && FitsPath(c.tmpDir, c.filename, c.rank, h.viewIndex + 1) && k < |h.handed|
    ensures h.handed[k] == FileName(c, k + 1) && h.handed[k] in h.files
    ensures h.handed[k] != FileName(c, h.viewIndex + 1) && (h.state == ACTIVE ==> h.handed[k] != FileName(c, h.viewIndex))
  {
    assert KeepsSection(c, h, HandedCount(h), k);
    NamesDiffer(c, h.viewIndex + 1, k + 1, h.viewIndex + 1);
    if h.state == ACTIVE {
      NamesDiffer(c, h.viewIndex + 1, k + 1, h.viewIndex);
    }
  }

  /** A file that was handed over is never touched again by its handle, whatever the outcome of a call. */
  lemma HandedFilesAreFinal(c: Session, h: State, e: Event, k: nat)
    requires Inv(c, h) && Enabled(h, e)
    requires FitsPath(c.tmpDir, c.filename, c.rank, h.viewIndex + 1) && k < |h.handed|
    ensures h.handed[k] in h.files
    ensures h.handed[k] in Next(c, h, e).files && Next(c, h, e).files[h.handed[k]] == h.files[h.handed[k]]
  {
    HandedIsApart(c, h, k);
    if e.SetViewCall? {
      SetViewTouches(c, h, e.datarep, e.sequential, e.v, e.o, h.handed[k]);
    } else {
      OtherCallsTouch(c, h, e);
    }
  }

  // ----- atomic mode -----

  /** A handle in atomic mode has fallen back to writing directly. */
  ghost predicate AtomicIsFallback(h: State) {
    h.atomicity ==> h.state == FALLBACK
  }

  /** Whatever the outside world does, atomic mode and staging never meet. */
  lemma AtomicStep(c: Session, h: State, e: Event)
    requires Shaped(h) && Enabled(h, e) && AtomicIsFallback(h)
    ensures AtomicIsFallback(Next(c, h, e))
  {
    FallbackIsKept(c, h, e);
  }

  lemma FallbackStep(c: Session, h: State, e: Event)
    requires Shaped(h) && Enabled(h, e) && h.state == FALLBACK
    ensures var t := Next(c, h, e);
            && t.state == FALLBACK && t.viewIndex == h.viewIndex
            && t.files == h.files && t.handed == h.handed && t.sections == h.sections
  {
  }

  /** After falling back a handle stages nothing and hands nothing over, in any run. */
  lemma {:induction false} FallbackNeverStages(c: Session, h: State, es: seq<Event>)
    requires Shaped(h) && h.state == FALLBACK && Legal(c, h, es)
    ensures var t := After(c, h, es);
            && t.state == FALLBACK && t.viewIndex == h.viewIndex
            && t.files == h.files && t.handed == h.handed && t.sections == h.sections
    decreases |es|
  {
    if es != [] {
      FallbackNeverStages(c, h, es[..|es| - 1]);
      FallbackStep(c, After(c, h, es[..|es| - 1]), es[|es| - 1]);
    }
  }

  /** Once atomic mode was asked for and not refused, granted or not, no run stages or hands over anything any more. */
  lemma AtomicFromThenOn(c: Session, h: State, agreed: bool, supported: bool, es: seq<Event>)
    requires Shaped(h) && SetAtomicity(h, true, agreed, supported).1 != ERROR
    requires Legal(c, SetAtomicity(h, true, agreed, supported).0, es)
    ensures var t := After(c, SetAtomicity(h, true, agreed, supported).0, es);
            t.state == FALLBACK && t.files == h.files && t.handed == h.handed && t.sections == h.sections
  {
    FallbackNeverStages(c, SetAtomicity(h, true, agreed, supported).0, es);
  }

  /** The flag of the last call the run has seen granted, what it began with if there was none. */
  ghost function LastGranted(c: Session, h: State, es: seq<Event>): bool
    requires Legal(c, h, es)
  {
    if es == [] then h.atomicity
    else
      var front, e := es[..|es| - 1], es[|es| - 1];
      if e.SetAtomicityCall? && After(c, h, front).state != ACTIVE && e.agreed && (e.flag ==> e.supported) then e.flag
      else LastGranted(c, h, front)
  }

  lemma AtomicityAfter(c: Session, h: State, e: Event)
    requires Shaped(h) && Enabled(h, e)
    ensures Next(c, h, e).atomicity ==
            if e.SetAtomicityCall? && h.state != ACTIVE && e.agreed && (e.flag ==> e.supported) then e.flag else h.atomicity
  {
  }

  /** Over every run the handle is in the atomic mode that was granted last; none other switches it. */
  lemma {:induction false} AtomicityIsLastGranted(c: Session, h: State, es: seq<Event>)
    requires Legal(c, h, es)
    ensures After(c, h, es).atomicity == LastGranted(c, h, es)
    decreases |es|
  {
    if es != [] {
      AtomicityIsLastGranted(c, h, es[..|es| - 1]);
      AtomicityAfter(c, After(c, h, es[..|es| - 1]), es[|es| - 1]);
    }
  }

  /** The codes of set_atomicity; a refused call changes nothing, and one that asks for atomic mode falls back, granted or not. */
  lemma AtomicityExactly(c: Session, h: State, flag: bool, agreed: bool, supported: bool)
    ensures var (h', code) := SetAtomicity(h, flag, agreed, supported);
            && (code == SUCCESS <==> h.state != ACTIVE && agreed && (flag ==> supported))
            && (code == ERR_IO <==> h.state != ACTIVE && agreed && flag && !supported)
            && code in {SUCCESS, ERROR, ERR_IO} && (code == ERROR ==> h' == h)
            && h' == h.(state := if flag && code != ERROR then FALLBACK else h.state,
                        atomicity := if code == SUCCESS then flag else h.atomicity)
  {
  }

  // ----- what success means -----

  /** On a handle a run can reach, a flush succeeds exactly when no view is active, or all its attribute writes and the send do. */
  lemma FlushSucceedsExactly(c: Session, h: State, o: Outcome)
    requires Inv(c, h) && !h.closed
    ensures Flush(c, h, o).1 == SUCCESS <==>
            h.state != ACTIVE || (|Entries(c.dest, Packed(h.saved.value))| <= o.budget && o.sent)
  {
    if h.state == ACTIVE {
      assert KeepsSection(c, h, h.viewIndex - 1, h.viewIndex - 1);
    }
  }

  /** A flush of the active view writes the first attributes, as many as the outside world lets it, and no more. */
  lemma FlushWritesExactly(c: Session, h: State, o: Outcome)
    requires Inv(c, h) && !h.closed && h.state == ACTIVE
    ensures var h', name, es := Flush(c, h, o).0, FileName(c, h.viewIndex), Entries(c.dest, Packed(h.saved.value));
            && name in h.files && name in h'.files && h'.files[name].data == h.files[name].data
            && (forall i :: 0 <= i < |es| && i < o.budget ==>
                  es[i].name in h'.files[name].attrs && h'.files[name].attrs[es[i].name] == es[i].value)
            && (forall x :: (forall i :: 0 <= i < |es| && i < o.budget ==> es[i].name != x) ==>
                  GetXattr(h'.files[name].attrs, x, MAX_XATTR_VALUE_SIZE) == GetXattr(h.files[name].attrs, x, MAX_XATTR_VALUE_SIZE))
  {
    assert KeepsSection(c, h, h.viewIndex - 1, h.viewIndex - 1);
    var name, saved := FileName(c, h.viewIndex), Packed(h.saved.value);
    var es := Entries(c.dest, saved);
    var attrs, n := h.files[name].attrs, Lesser(o.budget, |es|);
    forall i | 0 <= i < n
      ensures es[i].name in PutAll(attrs, es[..n]) && PutAll(attrs, es[..n])[es[i].name] == es[i].value
    {
      EntriesDiffer(c.dest, saved, i);
      PutAllHolds(attrs, es[..n], i);
    }
    forall x | forall i :: 0 <= i < n ==> es[i].name != x
      ensures GetXattr(PutAll(attrs, es[..n]), x, MAX_XATTR_VALUE_SIZE) == GetXattr(attrs, x, MAX_XATTR_VALUE_SIZE)
    {
      PutAllKeeps(attrs, es[..n], x);
    }
  }

  /** How many attribute writes a flush of the active view makes. */
  lemma EntriesOfActive(c: Session, h: State)
    requires Inv(c, h) && !h.closed && h.state == ACTIVE
    ensures h.saved.Some? && |Entries(c.dest, Packed(h.saved.value))| == 3 + ChunkCount(h.saved.value.filetype.packed)
  {
    ChunkEntriesAre(h.saved.value.filetype.packed, 0);
  }

  /**
   * On a handle a run can reach: which code set_view returns, and whether it
   * moves on to the next staging file, back to the destination, or nowhere.
   */
  lemma SetViewExactly(c: Session, h: State, datarep: string, sequential: bool, v: SavedView, o: Outcome)
    requires Inv(c, h) && !h.closed
    ensures var (h', code) := SetView(c, h, datarep, sequential, v, o);
            var native := datarep == "native" || datarep == "NATIVE";
            var placed := v.disp != -54278278 || sequential;
            var flushes := h.state == ACTIVE ==>
                             h.saved.Some? && 3 + ChunkCount(h.saved.value.filetype.packed) <= o.budget && o.sent;
            var stages := h.state != FALLBACK && !(v.disp == 0 && v.etype.isByte && v.filetype.isByte);
            && (code == ERR_UNSUPPORTED_DATAREP <==> !native)
            && (code == ERR_DISP <==> native && !placed)
            && (code == SUCCESS <==> native && placed && flushes && o.viewSet && (stages ==> o.described && o.opens))
            && code != ERR_IO
            && h'.viewIndex == h.viewIndex + (if native && placed && flushes && stages then 1 else 0)
            && h'.state == (if !native || !placed || !flushes || h.state == FALLBACK then h.state
                            else if stages then ACTIVE else DEFAULT)
            && (!native || !placed || h.state == FALLBACK ==> h' == h)
  {
    if h.state == ACTIVE {
      EntriesOfActive(c, h);
      FlushSucceedsExactly(c, h, o);
      FlushFrame(c, h, o, {});
    }
  }

  /** Close succeeds, and closes, exactly when no view is active or the active one can be flushed. */
  lemma CloseExactly(c: Session, h: State, o: Outcome)
    requires Inv(c, h) && !h.closed
    ensures var (h', code) := Close(c, h, o);
            && (code == SUCCESS <==>
                  (h.state == ACTIVE ==>
                     h.saved.Some? && 3 + ChunkCount(h.saved.value.filetype.packed) <= o.budget && o.sent))
            && code in {SUCCESS, ERROR} && (h'.closed <==> code == SUCCESS)
            && (h.viewIndex == 0 ==> code == SUCCESS)
            && (h.state != ACTIVE ==> h' == h.(closed := true))
  {
    if h.state == ACTIVE {
      EntriesOfActive(c, h);
      FlushSucceedsExactly(c, h, o);
      FlushFrame(c, h, o, {});
    }
  }

  /** A new view is active on an empty staging file of its own, all earlier ones are handed over. */
  ghost predicate FreshView(c: Session, h: State, v: SavedView) {
    && h.state == ACTIVE && h.saved == Some(v) && h.fd == StagingFile(Name(c.tmpDir, c.filename, c.rank, h.viewIndex))
    && h.fd.name in h.files && h.files[h.fd.name].data == map[] && |h.handed| == h.viewIndex - 1
  }

  /** Writes go to the destination, and all views are handed over. */
  ghost predicate Direct(h: State) {
    h.state == DEFAULT && h.fd == Destination && |h.handed| == h.viewIndex
  }

  /**
   * A successful set_view of a proper view makes it active on an empty staging
   * file of the next number; one of the trivial view goes back to the
   * destination; either way an active view was handed over first.
   */
  lemma SuccessfulSetView(c: Session, h: State, datarep: string, sequential: bool, v: SavedView, o: Outcome)
    requires Inv(c, h) && !h.closed && h.state != FALLBACK && o.opens
    requires SetView(c, h, datarep, sequential, v, o).1 == SUCCESS
    ensures var h' := SetView(c, h, datarep, sequential, v, o).0;
            && h'.handed == h.handed + (if h.state == ACTIVE then [Name(c.tmpDir, c.filename, c.rank, h.viewIndex)] else [])
            && if v.disp == 0 && v.etype.isByte && v.filetype.isByte then Direct(h') && h'.viewIndex == h.viewIndex
               else FreshView(c, h', v) && h'.viewIndex == h.viewIndex + 1
  {
    if h.state == ACTIVE {
      FlushFrame(c, h, o, {});
    }
  }

  /** A write under an active view is in the view's own staging file, on top of the earlier ones. */
  ghost predicate Recorded(c: Session, h: State, w: Write, h': State) {
    && Inv(c, h') && h.sections != [] && |h'.sections| == |h.sections| == h.viewIndex
    && h'.sections[h.viewIndex - 1].writes == h.sections[h.viewIndex - 1].writes + [w]
    && Holds(c, h', h.viewIndex - 1)
  }

  lemma WriteIsRecorded(c: Session, h: State, w: Write)
    requires Inv(c, h) && h.state == ACTIVE && !h.closed
    ensures Recorded(c, h, w, WriteStaged(h, w))
  {
    WriteKeeps(c, h, w, {});
    WrittenFile(c, h, w, {});
  }
}
