/**
 * The view a staging file carries in its extended attributes: the flush writes
 * it, the packed filetype in numbered chunks, and the daemon puts it together.
 */
module Attributes {
  import opened Arith
  import opened Paths
  import opened Storage
  import opened Wrappers

  const MAX_XATTR_VALUE_SIZE := 65536
  const TARGET_BUFFER_SIZE := 4 * 1024 * 1024
  const MAX_CHUNKS := 64

  const ATTR_DEST_PATH := "user.bbview.dest_path"
  const ATTR_ETYPE := "user.bbview.etype"
  const ATTR_DATATYPE := "user.bbview.datatype"
  const ATTR_DISP := "user.bbview.disp"

  type Attrs = map<string, seq<byte>>

  // ----- decimal numbers, as %d prints them -----

  function Digit(n: nat): (c: char)
    requires n < 10
    ensures '0' <= c <= '9' && c as int - '0' as int == n
  {
    ('0' as int + n) as char
  }

  function Decimal(n: nat): (s: string)
    ensures s != []
    ensures forall i :: 0 <= i < |s| ==> '0' <= s[i] <= '9'
  {
    if n < 10 then [Digit(n)] else Decimal(n / 10) + [Digit(n % 10)]
  }

  /** The number a decimal stands for. */
  function Value(s: string): int {
    if s == [] then 0 else 10 * Value(s[..|s| - 1]) + (s[|s| - 1] as int - '0' as int)
  }

  lemma {:induction false} DecimalRoundTrip(n: nat)
    ensures Value(Decimal(n)) == n
  {
    if n < 10 {
      assert Decimal(n)[..0] == [];
    } else {
      DecimalRoundTrip(n / 10);
      assert Decimal(n)[..|Decimal(n)| - 1] == Decimal(n / 10);
    }
  }

  predicate Digits(s: string) {
    s != [] && forall i :: 0 <= i < |s| ==> '0' <= s[i] <= '9'
  }

  lemma {:induction false} ValueIsPositive(s: string)
    requires Digits(s) && s[0] != '0'
    ensures Value(s) > 0
  {
    if |s| > 1 {
      ValueIsPositive(s[..|s| - 1]);
    } else {
      assert s[..0] == [];
    }
  }

  lemma {:induction false} ValueIsNatural(s: string)
    requires forall i :: 0 <= i < |s| ==> '0' <= s[i] <= '9'
    ensures Value(s) >= 0
  {
    if s != [] {
      ValueIsNatural(s[..|s| - 1]);
    }
  }

  lemma {:induction false} DecimalStarts(n: nat)
    ensures Decimal(n)[0] == '0' ==> n == 0
  {
    if n >= 10 {
      DecimalStarts(n / 10);
    }
  }

  lemma {:induction false} DecimalIsOnly(s: string, n: nat)
    requires Digits(s) && (s[0] == '0' ==> |s| == 1) && Value(s) == n
    ensures s == Decimal(n)
    decreases |s|
  {
    var front, last := s[..|s| - 1], s[|s| - 1] as int - '0' as int;
    if |s| == 1 {
      assert front == [] && last == n;
      assert s[0] == Digit(n);
    } else {
      ValueIsPositive(front);
      assert n / 10 == Value(front) && n % 10 == last;
      DecimalIsOnly(front, n / 10);
      assert s[|s| - 1] == Digit(n % 10);
    }
  }

  /** The decimal of n is the one row of digits that stands for n without a leading zero. */
  lemma {:induction false} DecimalExactly(n: nat, s: string)
    ensures s == Decimal(n) <==> Digits(s) && (s[0] == '0' ==> s == "0") && Value(s) == n
  {
    DecimalRoundTrip(n);
    DecimalStarts(n);
    if Digits(s) && (s[0] == '0' ==> s == "0") && Value(s) == n {
      DecimalIsOnly(s, n);
    }
  }

  function ChunkName(k: nat): string {
    ATTR_DATATYPE + Decimal(k)
  }

  lemma ChunkNamesDiffer(j: nat, k: nat)
    ensures ChunkName(j) == ChunkName(k) ==> j == k
  {
    assert ChunkName(j)[|ATTR_DATATYPE|..] == Decimal(j);
    assert ChunkName(k)[|ATTR_DATATYPE|..] == Decimal(k);
    DecimalRoundTrip(j);
    DecimalRoundTrip(k);
  }

  lemma ChunkNamesClashWithNone(k: nat)
    ensures ChunkName(k) != ATTR_DEST_PATH && ChunkName(k) != ATTR_ETYPE && ChunkName(k) != ATTR_DISP
  {
    assert ChunkName(k)[12] == 'd' && ChunkName(k)[13] == 'a';
    assert ATTR_DEST_PATH[13] == 'e' && ATTR_DISP[13] == 'i' && ATTR_ETYPE[12] == 'e';
  }

  // ----- values -----

  /** A displacement as its eight bytes, the lowest first. */
  function LittleEndian(n: nat, k: nat): (b: seq<byte>)
    ensures |b| == k
  {
    if k == 0 then [] else [(n % 256) as byte] + LittleEndian(n / 256, k - 1)
  }

  function FromLittleEndian(b: seq<byte>): nat {
    if b == [] then 0 else b[0] as nat + 256 * FromLittleEndian(b[1..])
  }

  function Pow256(k: nat): nat {
    if k == 0 then 1 else 256 * Pow256(k - 1)
  }

  lemma {:induction false} LittleEndianRoundTrip(n: nat, k: nat)
    requires n < Pow256(k)
    ensures FromLittleEndian(LittleEndian(n, k)) == n
  {
    if k > 0 {
      LittleEndianRoundTrip(n / 256, k - 1);
      assert LittleEndian(n, k)[1..] == LittleEndian(n / 256, k - 1);
    }
  }

  const OFFSET_LIMIT: int := 0x8000_0000_0000_0000

  predicate IsOffset(disp: int) {
    -OFFSET_LIMIT <= disp < OFFSET_LIMIT
  }

  function EncodeDisp(disp: int): (b: seq<byte>)
    requires IsOffset(disp)
    ensures |b| == 8
  {
    LittleEndian(if disp < 0 then disp + 2 * OFFSET_LIMIT else disp, 8)
  }

  function DecodeDisp(b: seq<byte>): int {
    var n: int := FromLittleEndian(b);
    if n < OFFSET_LIMIT then n else n - 2 * OFFSET_LIMIT
  }

  lemma DispRoundTrip(disp: int)
    requires IsOffset(disp)
    ensures DecodeDisp(EncodeDisp(disp)) == disp
  {
    assert Pow256(8) == 256 * Pow256(7) == 65536 * Pow256(6) == 16777216 * Pow256(5) == 0x1_0000_0000 * Pow256(4);
    assert Pow256(4) == 256 * Pow256(3) == 65536 * Pow256(2) == 16777216 * Pow256(1) == 0x1_0000_0000;
    LittleEndianRoundTrip(if disp < 0 then disp + 2 * OFFSET_LIMIT else disp, 8);
  }

  /** n without its i lowest bytes. */
  function Shifted(n: int, i: nat): int
    decreases i
  {
    if i == 0 then n else Shifted(n / 256, i - 1)
  }

  lemma {:induction false} LittleEndianAt(n: nat, k: nat, i: nat)
    requires i < k
    ensures LittleEndian(n, k)[i] as int == Shifted(n, i) % 256
  {
    if i > 0 {
      LittleEndianAt(n / 256, k - 1, i - 1);
    }
  }

  lemma {:induction false} ShiftedSum(n: int, k: nat, i: nat)
    requires i < k
    ensures Shifted(n + Pow256(k), i) % 256 == Shifted(n, i) % 256
    decreases i
  {
    assert Pow256(k) == 256 * Pow256(k - 1);
    if i > 0 {
      assert (n + 256 * Pow256(k - 1)) / 256 == n / 256 + Pow256(k - 1);
      ShiftedSum(n / 256, k - 1, i - 1);
    }
  }

  /** Byte i of a displacement is what is left of it without the i lower ones, in two's complement. */
  lemma DispBytes(disp: int, i: nat)
    requires IsOffset(disp) && i < 8
    ensures EncodeDisp(disp)[i] as int == Shifted(disp, i) % 256
  {
    assert Pow256(8) == 256 * Pow256(7) == 65536 * Pow256(6) == 16777216 * Pow256(5) == 0x1_0000_0000 * Pow256(4);
    assert Pow256(4) == 256 * Pow256(3) == 65536 * Pow256(2) == 16777216 * Pow256(1) == 0x1_0000_0000;
    if disp < 0 {
      LittleEndianAt(disp + Pow256(8), 8, i);
      ShiftedSum(disp, 8, i);
    } else {
      LittleEndianAt(disp, 8, i);
    }
  }

  // ----- what the flush writes -----

  /** The view the handle saved: displacement and the packed etype and filetype. */
  datatype Saved = Saved(disp: int, etype: seq<byte>, filetype: seq<byte>)

  datatype Entry = Entry(name: string, value: seq<byte>)

  /** The description in chunks of at most the value size, numbered from k. */
  function ChunkEntries(d: seq<byte>, k: nat): seq<Entry> {
    if d == [] then []
    else
      var n := Lesser(MAX_XATTR_VALUE_SIZE, |d|);
      [Entry(ChunkName(k), d[..n])] + ChunkEntries(d[n..], k + 1)
  }

  function Entries(dest: seq<byte>, saved: Saved): seq<Entry>
    requires IsOffset(saved.disp)
  {
    [Entry(ATTR_DEST_PATH, dest), Entry(ATTR_DISP, EncodeDisp(saved.disp))]
    + ChunkEntries(saved.filetype, 0)
    + [Entry(ATTR_ETYPE, saved.etype)]
  }

  function PutAll(attrs: Attrs, es: seq<Entry>): Attrs {
    if es == [] then attrs
    else PutAll(attrs, es[..|es| - 1])[es[|es| - 1].name := es[|es| - 1].value]
  }

  lemma PutNext(attrs: Attrs, es: seq<Entry>, k: nat)
    requires k < |es|
    ensures PutAll(attrs, es[..k + 1]) == PutAll(attrs, es[..k])[es[k].name := es[k].value]
  {
    assert es[..k + 1][..k] == es[..k];
  }

  lemma {:induction false} PutAllSplit(attrs: Attrs, a: seq<Entry>, b: seq<Entry>)
    ensures PutAll(attrs, a + b) == PutAll(PutAll(attrs, a), b)
    decreases |b|
  {
    if b == [] {
      assert a + b == a;
    } else {
      assert (a + b)[..|a + b| - 1] == a + b[..|b| - 1];
      PutAllSplit(attrs, a, b[..|b| - 1]);
    }
  }

  lemma {:induction false} PutAllKeeps(attrs: Attrs, es: seq<Entry>, name: string)
    requires forall i :: 0 <= i < |es| ==> es[i].name != name
    ensures name in PutAll(attrs, es) <==> name in attrs
    ensures name in attrs ==> PutAll(attrs, es)[name] == attrs[name]
    decreases |es|
  {
    if es != [] {
      PutAllKeeps(attrs, es[..|es| - 1], name);
    }
  }

  lemma {:induction false} PutAllHolds(attrs: Attrs, es: seq<Entry>, k: nat)
    requires k < |es| && forall i :: k < i < |es| ==> es[i].name != es[k].name
    ensures es[k].name in PutAll(attrs, es) && PutAll(attrs, es)[es[k].name] == es[k].value
    decreases |es|
  {
    if k < |es| - 1 {
      PutAllHolds(attrs, es[..|es| - 1], k);
    }
  }

  /**
   * The chunk loop of the flush. The outside world lets the first budget calls
   * succeed; the loop stops at the one that fails.
   */
  method SetChunks(before: Attrs, d: seq<byte>, budget: nat) returns (attrs: Attrs, ok: bool)
    ensures ok <==> |ChunkEntries(d, 0)| <= budget
    ensures attrs == PutAll(before, ChunkEntries(d, 0)[..Lesser(budget, |ChunkEntries(d, 0)|)])
  {
    ghost var es := ChunkEntries(d, 0);
    attrs := before;
    var offset: nat, index: nat := 0, 0;
    while offset < |d|
      invariant offset <= |d| && index <= budget && index <= |es|
      invariant es[index..] == ChunkEntries(d[offset..], index)
      invariant attrs == PutAll(before, es[..index])
    {
      var chunkSize := Lesser(MAX_XATTR_VALUE_SIZE, |d| - offset);
      if index == budget {
        return attrs, false;
      }
      FirstChunk(d, offset, index);
      assert es[index] == es[index..][0] && es[index + 1..] == es[index..][1..];
      PutNext(before, es, index);
      attrs := attrs[ChunkName(index) := d[offset..offset + chunkSize]];
      offset, index := offset + chunkSize, index + 1;
    }
    assert es[..index] == es;
    ok := true;
  }

  lemma FirstChunk(d: seq<byte>, offset: nat, k: nat)
    requires offset < |d|
    ensures var n := Lesser(MAX_XATTR_VALUE_SIZE, |d| - offset);
            && ChunkEntries(d[offset..], k) != []
            && ChunkEntries(d[offset..], k)[0] == Entry(ChunkName(k), d[offset..offset + n])
            && ChunkEntries(d[offset..], k)[1..] == ChunkEntries(d[offset + n..], k + 1)
  {
    var n := Lesser(MAX_XATTR_VALUE_SIZE, |d| - offset);
    assert d[offset..][..n] == d[offset..offset + n] && d[offset..][n..] == d[offset + n..];
  }

  lemma EntriesShape(before: Attrs, dest: seq<byte>, saved: Saved, n: nat)
    requires IsOffset(saved.disp) && n <= |ChunkEntries(saved.filetype, 0)|
    ensures var es, chunks := Entries(dest, saved), ChunkEntries(saved.filetype, 0);
            && |es| == 3 + |chunks|
            && es[0] == Entry(ATTR_DEST_PATH, dest) && es[1] == Entry(ATTR_DISP, EncodeDisp(saved.disp))
            && es[2 + |chunks|] == Entry(ATTR_ETYPE, saved.etype)
            && PutAll(before, es[..2 + n]) == PutAll(PutAll(before, es[..2]), chunks[..n])
  {
    var es, chunks := Entries(dest, saved), ChunkEntries(saved.filetype, 0);
    assert es[..2 + n] == es[..2] + chunks[..n];
    PutAllSplit(before, es[..2], chunks[..n]);
  }

  /** The first two attribute writes: destination and displacement. */
  method SetHead(before: Attrs, dest: seq<byte>, saved: Saved, budget: nat) returns (attrs: Attrs, ok: bool)
    requires IsOffset(saved.disp)
    ensures ok <==> 2 <= budget
    ensures |Entries(dest, saved)| >= 3 && attrs == PutAll(before, Entries(dest, saved)[..Lesser(budget, 2)])
  {
    ghost var es := Entries(dest, saved);
    EntriesShape(before, dest, saved, 0);
    attrs, ok := before, false;
    if budget == 0 {
      return;
    }
    PutNext(before, es, 0);
    attrs := attrs[ATTR_DEST_PATH := dest];
    if budget == 1 {
      return;
    }
    PutNext(before, es, 1);
    attrs, ok := attrs[ATTR_DISP := EncodeDisp(saved.disp)], true;
  }

  /** The last one: the etype. */
  lemma PutEtype(before: Attrs, dest: seq<byte>, saved: Saved)
    requires IsOffset(saved.disp)
    ensures var es, n := Entries(dest, saved), 2 + |ChunkEntries(saved.filetype, 0)|;
            |es| == n + 1 && PutAll(before, es) == PutAll(before, es[..n])[ATTR_ETYPE := saved.etype]
  {
    var es, n := Entries(dest, saved), 2 + |ChunkEntries(saved.filetype, 0)|;
    EntriesShape(before, dest, saved, 0);
    PutNext(before, es, n);
    assert es[..n + 1] == es;
  }

  /** All the attribute writes of a flush: destination, displacement, filetype chunks, etype. */
  method SetXattrs(before: Attrs, dest: seq<byte>, saved: Saved, budget: nat) returns (attrs: Attrs, ok: bool)
    requires IsOffset(saved.disp)
    ensures ok <==> |Entries(dest, saved)| <= budget
    ensures attrs == PutAll(before, Entries(dest, saved)[..Lesser(budget, |Entries(dest, saved)|)])
  {
    ghost var es, chunks := Entries(dest, saved), |ChunkEntries(saved.filetype, 0)|;
    PutEtype(before, dest, saved);
    attrs, ok := SetHead(before, dest, saved, budget);
    if !ok {
      return;
    }
    EntriesShape(before, dest, saved, Lesser(budget - 2, chunks));
    attrs, ok := SetChunks(attrs, saved.filetype, budget - 2);
    if !ok {
      return;
    }
    ok := false;
    if budget == 2 + |ChunkEntries(saved.filetype, 0)| {
      return;
    }
    assert es[..|es|] == es;
    attrs, ok := attrs[ATTR_ETYPE := saved.etype], true;
  }

  // ----- what the daemon reads -----

  /** fgetxattr with a buffer of limit bytes: a missing or longer value is an error. */
  function GetXattr(attrs: Attrs, name: string, limit: nat): Option<seq<byte>> {
    if name in attrs && |attrs[name]| <= limit then Some(attrs[name]) else None
  }

  /** The chunks from number k on, up to the first that cannot be read. */
  function Gather(attrs: Attrs, k: nat): (d: seq<byte>)
    ensures k <= MAX_CHUNKS ==> |d| <= (MAX_CHUNKS - k) * MAX_XATTR_VALUE_SIZE
    decreases MAX_CHUNKS - k
  {
    if MAX_CHUNKS <= k || GetXattr(attrs, ChunkName(k), MAX_XATTR_VALUE_SIZE) == None then []
    else attrs[ChunkName(k)] + Gather(attrs, k + 1)
  }

  /** The description the daemon unpacks, if there is a first chunk. */
  function Reassembled(attrs: Attrs): Option<seq<byte>> {
    if GetXattr(attrs, ChunkName(0), MAX_XATTR_VALUE_SIZE) == None then None else Some(Gather(attrs, 0))
  }

  /** memcpy: the bytes into the buffer from place at on. */
  method CopyInto(buf: array<byte>, at: nat, part: seq<byte>)
    requires at + |part| <= buf.Length
    modifies buf
    ensures buf[..at + |part|] == old(buf[..at]) + part
  {
    forall i | 0 <= i < |part| {
      buf[at + i] := part[i];
    }
  }

  /** The reassembly loop; it never writes past its buffer, whatever the attributes are. */
  method Reassemble(attrs: Attrs) returns (ok: bool, buf: array<byte>, total: nat)
    ensures buf.Length == TARGET_BUFFER_SIZE && total <= buf.Length
    ensures ok <==> Reassembled(attrs).Some?
    ensures ok ==> buf[..total] == Reassembled(attrs).value
  {
    buf := new byte[TARGET_BUFFER_SIZE](_ => 0);
    var index: nat := 0;
    total := 0;
    while index * MAX_XATTR_VALUE_SIZE < TARGET_BUFFER_SIZE
      invariant fresh(buf) && buf.Length == TARGET_BUFFER_SIZE
      invariant index <= MAX_CHUNKS && total <= index * MAX_XATTR_VALUE_SIZE
      invariant index > 0 ==> Reassembled(attrs).Some?
      invariant buf[..total] + Gather(attrs, index) == Gather(attrs, 0)
      decreases MAX_CHUNKS - index
    {
      var part := GetXattr(attrs, ChunkName(index), MAX_XATTR_VALUE_SIZE);
      if part.None? {
        if index == 0 {
          return false, buf, total;
        }
        break;
      }
      assert buf[..total] + (part.value + Gather(attrs, index + 1)) == buf[..total] + part.value + Gather(attrs, index + 1);
      CopyInto(buf, total, part.value);
      total := total + |part.value|;
      index := index + 1;
    }
    assert Gather(attrs, index) == [] && buf[..total] + [] == buf[..total];
    ok := true;
  }

  /** How many chunks a description takes. */
  function ChunkCount(d: seq<byte>): nat {
    (|d| + MAX_XATTR_VALUE_SIZE - 1) / MAX_XATTR_VALUE_SIZE
  }

  lemma {:induction false} ChunkEntriesAre(d: seq<byte>, k: nat)
    ensures |ChunkEntries(d, k)| == ChunkCount(d)
    ensures forall i :: 0 <= i < |ChunkEntries(d, k)| ==>
              && ChunkEntries(d, k)[i].name == ChunkName(k + i)
              && 0 < |ChunkEntries(d, k)[i].value| <= MAX_XATTR_VALUE_SIZE
  {
    if d != [] {
      var n := Lesser(MAX_XATTR_VALUE_SIZE, |d|);
      ChunkEntriesAre(d[n..], k + 1);
      forall i | 0 <= i < |ChunkEntries(d, k)|
        ensures ChunkEntries(d, k)[i].name == ChunkName(k + i)
        ensures 0 < |ChunkEntries(d, k)[i].value| <= MAX_XATTR_VALUE_SIZE
      {
        if i > 0 {
          assert ChunkEntries(d, k)[i] == ChunkEntries(d[n..], k + 1)[i - 1];
        }
      }
    }
  }

  /** The i-th stretch of a description. */
  function Chunk(d: seq<byte>, i: nat): seq<byte>
    requires i * 65536 <= |d|
  {
    d[i * 65536..Lesser((i + 1) * 65536, |d|)]
  }

  lemma {:induction false} ChunksAreStretches(d: seq<byte>, k: nat, i: nat)
    requires i < |ChunkEntries(d, k)|
    ensures i * 65536 < |d| && ChunkEntries(d, k)[i].value == Chunk(d, i)
    decreases i
  {
    var n := Lesser(65536, |d|);
    if i > 0 {
      ChunksAreStretches(d[n..], k + 1, i - 1);
      assert ChunkEntries(d, k)[i] == ChunkEntries(d[n..], k + 1)[i - 1];
      assert Chunk(d[n..], i - 1) == Chunk(d, i);
    }
  }

  /** The attribute writes of a flush one by one: destination, displacement, the filetype in stretches of 64 KiB, etype. */
  lemma EntriesAre(dest: seq<byte>, saved: Saved)
    requires IsOffset(saved.disp)
    ensures var es, n := Entries(dest, saved), (|saved.filetype| + 65535) / 65536;
            && |es| == n + 3
            && es[0] == Entry("user.bbview.dest_path", dest) && es[1] == Entry("user.bbview.disp", EncodeDisp(saved.disp))
            && (forall i :: 0 <= i < n ==>
                  && i * 65536 <= |saved.filetype|
                  && es[i + 2] == Entry("user.bbview.datatype" + Decimal(i), Chunk(saved.filetype, i)))
            && es[n + 2] == Entry("user.bbview.etype", saved.etype)
  {
    var d := saved.filetype;
    var es, n := Entries(dest, saved), (|d| + 65535) / 65536;
    ChunkEntriesAre(d, 0);
    forall i | 0 <= i < n
      ensures i * 65536 <= |d|
      ensures es[i + 2] == Entry("user.bbview.datatype" + Decimal(i), Chunk(d, i))
    {
      ChunksAreStretches(d, 0, i);
      assert es[i + 2] == ChunkEntries(d, 0)[i];
    }
  }

  /** attrs holds the chunks of d under the numbers from k on. */
  ghost predicate HoldsChunks(attrs: Attrs, d: seq<byte>, k: nat)
    decreases |d|
  {
    d == [] ||
    var n := Lesser(MAX_XATTR_VALUE_SIZE, |d|);
    GetXattr(attrs, ChunkName(k), MAX_XATTR_VALUE_SIZE) == Some(d[..n]) && HoldsChunks(attrs, d[n..], k + 1)
  }

  lemma {:induction false} HoldsEntries(attrs: Attrs, d: seq<byte>, k: nat)
    requires forall i :: 0 <= i < |ChunkEntries(d, k)| ==>
               ChunkEntries(d, k)[i].name in attrs && attrs[ChunkEntries(d, k)[i].name] == ChunkEntries(d, k)[i].value
    ensures HoldsChunks(attrs, d, k)
    decreases |d|
  {
    if d != [] {
      var n := Lesser(MAX_XATTR_VALUE_SIZE, |d|);
      var es, rest := ChunkEntries(d, k), ChunkEntries(d[n..], k + 1);
      assert es[0] == Entry(ChunkName(k), d[..n]);
      forall i | 0 <= i < |rest|
        ensures rest[i].name in attrs && attrs[rest[i].name] == rest[i].value
      {
        assert rest[i] == es[i + 1];
      }
      HoldsEntries(attrs, d[n..], k + 1);
    }
  }

  /** Gathering gives the chunks' description, cut off at the buffer, and what is left under later numbers. */
  lemma {:induction false} GatherChunks(attrs: Attrs, d: seq<byte>, k: nat)
    requires HoldsChunks(attrs, d, k) && k <= MAX_CHUNKS
    ensures k + ChunkCount(d) <= MAX_CHUNKS ==> Gather(attrs, k) == d + Gather(attrs, k + ChunkCount(d))
    ensures MAX_CHUNKS < k + ChunkCount(d) ==> |Gather(attrs, k)| < |d|
    decreases |d|
  {
    if d == [] {
      assert d + Gather(attrs, k) == Gather(attrs, k);
    } else if k < MAX_CHUNKS {
      var n := Lesser(MAX_XATTR_VALUE_SIZE, |d|);
      var rest := d[n..];
      ChunkCountStep(d);
      GatherChunks(attrs, rest, k + 1);
      GatherStep(attrs, d, k);
      JoinChunk(d, n, Gather(attrs, k + ChunkCount(d)));
    }
  }

  lemma JoinChunk(d: seq<byte>, n: nat, later: seq<byte>)
    requires n <= |d|
    ensures d[..n] + (d[n..] + later) == d + later
  {
  }

  lemma GatherStep(attrs: Attrs, d: seq<byte>, k: nat)
    requires HoldsChunks(attrs, d, k) && k < MAX_CHUNKS && d != []
    ensures Gather(attrs, k) == d[..Lesser(MAX_XATTR_VALUE_SIZE, |d|)] + Gather(attrs, k + 1)
  {
  }

  lemma ChunkCountStep(d: seq<byte>)
    requires d != []
    ensures ChunkCount(d) == 1 + ChunkCount(d[Lesser(MAX_XATTR_VALUE_SIZE, |d|)..])
  {
  }

  lemma {:induction false} GatherDepends(a: Attrs, b: Attrs, k: nat)
    requires forall j: nat :: k <= j ==> GetXattr(a, ChunkName(j), MAX_XATTR_VALUE_SIZE) == GetXattr(b, ChunkName(j), MAX_XATTR_VALUE_SIZE)
    ensures Gather(a, k) == Gather(b, k)
    decreases MAX_CHUNKS - k
  {
    if k < MAX_CHUNKS {
      GatherDepends(a, b, k + 1);
      assert GetXattr(a, ChunkName(k), MAX_XATTR_VALUE_SIZE) == GetXattr(b, ChunkName(k), MAX_XATTR_VALUE_SIZE);
    }
  }

  /** After a flush the chunk names from n on hold what they held before it. */
  lemma FlushedChunks(before: Attrs, dest: seq<byte>, saved: Saved)
    requires IsOffset(saved.disp)
    ensures var attrs, n := PutAll(before, Entries(dest, saved)), ChunkCount(saved.filetype);
            && HoldsChunks(attrs, saved.filetype, 0)
            && forall j: nat :: n <= j ==>
                 GetXattr(attrs, ChunkName(j), MAX_XATTR_VALUE_SIZE) == GetXattr(before, ChunkName(j), MAX_XATTR_VALUE_SIZE)
  {
    var es, chunks := Entries(dest, saved), ChunkEntries(saved.filetype, 0);
    var attrs, n := PutAll(before, es), ChunkCount(saved.filetype);
    ChunkEntriesAre(saved.filetype, 0);
    forall i | 0 <= i < |chunks|
      ensures chunks[i].name in attrs && attrs[chunks[i].name] == chunks[i].value
    {
      EntriesDiffer(dest, saved, 2 + i);
      PutAllHolds(before, es, 2 + i);
    }
    HoldsEntries(attrs, saved.filetype, 0);
    forall j: nat | n <= j
      ensures GetXattr(attrs, ChunkName(j), MAX_XATTR_VALUE_SIZE) == GetXattr(before, ChunkName(j), MAX_XATTR_VALUE_SIZE)
    {
      LaterChunksDiffer(dest, saved, j);
      PutAllKeeps(before, es, ChunkName(j));
    }
  }

  lemma FixedNamesDiffer()
    ensures ATTR_DEST_PATH != ATTR_DISP && ATTR_DEST_PATH != ATTR_ETYPE && ATTR_DISP != ATTR_ETYPE
  {
    assert ATTR_DEST_PATH[12] == 'd' && ATTR_DEST_PATH[13] == 'e';
    assert ATTR_DISP[12] == 'd' && ATTR_DISP[13] == 'i' && ATTR_ETYPE[12] == 'e';
  }

  /** No later entry of a flush overwrites entry k. */
  lemma EntriesDiffer(dest: seq<byte>, saved: Saved, k: nat)
    requires IsOffset(saved.disp) && k < |Entries(dest, saved)|
    ensures forall i :: k < i < |Entries(dest, saved)| ==> Entries(dest, saved)[i].name != Entries(dest, saved)[k].name
  {
    var es := Entries(dest, saved);
    FixedNamesDiffer();
    EntryName(dest, saved, k);
    forall i | k < i < |es|
      ensures es[i].name != es[k].name
    {
      EntryName(dest, saved, i);
      TwoNamesDiffer(i - 2, k - 2);
    }
  }

  lemma TwoNamesDiffer(i: int, k: int)
    ensures 0 <= i ==> ChunkName(i) != ATTR_DEST_PATH && ChunkName(i) != ATTR_ETYPE && ChunkName(i) != ATTR_DISP
    ensures 0 <= k ==> ChunkName(k) != ATTR_DEST_PATH && ChunkName(k) != ATTR_ETYPE && ChunkName(k) != ATTR_DISP
    ensures 0 <= k < i ==> ChunkName(i) != ChunkName(k)
  {
    if 0 <= i {
      ChunkNamesClashWithNone(i);
    }
    if 0 <= k {
      ChunkNamesClashWithNone(k);
    }
    if 0 <= k < i {
      ChunkNamesDiffer(i, k);
    }
  }

  lemma EntryName(dest: seq<byte>, saved: Saved, i: nat)
    requires IsOffset(saved.disp) && i < |Entries(dest, saved)|
    ensures |Entries(dest, saved)| == 3 + ChunkCount(saved.filetype)
    ensures Entries(dest, saved)[i].name ==
            if i == 0 then ATTR_DEST_PATH else if i == 1 then ATTR_DISP
            else if i == |Entries(dest, saved)| - 1 then ATTR_ETYPE else ChunkName(i - 2)
  {
    ChunkEntriesAre(saved.filetype, 0);
  }

  lemma LaterChunksDiffer(dest: seq<byte>, saved: Saved, j: nat)
    requires IsOffset(saved.disp) && ChunkCount(saved.filetype) <= j
    ensures forall i :: 0 <= i < |Entries(dest, saved)| ==> Entries(dest, saved)[i].name != ChunkName(j)
  {
    var es := Entries(dest, saved);
    ChunkNamesClashWithNone(j);
    forall i | 0 <= i < |es|
      ensures es[i].name != ChunkName(j)
    {
      EntryName(dest, saved, i);
      if 2 <= i < |es| - 1 {
        ChunkNamesDiffer(i - 2, j);
      }
    }
  }

  /**
   * The daemon reassembles exactly the filetype the flush wrote if and only if
   * it fits the buffer and no bytes are left over under later chunk numbers
   * (and, for an empty description, a first chunk can be read at all).
   */
  lemma ReassemblyIsExact(before: Attrs, dest: seq<byte>, saved: Saved)
    requires IsOffset(saved.disp)
    ensures Reassembled(PutAll(before, Entries(dest, saved))) == Some(saved.filetype) <==>
            && |saved.filetype| <= TARGET_BUFFER_SIZE
            && Gather(before, ChunkCount(saved.filetype)) == []
            && (saved.filetype == [] ==> GetXattr(before, ChunkName(0), MAX_XATTR_VALUE_SIZE).Some?)
  {
    var attrs, d := PutAll(before, Entries(dest, saved)), saved.filetype;
    var n := ChunkCount(d);
    FlushedChunks(before, dest, saved);
    GatherChunks(attrs, d, 0);
    GatherDepends(attrs, before, n);
    if n <= MAX_CHUNKS {
      assert |Gather(attrs, 0)| == |d| + |Gather(before, n)|;
      if Gather(before, n) == [] {
        assert d + [] == d;
      }
    }
  }

  /** A chunk left over from a longer description is read along: 7 was flushed, 7 and 9 come back. */
  lemma LeftoverMisleads()
    ensures Reassembled(PutAll(map[ChunkName(1) := [9]], Entries([], Saved(0, [1], [7])))) == Some([7, 9])
  {
    var before: Attrs, saved := map[ChunkName(1) := [9]], Saved(0, [1], [7]);
    var attrs := PutAll(before, Entries([], saved));
    assert saved.filetype[1..] == [] && saved.filetype[..1] == [7];
    assert ChunkCount(saved.filetype) == 1;
    FlushedChunks(before, [], saved);
    GatherChunks(attrs, saved.filetype, 0);
    GatherDepends(attrs, before, 1);
    ChunkNamesDiffer(1, 2);
    assert Gather(before, 2) == [];
    var later: seq<byte> := [9];
    assert Gather(before, 1) == later + [] == later;
    assert Gather(attrs, 0) == saved.filetype + later;
    assert GetXattr(attrs, ChunkName(0), MAX_XATTR_VALUE_SIZE) == Some(saved.filetype);
    assert saved.filetype + later == [7, 9];
  }

  /** The daemon can read chunk k. */
  predicate Readable(attrs: Attrs, k: nat) {
    var name := "user.bbview.datatype" + Decimal(k);
    name in attrs && |attrs[name]| <= 65536
  }

  /** The first n chunks, put together. */
  function Joined(attrs: Attrs, n: nat): seq<byte>
    requires forall k: nat :: k < n ==> Readable(attrs, k)
  {
    if n == 0 then []
    else
      assert Readable(attrs, n - 1);
      Joined(attrs, n - 1) + attrs["user.bbview.datatype" + Decimal(n - 1)]
  }

  lemma {:induction false} GatherJoins(attrs: Attrs, k: nat, n: nat)
    requires k <= n <= 64 && (forall i: nat :: i < n ==> Readable(attrs, i)) && (n < 64 ==> !Readable(attrs, n))
    ensures Joined(attrs, k) + Gather(attrs, k) == Joined(attrs, n)
    decreases n - k
  {
    if k < n {
      assert Readable(attrs, k);
      GatherJoins(attrs, k + 1, n);
      assert Joined(attrs, k + 1) == Joined(attrs, k) + attrs[ChunkName(k)];
      assert Joined(attrs, k) + (attrs[ChunkName(k)] + Gather(attrs, k + 1))
          == (Joined(attrs, k) + attrs[ChunkName(k)]) + Gather(attrs, k + 1);
    } else {
      assert n < 64 ==> GetXattr(attrs, ChunkName(n), MAX_XATTR_VALUE_SIZE) == None;
      assert Gather(attrs, n) == [] && Joined(attrs, n) + [] == Joined(attrs, n);
    }
  }

  /** The daemon puts together all chunks before the first it cannot read, 64 at most. */
  lemma ReassembledExactly(attrs: Attrs, n: nat)
    requires n <= 64 && (forall k: nat :: k < n ==> Readable(attrs, k)) && (n < 64 ==> !Readable(attrs, n))
    ensures Reassembled(attrs) == if n == 0 then None else Some(Joined(attrs, n))
  {
    GatherJoins(attrs, 0, n);
    assert n > 0 ==> Readable(attrs, 0);
    assert [] + Gather(attrs, 0) == Gather(attrs, 0);
  }

  /** The view of a handed-over file as a worker reads it: destination path and saved view. */
  function ReadBack(attrs: Attrs): Option<(seq<byte>, Saved)> {
    var dest := GetXattr(attrs, ATTR_DEST_PATH, PATH_MAX - 1);
    var etype := GetXattr(attrs, ATTR_ETYPE, MAX_XATTR_VALUE_SIZE);
    var filetype := Reassembled(attrs);
    var disp := GetXattr(attrs, ATTR_DISP, 8);
    if dest.None? || etype.None? || filetype.None? || disp.None? then None
    else Some((dest.value, Saved(DecodeDisp(disp.value), etype.value, filetype.value)))
  }

  /** What a worker needs to find, and what it makes of it. */
  lemma ReadBackExactly(attrs: Attrs)
    ensures ReadBack(attrs).Some? <==>
            && "user.bbview.dest_path" in attrs && |attrs["user.bbview.dest_path"]| < 4096
            && "user.bbview.etype" in attrs && |attrs["user.bbview.etype"]| <= 65536
            && "user.bbview.disp" in attrs && |attrs["user.bbview.disp"]| <= 8
            && Readable(attrs, 0)
    ensures ReadBack(attrs).Some? ==>
            && ReadBack(attrs).value.0 == attrs["user.bbview.dest_path"]
            && ReadBack(attrs).value.1.disp == DecodeDisp(attrs["user.bbview.disp"])
            && ReadBack(attrs).value.1.etype == attrs["user.bbview.etype"]
            && Reassembled(attrs) == Some(ReadBack(attrs).value.1.filetype)
  {
  }

  /** What a flush can hand over, on a file without leftover chunks. */
  ghost predicate Portable(before: Attrs, dest: seq<byte>, saved: Saved) {
    && IsOffset(saved.disp)
    && |dest| < PATH_MAX && |saved.etype| <= MAX_XATTR_VALUE_SIZE
    && 0 < |saved.filetype| <= TARGET_BUFFER_SIZE
    && Gather(before, ChunkCount(saved.filetype)) == []
  }

  /** A worker reads back the destination and the view the handle saved. */
  lemma ViewRoundTrip(before: Attrs, dest: seq<byte>, saved: Saved)
    requires Portable(before, dest, saved)
    ensures ReadBack(PutAll(before, Entries(dest, saved))) == Some((dest, saved))
  {
    var es := Entries(dest, saved);
    ReassemblyIsExact(before, dest, saved);
    EntriesDiffer(dest, saved, 0);
    EntriesDiffer(dest, saved, 1);
    PutAllHolds(before, es, 0);
    PutAllHolds(before, es, 1);
    PutAllHolds(before, es, |es| - 1);
    DispRoundTrip(saved.disp);
  }
}
