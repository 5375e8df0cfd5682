/**
 * The replay loop of the daemon: it reads a staging file a buffer at a time and
 * writes each buffer on through the saved view.
 */
module Replay {
  import opened AddressMap
  import opened Arith
  import Attributes
  import opened Storage
  import opened ViewShape
  import opened Walker

  /** The target size, rounded up to whole etypes. */
  function BufferSize(etypeSize: nat): (n: nat)
    requires etypeSize > 0
    ensures n > 0 && n % etypeSize == 0
  {
    var etypes := (Attributes.TARGET_BUFFER_SIZE + etypeSize - 1) / etypeSize;
    assert Attributes.TARGET_BUFFER_SIZE + etypeSize - 1 == etypes * etypeSize + (Attributes.TARGET_BUFFER_SIZE + etypeSize - 1) % etypeSize;
    MultipleOf(etypes, etypeSize);
    etypes * etypeSize
  }

  /** The least number of whole etypes that hold 4 MiB. */
  lemma BufferSizeBounds(etypeSize: nat)
    requires etypeSize > 0
    ensures 4194304 <= BufferSize(etypeSize) < 4194304 + etypeSize
  {
    var n := Attributes.TARGET_BUFFER_SIZE + etypeSize - 1;
    assert n == (n / etypeSize) * etypeSize + n % etypeSize;
  }

  /** The part of n bytes that is whole etypes. */
  function Whole(n: nat, etypeSize: nat): (w: nat)
    requires etypeSize > 0
    ensures w <= n < w + etypeSize && w % etypeSize == 0
  {
    MultipleOf(n / etypeSize, etypeSize);
    assert n == (n / etypeSize) * etypeSize + n % etypeSize;
    n - n % etypeSize
  }

  /** How many bytes one turn of the loop writes when the file has left bytes to read. */
  function ChunkSize(left: nat, etypeSize: nat): (n: nat)
    requires etypeSize > 0
    ensures n <= left && n % etypeSize == 0
    ensures n == 0 <==> left < etypeSize
  {
    BufferHoldsOne(etypeSize);
    var size := BufferSize(etypeSize);
    Whole(if left < size then left else size, etypeSize)
  }

  /** A turn writes 4 MiB, rounded up to whole etypes, or all whole etypes that are left. */
  lemma ChunkFillsBuffer(left: nat, etypeSize: nat)
    requires etypeSize > 0
    ensures var n := ChunkSize(left, etypeSize);
            n <= left && n < 4194304 + etypeSize && (left < n + etypeSize || 4194304 <= n)
  {
    BufferSizeBounds(etypeSize);
    BufferHoldsOne(etypeSize);
  }

  lemma BufferHoldsOne(etypeSize: nat)
    requires etypeSize > 0
    ensures etypeSize <= BufferSize(etypeSize) == Whole(BufferSize(etypeSize), etypeSize)
  {
    MultipleGap(0, BufferSize(etypeSize), etypeSize);
    WholeIsUnique(BufferSize(etypeSize), BufferSize(etypeSize), etypeSize);
  }

  /** The bytes of a staging file that reach the destination: its whole etypes. */
  function Replayed(src: seq<byte>, etypeSize: nat): (r: seq<byte>)
    requires etypeSize > 0
    ensures r <= src && |r| % etypeSize == 0 && |src| < |r| + etypeSize
  {
    src[..Whole(|src|, etypeSize)]
  }

  lemma WholeIsUnique(n: nat, w: nat, etypeSize: nat)
    requires etypeSize > 0 && w <= n < w + etypeSize && w % etypeSize == 0
    ensures w == Whole(n, etypeSize)
  {
    if w < Whole(n, etypeSize) {
      MultipleGap(w, Whole(n, etypeSize), etypeSize);
    } else if Whole(n, etypeSize) < w {
      MultipleGap(Whole(n, etypeSize), w, etypeSize);
    }
  }

  lemma NextRange(f: File, iov: seq<IoVec>, k: nat, data: seq<byte>, done: nat)
    requires k < |iov| && Size(iov) == |data| && done == Size(iov[..k])
    ensures done + iov[k].len == Size(iov[..k + 1]) <= |data|
    ensures done <= |data| && WriteAt(f, Expand(iov[..k + 1]), data[..done + iov[k].len])
         == WriteAt(WriteAt(f, Expand(iov[..k]), data[..done]), Range(iov[k]), data[done..done + iov[k].len])
  {
    SizeStep(iov, k);
    SizeMonotone(iov, k + 1, |iov|);
    assert iov[..k + 1] == iov[..k] + [iov[k]];
    ExpandSnoc(iov[..k], iov[k]);
    var part := data[done..done + iov[k].len];
    WriteAtSplit(f, Expand(iov[..k]), Range(iov[k]), data[..done], part);
    assert data[..done + iov[k].len] == data[..done] + part;
  }

  /** Consecutive bytes of the data to the ranges, one range after the other. */
  method WriteRanges(f: File, iov: array<IoVec>, count: nat, data: seq<byte>) returns (g: File)
    requires count <= iov.Length && Size(iov[..count]) == |data|
    ensures g == WriteAt(f, Expand(iov[..count]), data)
  {
    g := f;
    var done := 0;
    ghost var ranges := iov[..count];
    for k := 0 to count
      invariant done == Size(ranges[..k]) <= |data|
      invariant g == WriteAt(f, Expand(ranges[..k]), data[..done])
    {
      NextRange(f, ranges, k, data, done);
      g := WriteAt(g, Range(iov[k]), data[done..done + iov[k].len]);
      done := done + iov[k].len;
    }
    assert ranges[..count] == ranges && data[..done] == data;
  }

  /** A write at the handle's own place in the view: the walker's ranges, filled in order. */
  method WriteOn(fv: FileView, f: File, data: seq<byte>, initial: nat) returns (g: File)
    requires fv.Valid() && initial > 0
    modifies fv
    ensures fv.Valid() && fv.Pos() == old(fv.Pos()) + |data|
    ensures g == WriteView(f, fv.view, old(fv.Pos()), data)
  {
    var iov, count := fv.Generate(|data|, initial);
    g := WriteRanges(f, iov, count, data);
  }

  /** One buffer, written where the last one ended. */
  lemma NextChunk(dst: File, v: View, src: seq<byte>, pos: nat, n: nat)
    requires ViewSize(v) > 0 && pos + n <= |src|
    ensures WriteView(WriteView(dst, v, 0, src[..pos]), v, pos, src[pos..pos + n]) == WriteView(dst, v, 0, src[..pos + n])
  {
    assert src[..pos + n] == src[..pos] + src[pos..pos + n];
    WriteViewSplit(dst, v, 0, src[..pos], src[pos..pos + n]);
  }

  /** The whole etypes of a buffer, if there are any, written where the last one ended. */
  method WriteNext(fv: FileView, f: File, src: seq<byte>, pos: nat, n: nat, initial: nat, ghost dst: File) returns (g: File)
    requires fv.Valid() && fv.Pos() == pos && pos + n <= |src| && initial > 0
    requires f == WriteView(dst, fv.view, 0, src[..pos])
    modifies fv
    ensures fv.Valid() && fv.Pos() == pos + n && g == WriteView(dst, fv.view, 0, src[..pos + n])
  {
    g := f;
    if n > 0 {
      NextChunk(dst, fv.view, src, pos, n);
      g := WriteOn(fv, f, src[pos..pos + n], initial);
    }
  }

  /** src is what the writes left in a staging file: whole etypes, and no holes. */
  ghost predicate HoldsWrites(src: seq<byte>, etypeSize: nat, ws: seq<Write>)
    requires etypeSize > 0
  {
    && WholeWrites(etypeSize, ws)
    && (forall a :: a in Staged(etypeSize, ws) ==> a >= 0)
    && HoleFree(Staged(etypeSize, ws)) && src == ReadAll(Staged(etypeSize, ws))
  }

  /** Each byte of a whole etype is in its place, and writes that were staged are made. */
  ghost predicate Arrived(src: seq<byte>, v: View, etypeSize: nat, dst: File, out: File)
    requires etypeSize > 0 && ViewSize(v) > 0
  {
    && (forall s: nat :: s < |src| - |src| % etypeSize ==> Read(out, Addr(v, s)) == src[s])
    && (forall ws :: HoldsWrites(src, etypeSize, ws) ==> out == Apply(dst, v, etypeSize, ws))
  }

  /** Of size bytes pos are read and written are written: all of them so far, whole etypes, or the file is at its end. */
  predicate ReadSoFar(size: nat, pos: nat, written: nat, etypeSize: nat)
    requires etypeSize > 0
  {
    pos <= size && if pos < size then written == pos && pos % etypeSize == 0 else written == Whole(size, etypeSize)
  }

  lemma AfterTurn(size: nat, pos: nat, rsize: nat, etypeSize: nat)
    requires etypeSize > 0 && ReadSoFar(size, pos, pos, etypeSize) && pos < size && pos + rsize <= size
    requires pos + rsize == size || rsize % etypeSize == 0
    ensures ReadSoFar(size, pos + rsize, pos + Whole(rsize, etypeSize), etypeSize)
  {
    MultipleSum(pos, Whole(rsize, etypeSize), etypeSize);
    if pos + rsize == size {
      WholeIsUnique(size, pos + Whole(rsize, etypeSize), etypeSize);
    } else {
      WholeIsUnique(rsize, rsize, etypeSize);
    }
  }

  lemma StartOfFile(size: nat, etypeSize: nat)
    requires etypeSize > 0
    ensures ReadSoFar(size, 0, 0, etypeSize)
  {
  }

  /** How much one read brings. */
  function ReadSize(left: nat, bufSize: nat): nat {
    if left < bufSize then left else bufSize
  }

  /** What is replayed is all but the bytes after the last whole etype. */
  lemma ReplayedLength(src: seq<byte>, etypeSize: nat)
    requires etypeSize > 0
    ensures |Replayed(src, etypeSize)| == |src| - |src| % etypeSize
  {
    var q := |src| / etypeSize;
    assert |src| == q * etypeSize + |src| % etypeSize;
    MultipleOf(q, etypeSize);
    WholeIsUnique(|src|, q * etypeSize, etypeSize);
  }

  lemma ReplayedBytes(src: seq<byte>, v: View, dst: File, data: seq<byte>)
    requires ViewSize(v) > 0 && Injective(v) && data <= src
    ensures forall s: nat :: s < |data| ==> Read(WriteView(dst, v, 0, data), Addr(v, s)) == src[s]
  {
    ReplayMaps(dst, v, data);
    forall s: nat | s < |data|
      ensures Read(WriteView(dst, v, 0, data), Addr(v, s)) == src[s]
    {
      MappedRead(dst, v, DataStream(data), WriteView(dst, v, 0, data), s);
    }
  }

  lemma ReplayedWrites(src: seq<byte>, v: View, etypeSize: nat, dst: File, ws: seq<Write>)
    requires etypeSize > 0 && ViewSize(v) > 0 && Injective(v) && HoldsWrites(src, etypeSize, ws)
    ensures WriteView(dst, v, 0, Replayed(src, etypeSize)) == Apply(dst, v, etypeSize, ws)
  {
    StagedIsWhole(etypeSize, ws);
    ReplayedLength(src, etypeSize);
    assert Replayed(src, etypeSize) == src;
    WriteBehind(dst, v, etypeSize, ws);
  }

  /** Writing what is replayed puts each byte in its place, and makes the writes that were staged. */
  lemma ReplayedArrives(src: seq<byte>, v: View, etypeSize: nat, dst: File)
    requires etypeSize > 0 && ViewSize(v) > 0 && Injective(v)
    ensures Arrived(src, v, etypeSize, dst, WriteView(dst, v, 0, Replayed(src, etypeSize)))
  {
    ReplayedLength(src, etypeSize);
    ReplayedBytes(src, v, dst, Replayed(src, etypeSize));
    forall ws | HoldsWrites(src, etypeSize, ws)
      ensures WriteView(dst, v, 0, Replayed(src, etypeSize)) == Apply(dst, v, etypeSize, ws)
    {
      ReplayedWrites(src, v, etypeSize, dst, ws);
    }
  }

  /**
   * Opens the destination with the saved view and replays the staging file
   * into it. A trailing part of an etype is dropped.
   */
  method Execute(src: seq<byte>, v: View, etypeSize: nat, dst: File, initial: nat) returns (out: File)
    requires etypeSize > 0 && ViewSize(v) > 0 && initial > 0
    ensures out == WriteView(dst, v, 0, Replayed(src, etypeSize))
    ensures Injective(v) ==> Arrived(src, v, etypeSize, dst, out)
  {
    if Injective(v) {
      ReplayedArrives(src, v, etypeSize, dst);
    }
    var bufSize := BufferSize(etypeSize);
    var fv := new FileView(v);
    out := dst;
    var pos: nat, written: nat := 0, 0;
    var rsize := ReadSize(|src|, bufSize);
    StartOfFile(|src|, etypeSize);
    while rsize > 0
      invariant ReadSoFar(|src|, pos, written, etypeSize) && written <= |src| && rsize == ReadSize(|src| - pos, bufSize)
      invariant fv.Valid() && fv.view == v && fv.Pos() == written
      invariant out == WriteView(dst, v, 0, src[..written])
      decreases |src| - pos
    {
      var whole := Whole(rsize, etypeSize);
      out := WriteNext(fv, out, src, pos, whole, initial, dst);
      AfterTurn(|src|, pos, rsize, etypeSize);
      pos, written := pos + rsize, written + whole;
      rsize := ReadSize(|src| - pos, bufSize);
    }
  }
}
