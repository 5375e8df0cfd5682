/**
 * Files as the bytes written to them, writes through a view, and what staging
 * writes and replaying them later comes to.
 */
module Storage {
  import opened AddressMap
  import opened Arith
  import opened ViewShape

  newtype byte = x: int | 0 <= x < 256

  /** The bytes that were ever written, by offset; the others read as zero up to the length. */
  type File = map<int, byte>

  function Read(f: File, a: int): byte {
    if a in f then f[a] else 0
  }

  /** Writes the data byte by byte, in order. */
  function WriteAt<K>(f: map<K, byte>, addrs: seq<K>, data: seq<byte>): map<K, byte>
    requires |addrs| == |data|
  {
    if data == [] then f
    else WriteAt(f, addrs[..|data| - 1], data[..|data| - 1])[addrs[|data| - 1] := data[|data| - 1]]
  }

  /** A write of the data at stream byte s of a view. */
  function WriteView(f: File, v: View, s: nat, data: seq<byte>): File
    requires ViewSize(v) > 0
  {
    WriteAt(f, Addresses(v, s, |data|), data)
  }

  lemma {:induction false} WriteAtSplit<K>(f: map<K, byte>, a1: seq<K>, a2: seq<K>, d1: seq<byte>, d2: seq<byte>)
    requires |a1| == |d1| && |a2| == |d2|
    ensures WriteAt(f, a1 + a2, d1 + d2) == WriteAt(WriteAt(f, a1, d1), a2, d2)
    decreases |d2|
  {
    if d2 == [] {
      assert a1 + a2 == a1 && d1 + d2 == d1;
    } else {
      var n := |d2| - 1;
      WriteAtSplit(f, a1, a2[..n], d1, d2[..n]);
      assert (a1 + a2)[..|d1| + n] == a1 + a2[..n];
      assert (d1 + d2)[..|d1| + n] == d1 + d2[..n];
    }
  }

  /** Writing on through the view is one longer write. */
  lemma WriteViewSplit(f: File, v: View, s: nat, d1: seq<byte>, d2: seq<byte>)
    requires ViewSize(v) > 0
    ensures WriteView(f, v, s, d1 + d2) == WriteView(WriteView(f, v, s, d1), v, s + |d1|, d2)
  {
    AddressesSplit(v, s, |d1|, |d2|);
    WriteAtSplit(f, Addresses(v, s, |d1|), Addresses(v, s + |d1|, |d2|), d1, d2);
  }

  // ----- the image of a set of stream bytes -----

  ghost function Image(v: View, stream: set<nat>): set<int>
    requires ViewSize(v) > 0
  {
    set s | s in stream :: Addr(v, s)
  }

  /** g is f with each stream byte of m put where the view says, and nothing else changed. */
  ghost predicate Mapped(f: File, v: View, m: map<nat, byte>, g: File)
    requires ViewSize(v) > 0
  {
    && g.Keys == f.Keys + Image(v, m.Keys)
    && (forall s :: s in m ==> Addr(v, s) in g && g[Addr(v, s)] == m[s])
    && (forall a :: a in f && a !in Image(v, m.Keys) ==> g[a] == f[a])
  }

  lemma MappedIsUnique(f: File, v: View, m: map<nat, byte>, g: File, h: File)
    requires ViewSize(v) > 0 && Mapped(f, v, m, g) && Mapped(f, v, m, h)
    ensures g == h
  {
    forall a | a in g
      ensures g[a] == h[a]
    {
      if a in Image(v, m.Keys) {
        var s :| s in m && Addr(v, s) == a;
      }
    }
  }

  lemma ImageGrows(v: View, stream: set<nat>, s: nat)
    requires ViewSize(v) > 0
    ensures Image(v, stream + {s}) == Image(v, stream) + {Addr(v, s)}
  {
  }

  lemma MappedByte(f: File, v: View, m: map<nat, byte>, g: File, s: nat, b: byte)
    requires ViewSize(v) > 0 && Injective(v) && Mapped(f, v, m, g)
    ensures Mapped(f, v, m[s := b], g[Addr(v, s) := b])
  {
    var m', g' := m[s := b], g[Addr(v, s) := b];
    assert m'.Keys == m.Keys + {s};
    ImageGrows(v, m.Keys, s);
    forall t | t in m'
      ensures Addr(v, t) in g' && g'[Addr(v, t)] == m'[t]
    {
      if t != s {
        AddrDiffers(v, s, t);
      }
    }
  }

  lemma AddrDiffers(v: View, s: nat, t: nat)
    requires ViewSize(v) > 0 && Injective(v) && s != t
    ensures Addr(v, s) != Addr(v, t)
  {
    if s < t {
    } else {
      assert Addr(v, t) != Addr(v, s);
    }
  }

  function Stream(s: nat, n: nat): (r: seq<nat>)
    ensures |r| == n && forall i :: 0 <= i < n ==> r[i] == s + i
  {
    seq(n, i requires 0 <= i => s + i)
  }

  /** A write as an update of stream bytes. */
  function WriteStream(m: map<nat, byte>, s: nat, data: seq<byte>): map<nat, byte> {
    WriteAt<nat>(m, Stream(s, |data|), data)
  }

  lemma WriteViewLast(f: File, v: View, s: nat, data: seq<byte>, n: nat)
    requires ViewSize(v) > 0 && |data| == n + 1
    ensures WriteView(f, v, s, data) == WriteView(f, v, s, data[..n])[Addr(v, s + n) := data[n]]
  {
    assert Addresses(v, s, |data|)[..n] == Addresses(v, s, n);
  }

  lemma WriteStreamLast(m: map<nat, byte>, s: nat, data: seq<byte>, n: nat)
    requires |data| == n + 1
    ensures WriteStream(m, s, data) == WriteStream(m, s, data[..n])[s + n := data[n]]
  {
    assert Stream(s, |data|)[..n] == Stream(s, n);
  }

  lemma MappedNext(f: File, v: View, m: map<nat, byte>, g: File, s: nat, b: byte, m': map<nat, byte>, g': File)
    requires ViewSize(v) > 0 && Injective(v) && Mapped(f, v, m, g)
    requires m' == m[s := b] && g' == g[Addr(v, s) := b]
    ensures Mapped(f, v, m', g')
  {
    MappedByte(f, v, m, g, s, b);
  }

  /** One byte more. */
  lemma MappedLast(f: File, v: View, m: map<nat, byte>, g: File, s: nat, data: seq<byte>, n: nat)
    requires ViewSize(v) > 0 && Injective(v) && |data| == n + 1
    requires Mapped(f, v, WriteStream(m, s, data[..n]), WriteView(g, v, s, data[..n]))
    ensures Mapped(f, v, WriteStream(m, s, data), WriteView(g, v, s, data))
  {
    WriteViewLast(g, v, s, data, n);
    WriteStreamLast(m, s, data, n);
    MappedNext(f, v, WriteStream(m, s, data[..n]), WriteView(g, v, s, data[..n]), s + n, data[n],
               WriteStream(m, s, data), WriteView(g, v, s, data));
  }

  lemma NothingWritten(m: map<nat, byte>, g: File, v: View, s: nat)
    requires ViewSize(v) > 0
    ensures WriteStream(m, s, []) == m && WriteView(g, v, s, []) == g
  {
  }

  lemma {:induction false} MappedWrite(f: File, v: View, m: map<nat, byte>, g: File, s: nat, data: seq<byte>)
    requires ViewSize(v) > 0 && Injective(v) && Mapped(f, v, m, g)
    ensures Mapped(f, v, WriteStream(m, s, data), WriteView(g, v, s, data))
    decreases |data|
  {
    if data == [] {
      NothingWritten(m, g, v, s);
    } else {
      MappedWrite(f, v, m, g, s, data[..|data| - 1]);
      MappedLast(f, v, m, g, s, data, |data| - 1);
    }
  }

  // ----- write-behind and write-through -----

  /** A write the application makes: its data, at an offset in etypes. */
  datatype Write = Write(offset: nat, data: seq<byte>)

  /** The writes of one view, applied in order through a view of the file. */
  function Apply(f: File, v: View, etypeSize: nat, ws: seq<Write>): File
    requires ViewSize(v) > 0
  {
    if ws == [] then f
    else
      var w := ws[|ws| - 1];
      WriteView(Apply(f, v, etypeSize, ws[..|ws| - 1]), v, w.offset * etypeSize, w.data)
  }

  /** The staging file the writes leave: the same writes through the staging view. */
  function Staged(etypeSize: nat, ws: seq<Write>): File
    requires etypeSize > 0
  {
    StagingViewIsLinear(etypeSize, 0);
    Apply(map[], StagingView(etypeSize), etypeSize, ws)
  }

  ghost predicate WholeWrites(etypeSize: nat, ws: seq<Write>)
    requires etypeSize > 0
  {
    forall k :: 0 <= k < |ws| ==> |ws[k].data| % etypeSize == 0
  }

  ghost function EndOf(offsets: set<int>): (n: nat)
    requires forall a :: a in offsets ==> a >= 0
    ensures forall a :: a in offsets ==> a < n
    ensures n > 0 ==> n - 1 in offsets
  {
    if a: int :| a in offsets then
      var rest := EndOf(offsets - {a});
      assert forall b :: b in offsets ==> b == a || b in offsets - {a};
      if a < rest then rest else a + 1
    else 0
  }

  /** The length of a file: one more than its last byte's offset. */
  ghost function Length(f: File): (n: nat)
    requires forall a :: a in f ==> a >= 0
    ensures forall a :: a in f ==> a < n
    ensures n > 0 ==> n - 1 in f
  {
    EndOf(f.Keys)
  }

  /** What reading a file from its start to its end gives. */
  ghost function ReadAll(f: File): (data: seq<byte>)
    requires forall a :: a in f ==> a >= 0
    ensures |data| == Length(f)
    ensures forall i :: 0 <= i < |data| ==> data[i] == Read(f, i)
  {
    seq(Length(f), i => Read(f, i))
  }

  /** The stream bytes the writes leave behind. */
  function StreamOf(etypeSize: nat, ws: seq<Write>): map<nat, byte> {
    if ws == [] then map[]
    else
      var w := ws[|ws| - 1];
      WriteStream(StreamOf(etypeSize, ws[..|ws| - 1]), w.offset * etypeSize, w.data)
  }

  /** Writing through a view is mapping the stream bytes the writes leave. */
  lemma {:induction false} ApplyMaps(f: File, v: View, etypeSize: nat, ws: seq<Write>)
    requires ViewSize(v) > 0 && Injective(v)
    ensures Mapped(f, v, StreamOf(etypeSize, ws), Apply(f, v, etypeSize, ws))
  {
    if ws != [] {
      var w := ws[|ws| - 1];
      ApplyMaps(f, v, etypeSize, ws[..|ws| - 1]);
      MappedWrite(f, v, StreamOf(etypeSize, ws[..|ws| - 1]), Apply(f, v, etypeSize, ws[..|ws| - 1]), w.offset * etypeSize, w.data);
    }
  }

  lemma StagingViewIsInjective(etypeSize: nat)
    requires etypeSize > 0
    ensures ViewSize(StagingView(etypeSize)) == etypeSize && Injective(StagingView(etypeSize))
  {
    StagingViewIsLinear(etypeSize, 0);
    forall s: nat, t: nat | s < t
      ensures Addr(StagingView(etypeSize), s) != Addr(StagingView(etypeSize), t)
    {
      StagingViewIsLinear(etypeSize, s);
      StagingViewIsLinear(etypeSize, t);
    }
  }

  /** The staging file holds each stream byte at its own place. */
  lemma StagedIsStream(etypeSize: nat, ws: seq<Write>)
    requires etypeSize > 0
    ensures forall a :: a in Staged(etypeSize, ws) ==> a >= 0 && a in StreamOf(etypeSize, ws)
    ensures forall s :: s in StreamOf(etypeSize, ws) ==>
              s in Staged(etypeSize, ws) && Staged(etypeSize, ws)[s] == StreamOf(etypeSize, ws)[s]
  {
    var v, m := StagingView(etypeSize), StreamOf(etypeSize, ws);
    StagingViewIsInjective(etypeSize);
    ApplyMaps(map[], v, etypeSize, ws);
    forall s: nat
      ensures Addr(v, s) == s
    {
      StagingViewIsLinear(etypeSize, s);
    }
    forall a | a in Staged(etypeSize, ws)
      ensures a >= 0 && a in m
    {
      assert a in Image(v, m.Keys);
    }
  }

  /** The bytes of a sequence as stream bytes from 0 on. */
  function DataStream(data: seq<byte>): (m: map<nat, byte>)
    ensures forall s: nat :: s in m <==> s < |data|
    ensures forall s: nat :: s < |data| ==> m[s] == data[s]
  {
    map s: nat | 0 <= s < |data| :: data[s]
  }

  lemma {:induction false} WritingDataStream(data: seq<byte>)
    ensures WriteStream(map[], 0, data) == DataStream(data)
  {
    if data == [] {
      assert DataStream(data) == map[];
    } else {
      var n := |data| - 1;
      WritingDataStream(data[..n]);
      WriteStreamLast(map[], 0, data, n);
      assert DataStream(data) == DataStream(data[..n])[n := data[n]];
    }
  }

  lemma ReplayMaps(f: File, v: View, data: seq<byte>)
    requires ViewSize(v) > 0 && Injective(v)
    ensures Mapped(f, v, DataStream(data), WriteView(f, v, 0, data))
  {
    MappedWrite(f, v, map[], f, 0, data);
    WritingDataStream(data);
  }

  /** Every byte of the staging file below its length was written. */
  ghost predicate HoleFree(st: File)
    requires forall a :: a in st ==> a >= 0
  {
    forall s: nat :: s < Length(st) ==> s in st
  }

  /**
   * Write-behind is write-through: replaying what was staged leaves the file
   * the writes would have left, made in order through the view.
   */
  lemma WriteBehind(f: File, v: View, etypeSize: nat, ws: seq<Write>)
    requires ViewSize(v) > 0 && Injective(v) && etypeSize > 0
    ensures forall a :: a in Staged(etypeSize, ws) ==> a >= 0
    ensures HoleFree(Staged(etypeSize, ws)) ==>
              WriteView(f, v, 0, ReadAll(Staged(etypeSize, ws))) == Apply(f, v, etypeSize, ws)
  {
    var st := Staged(etypeSize, ws);
    StagedIsStream(etypeSize, ws);
    if HoleFree(st) {
      var data := ReadAll(st);
      assert DataStream(data) == StreamOf(etypeSize, ws);
      ReplayMaps(f, v, data);
      ApplyMaps(f, v, etypeSize, ws);
      MappedIsUnique(f, v, StreamOf(etypeSize, ws), WriteView(f, v, 0, data), Apply(f, v, etypeSize, ws));
    }
  }

  /** Nothing outside the view's image changes. */
  lemma OutsideUnchanged(f: File, v: View, etypeSize: nat, ws: seq<Write>, a: int)
    requires ViewSize(v) > 0 && Injective(v)
    requires forall s: nat :: Addr(v, s) != a
    ensures var g := Apply(f, v, etypeSize, ws); (a in g <==> a in f) && Read(g, a) == Read(f, a)
  {
    ApplyMaps(f, v, etypeSize, ws);
  }

  ghost predicate SameBytes(g: File, h: File) {
    forall a: int :: Read(g, a) == Read(h, a)
  }

  /** What stream byte s reads as in a file that m was mapped into. */
  ghost function Behind(f: File, v: View, m: map<nat, byte>, s: nat): byte
    requires ViewSize(v) > 0
  {
    if s in m then m[s] else Read(f, Addr(v, s))
  }

  /** Stream byte s reads the same behind both. */
  ghost predicate Agree(f: File, v: View, m: map<nat, byte>, n: map<nat, byte>, s: nat)
    requires ViewSize(v) > 0
  {
    Behind(f, v, m, s) == Behind(f, v, n, s)
  }

  lemma MappedRead(f: File, v: View, m: map<nat, byte>, g: File, s: nat)
    requires ViewSize(v) > 0 && Injective(v) && Mapped(f, v, m, g)
    ensures Read(g, Addr(v, s)) == Behind(f, v, m, s)
  {
    if s !in m && Addr(v, s) in Image(v, m.Keys) {
      var t :| t in m && Addr(v, t) == Addr(v, s);
      AddrDiffers(v, s, t);
    }
  }

  lemma MappedOutside(f: File, v: View, m: map<nat, byte>, g: File, a: int)
    requires ViewSize(v) > 0 && Mapped(f, v, m, g)
    requires a !in Image(v, m.Keys)
    ensures Read(g, a) == Read(f, a)
  {
  }

  /** Two files mapped from one agree exactly when every stream byte of either reads the same. */
  lemma MappedAgree(f: File, v: View, m: map<nat, byte>, g: File, n: map<nat, byte>, h: File)
    requires ViewSize(v) > 0 && Injective(v) && Mapped(f, v, m, g) && Mapped(f, v, n, h)
    ensures SameBytes(g, h) <==> forall s: nat :: s in m || s in n ==> Agree(f, v, m, n, s)
  {
    forall s: nat | s in m || s in n
      ensures Read(g, Addr(v, s)) == Behind(f, v, m, s) && Read(h, Addr(v, s)) == Behind(f, v, n, s)
    {
      MappedRead(f, v, m, g, s);
      MappedRead(f, v, n, h, s);
    }
    forall a: int | a !in Image(v, m.Keys) && a !in Image(v, n.Keys)
      ensures Read(g, a) == Read(h, a)
    {
      MappedOutside(f, v, m, g, a);
      MappedOutside(f, v, n, h, a);
    }
  }

  /** Where the staging file has a hole, the file reads zero at the place the view gives it. */
  ghost predicate HolesReadZero(f: File, v: View, st: File)
    requires ViewSize(v) > 0 && forall a :: a in st ==> a >= 0
  {
    forall s: nat :: s < Length(st) && s !in st ==> Read(f, Addr(v, s)) == 0
  }

  lemma BehindHole(f: File, v: View, st: File, m: map<nat, byte>, s: nat)
    requires ViewSize(v) > 0 && forall a :: a in st ==> a >= 0
    requires forall t: nat :: t in m <==> t in st
    requires forall t: nat :: t in m ==> m[t] == st[t]
    ensures s in m ==> s < Length(st)
    ensures s < Length(st) ==>
              (Behind(f, v, DataStream(ReadAll(st)), s) == Behind(f, v, m, s) <==> s in st || Read(f, Addr(v, s)) == 0)
  {
  }

  lemma HolesDecide(f: File, v: View, st: File, m: map<nat, byte>)
    requires ViewSize(v) > 0 && forall a :: a in st ==> a >= 0
    requires forall t: nat :: t in m <==> t in st
    requires forall t: nat :: t in m ==> m[t] == st[t]
    ensures var d := DataStream(ReadAll(st));
            (forall s: nat :: s in d || s in m ==> Agree(f, v, d, m, s)) <==> HolesReadZero(f, v, st)
  {
    var d := DataStream(ReadAll(st));
    forall s: nat
      ensures s in d || s in m <==> s < Length(st)
      ensures s < Length(st) ==> (Agree(f, v, d, m, s) <==> s in st || Read(f, Addr(v, s)) == 0)
    {
      BehindHole(f, v, st, m, s);
    }
  }

  /**
   * With holes: replay writes the zeros that reading a hole gives, so it
   * agrees with writing through exactly when the file reads zero there already.
   */
  lemma WriteBehindExactly(f: File, v: View, etypeSize: nat, ws: seq<Write>)
    requires ViewSize(v) > 0 && Injective(v) && etypeSize > 0
    ensures forall a :: a in Staged(etypeSize, ws) ==> a >= 0
    ensures SameBytes(WriteView(f, v, 0, ReadAll(Staged(etypeSize, ws))), Apply(f, v, etypeSize, ws)) <==>
            HolesReadZero(f, v, Staged(etypeSize, ws))
  {
    var st := Staged(etypeSize, ws);
    StagedIsStream(etypeSize, ws);
    ReplayMaps(f, v, ReadAll(st));
    ApplyMaps(f, v, etypeSize, ws);
    MappedAgree(f, v, DataStream(ReadAll(st)), WriteView(f, v, 0, ReadAll(st)), StreamOf(etypeSize, ws), Apply(f, v, etypeSize, ws));
    HolesDecide(f, v, st, StreamOf(etypeSize, ws));
  }

  /** Two bytes written with a hole between them: the replay puts a zero where the file held 9. */
  lemma HoleMisleads()
    ensures var v, ws := StagingView(1), [Write(0, [5]), Write(2, [7])];
            && ViewSize(v) == 1 && Read(Apply(map[1 := 9], v, 1, ws), 1) == 9
            && (forall a :: a in Staged(1, ws) ==> a >= 0)
            && Read(WriteView(map[1 := 9], v, 0, ReadAll(Staged(1, ws))), 1) == 0
  {
    var v, ws := StagingView(1), [Write(0, [5]), Write(2, [7])];
    var f: File := map[1 := 9];
    StagingViewIsInjective(1);
    StagedIsStream(1, ws);
    HoleStream();
    var st := Staged(1, ws);
    assert 2 in st && 1 !in st;
    ReplayMaps(f, v, ReadAll(st));
    ApplyMaps(f, v, 1, ws);
    StagingViewIsLinear(1, 1);
    MappedRead(f, v, DataStream(ReadAll(st)), WriteView(f, v, 0, ReadAll(st)), 1);
    MappedRead(f, v, StreamOf(1, ws), Apply(f, v, 1, ws), 1);
  }

  lemma HoleStream()
    ensures var m := StreamOf(1, [Write(0, [5]), Write(2, [7])]); 0 in m && 1 !in m && 2 in m
  {
    var ws := [Write(0, [5]), Write(2, [7])];
    assert ws[..1] == [Write(0, [5])] && ws[..1][..0] == [];
    WriteAtKeys(map[], 0, [5]);
    WriteAtKeys(StreamOf(1, ws[..1]), 2, [7]);
  }

  // ----- staged lengths -----

  /** Where the furthest staged write ends. */
  function StreamEnd(etypeSize: nat, ws: seq<Write>): nat {
    if ws == [] then 0
    else
      var w, rest := ws[|ws| - 1], StreamEnd(etypeSize, ws[..|ws| - 1]);
      if w.data != [] && rest < w.offset * etypeSize + |w.data| then w.offset * etypeSize + |w.data| else rest
  }

  lemma {:induction false} WriteAtKeys(m: map<nat, byte>, s: nat, data: seq<byte>)
    ensures forall t: nat :: t in WriteStream(m, s, data) <==> t in m || s <= t < s + |data|
  {
    if data != [] {
      var n := |data| - 1;
      WriteAtKeys(m, s, data[..n]);
      WriteStreamLast(m, s, data, n);
    }
  }

  lemma {:induction false} StreamEndBounds(etypeSize: nat, ws: seq<Write>)
    ensures forall s: nat :: s in StreamOf(etypeSize, ws) ==> s < StreamEnd(etypeSize, ws)
    ensures StreamEnd(etypeSize, ws) > 0 ==> StreamEnd(etypeSize, ws) - 1 in StreamOf(etypeSize, ws)
  {
    if ws != [] {
      var w, front := ws[|ws| - 1], ws[..|ws| - 1];
      StreamEndBounds(etypeSize, front);
      WriteAtKeys(StreamOf(etypeSize, front), w.offset * etypeSize, w.data);
    }
  }

  lemma {:induction false} StreamEndWhole(etypeSize: nat, ws: seq<Write>)
    requires etypeSize > 0 && WholeWrites(etypeSize, ws)
    ensures StreamEnd(etypeSize, ws) % etypeSize == 0
  {
    if ws != [] {
      var w := ws[|ws| - 1];
      StreamEndWhole(etypeSize, ws[..|ws| - 1]);
      MultipleOf(w.offset, etypeSize);
      MultipleSum(w.offset * etypeSize, |w.data|, etypeSize);
    }
  }

  /** Writes of whole etypes leave a staging file of whole etypes. */
  lemma StagedIsWhole(etypeSize: nat, ws: seq<Write>)
    requires etypeSize > 0 && WholeWrites(etypeSize, ws)
    ensures forall a :: a in Staged(etypeSize, ws) ==> a >= 0
    ensures Length(Staged(etypeSize, ws)) % etypeSize == 0
  {
    var st := Staged(etypeSize, ws);
    StagedIsStream(etypeSize, ws);
    StreamEndBounds(etypeSize, ws);
    StreamEndWhole(etypeSize, ws);
    assert Length(st) == StreamEnd(etypeSize, ws);
  }
}
