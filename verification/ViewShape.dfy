/**
 * What the shape of a view says about its address map: ascending blocks whose
 * copy fits its extent give a strictly increasing map, blocks made of whole
 * etypes keep each etype in one piece, and the view a staging file is opened
 * with is the identity.
 */
module ViewShape {
  import opened AddressMap
  import opened Arith

  ghost predicate Ascending(vs: seq<IoVec>) {
    forall i, j :: 0 <= i < j < |vs| ==> vs[i].base + vs[i].len <= vs[j].base
  }

  /** One copy, from its first block to the end of its last, is no longer than the extent. */
  ghost predicate FitsExtent(v: View) {
    v.blocks != [] ==>
      v.blocks[|v.blocks| - 1].base + v.blocks[|v.blocks| - 1].len - v.blocks[0].base <= v.extent
  }

  /** No two stream bytes share a file offset. */
  ghost predicate Injective(v: View)
    requires ViewSize(v) > 0
  {
    forall s: nat, t: nat :: s < t ==> Addr(v, s) != Addr(v, t)
  }

  lemma LaterByteLaterBlock(vs: seq<IoVec>, r: nat, t: nat)
    requires r <= t < Size(vs)
    ensures BlockOf(vs, r) <= BlockOf(vs, t)
  {
    var j, j' := BlockOf(vs, r), BlockOf(vs, t);
    if j' < j {
      SizeMonotone(vs, j' + 1, j);
    }
  }

  /** Byte r of a copy lies inside the block that holds it. */
  lemma ExpandInBlock(vs: seq<IoVec>, r: nat)
    requires r < Size(vs)
    ensures var j := BlockOf(vs, r);
            && Expand(vs)[r] == vs[j].base + (r - Size(vs[..j]))
            && 0 <= r - Size(vs[..j]) < vs[j].len
  {
    var j := BlockOf(vs, r);
    SizeStep(vs, j);
    var k := r - Size(vs[..j]);
    assert 0 <= k < vs[j].len;
    ExpandAt(vs, j, k);
    assert Expand(vs)[Size(vs[..j]) + k] == Expand(vs)[r];
  }

  lemma ExpandStep(vs: seq<IoVec>, r: nat)
    requires Ascending(vs) && r + 1 < Size(vs)
    ensures Expand(vs)[r] < Expand(vs)[r + 1]
  {
    ExpandInBlock(vs, r);
    ExpandInBlock(vs, r + 1);
    LaterByteLaterBlock(vs, r, r + 1);
  }

  lemma ExpandBounds(vs: seq<IoVec>, r: nat)
    requires Ascending(vs) && r < Size(vs)
    ensures vs[0].base <= Expand(vs)[r] < vs[|vs| - 1].base + vs[|vs| - 1].len
  {
    ExpandInBlock(vs, r);
    var j := BlockOf(vs, r);
    assert j == 0 || vs[0].base + vs[0].len <= vs[j].base;
    assert j == |vs| - 1 || vs[j].base + vs[j].len <= vs[|vs| - 1].base;
  }

  lemma CopySeam(v: View)
    requires Ascending(v.blocks) && FitsExtent(v) && ViewSize(v) > 0
    ensures Expand(v.blocks)[ViewSize(v) - 1] < Expand(v.blocks)[0] + v.extent
  {
    ExpandBounds(v.blocks, 0);
    ExpandBounds(v.blocks, ViewSize(v) - 1);
  }

  lemma SeamStep(v: View, c: nat)
    requires Ascending(v.blocks) && FitsExtent(v) && ViewSize(v) > 0
    ensures AddrIn(v, c, ViewSize(v) - 1) < AddrIn(v, c + 1, 0)
  {
    CopySeam(v);
    assert v.extent * (c + 1) == v.extent * c + v.extent;
  }

  lemma AddrStep(v: View, s: nat)
    requires Ascending(v.blocks) && FitsExtent(v) && ViewSize(v) > 0
    ensures Addr(v, s) < Addr(v, s + 1)
  {
    var c, r := s / ViewSize(v), s % ViewSize(v);
    NextDivMod(s, ViewSize(v), c, r);
    if r + 1 < ViewSize(v) {
      ExpandStep(v.blocks, r);
    } else {
      SeamStep(v, c);
    }
  }

  /** The map never closes a gap: stream bytes t - s apart lie at least t - s apart in the file. */
  lemma {:induction false} AddrGap(v: View, s: nat, t: nat)
    requires Ascending(v.blocks) && FitsExtent(v) && ViewSize(v) > 0
    requires s <= t
    ensures Addr(v, t) - Addr(v, s) >= t - s
    decreases t
  {
    if s < t {
      AddrGap(v, s, t - 1);
      AddrStep(v, t - 1);
    }
  }

  lemma AscendingIsInjective(v: View)
    requires Ascending(v.blocks) && FitsExtent(v) && ViewSize(v) > 0
    ensures Injective(v)
  {
    forall s: nat, t: nat | s < t
      ensures Addr(v, s) != Addr(v, t)
    {
      AddrGap(v, s, t);
    }
  }

  // ----- etypes -----

  ghost predicate WholeEtypes(vs: seq<IoVec>, etypeSize: nat)
    requires etypeSize > 0
  {
    forall j :: 0 <= j < |vs| ==> vs[j].len % etypeSize == 0
  }

  lemma {:induction false} SizeWhole(vs: seq<IoVec>, etypeSize: nat, j: nat)
    requires etypeSize > 0 && WholeEtypes(vs, etypeSize) && j <= |vs|
    ensures Size(vs[..j]) % etypeSize == 0
  {
    if j > 0 {
      SizeWhole(vs, etypeSize, j - 1);
      SizeStep(vs, j - 1);
      MultipleSum(Size(vs[..j - 1]), vs[j - 1].len, etypeSize);
    }
  }

  lemma WholeEtypeFits(r: nat, p: nat, len: nat, etypeSize: nat)
    requires etypeSize > 0 && p <= r < p + len
    requires r % etypeSize == 0 && p % etypeSize == 0 && len % etypeSize == 0
    ensures r + etypeSize <= p + len
  {
    MultipleSum(p, len, etypeSize);
    MultipleGap(r, p + len, etypeSize);
  }

  lemma EtypeInBlock(vs: seq<IoVec>, etypeSize: nat, r: nat, k: nat)
    requires etypeSize > 0 && WholeEtypes(vs, etypeSize)
    requires r < Size(vs) && r % etypeSize == 0 && k < etypeSize
    ensures r + k < Size(vs) && Expand(vs)[r + k] == Expand(vs)[r] + k
  {
    var j := BlockOf(vs, r);
    ExpandInBlock(vs, r);
    SizeWhole(vs, etypeSize, j);
    WholeEtypeFits(r, Size(vs[..j]), vs[j].len, etypeSize);
    ExpandAt(vs, j, r - Size(vs[..j]) + k);
  }

  /** The bytes of etype number o are contiguous in the file. */
  lemma EtypeContiguous(v: View, etypeSize: nat, o: nat, k: nat)
    requires ViewSize(v) > 0 && etypeSize > 0 && WholeEtypes(v.blocks, etypeSize)
    requires k < etypeSize
    ensures Addr(v, o * etypeSize + k) == Addr(v, o * etypeSize) + k
  {
    var s := o * etypeSize;
    MultipleOf(o, etypeSize);
    ByteInEtype(v, etypeSize, s, k);
  }

  lemma EtypeStaysInCopy(s: nat, n: nat, etypeSize: nat, k: nat)
    requires etypeSize > 0 && n > 0 && n % etypeSize == 0 && s % etypeSize == 0
    requires k < etypeSize
    ensures (s % n) % etypeSize == 0
    ensures (s + k) / n == s / n && (s + k) % n == s % n + k
  {
    var c, r := s / n, s % n;
    assert s == c * n + r;
    MultipleOfMultiple(c, n, etypeSize);
    MultipleSum(s, c * n, etypeSize);
    assert r == s - c * n;
    MultipleGap(r, n, etypeSize);
    DivModUnique(c, n, r + k);
    assert c * n + (r + k) == s + k;
  }

  lemma ByteInEtype(v: View, etypeSize: nat, s: nat, k: nat)
    requires ViewSize(v) > 0 && etypeSize > 0 && WholeEtypes(v.blocks, etypeSize)
    requires k < etypeSize && s % etypeSize == 0
    ensures Addr(v, s + k) == Addr(v, s) + k
  {
    assert v.blocks[..|v.blocks|] == v.blocks;
    SizeWhole(v.blocks, etypeSize, |v.blocks|);
    EtypeStaysInCopy(s, ViewSize(v), etypeSize, k);
    EtypeInBlock(v.blocks, etypeSize, s % ViewSize(v), k);
  }

  /** Consecutive etypes lie at least one etype apart: within a block, across blocks and across copies. */
  lemma EtypesApart(v: View, etypeSize: nat, o: nat)
    requires Ascending(v.blocks) && FitsExtent(v) && ViewSize(v) > 0
    ensures Addr(v, (o + 1) * etypeSize) - Addr(v, o * etypeSize) >= etypeSize
  {
    assert (o + 1) * etypeSize == o * etypeSize + etypeSize;
    AddrGap(v, o * etypeSize, (o + 1) * etypeSize);
  }

  // ----- the staging file's own view -----

  /** The view a staging file is given: displacement 0, the etype as etype and as filetype. */
  function StagingView(etypeSize: nat): View {
    View(0, etypeSize, [IoVec(0, etypeSize)])
  }

  lemma StagingViewIsLinear(etypeSize: nat, s: nat)
    requires etypeSize > 0
    ensures ViewSize(StagingView(etypeSize)) == etypeSize
    ensures Addr(StagingView(etypeSize), s) == s
  {
    var v := StagingView(etypeSize);
    var r := s % etypeSize;
    assert v.blocks[..0] == [];
    ExpandAt(v.blocks, 0, r);
    AddrInCopy(v, s / etypeSize, r);
  }
}
