/**
 * When a staging file may be opened for direct I/O: a recursive reading of the
 * filetype's constructors, checked against the runs of bytes the type stands for.
 */
module DirectIo {
  import opened Arith

  const ORDER_C := 0
  const ORDER_FORTRAN := 1
  const DISTRIBUTE_BLOCK := 0
  const DISTRIBUTE_NONE := 2
  const DFLT_DARG := -1

  /** An MPI datatype as it was built (section 4.1 of MPI 3.1). Other stands for a constructor the decision does not know. */
  datatype Type =
    | Named(size: nat)
    | Dup(base: Type)
    | Contiguous(count: nat, base: Type)
    | Vector(count: nat, blocklength: nat, stride: int, base: Type)
    | Hvector(count: nat, blocklength: nat, base: Type)
    | Indexed(lengths: seq<nat>, displacements: seq<int>, base: Type)
    | Hindexed(lengths: seq<nat>, base: Type)
    | IndexedBlock(blocklength: nat, displacements: seq<int>, base: Type)
    | HindexedBlock(count: nat, blocklength: nat, base: Type)
    | Struct(lengths: seq<nat>, types: seq<Type>)
    | Subarray(sizes: seq<nat>, subsizes: seq<nat>, starts: seq<nat>, order: int, base: Type)
    | Darray(procs: nat, rank: nat, gsizes: seq<nat>, distribs: seq<int>, dargs: seq<int>, psizes: seq<nat>, order: int, base: Type)
    | F90(size: nat)
    | Resized(base: Type)
    | Other(runs: seq<nat>)

  datatype Combiner =
    | NAMED | DUP | CONTIGUOUS | VECTOR | HVECTOR | INDEXED | HINDEXED | INDEXED_BLOCK | HINDEXED_BLOCK
    | STRUCT | SUBARRAY | DARRAY | F90_TYPE | RESIZED | OTHER

  /** What PMPI_Type_get_envelope and PMPI_Type_get_contents hand out (section 4.1.13 of MPI 3.1). */
  datatype Contents = Contents(combiner: Combiner, i: seq<int>, d: seq<Type>)

  function GetContents(t: Type): (c: Contents)
    ensures forall k :: 0 <= k < |c.d| ==> c.d[k] < t
  {
    match t
    case Named(_) => Contents(NAMED, [], [])
    case Dup(base) => Contents(DUP, [], [base])
    case Contiguous(count, base) => Contents(CONTIGUOUS, [count], [base])
    case Vector(count, blocklength, stride, base) => Contents(VECTOR, [count, blocklength, stride], [base])
    case Hvector(count, blocklength, base) => Contents(HVECTOR, [count, blocklength], [base])
    case Indexed(lengths, displacements, base) => Contents(INDEXED, [|lengths|] + lengths + displacements, [base])
    case Hindexed(lengths, base) => Contents(HINDEXED, [|lengths|] + lengths, [base])
    case IndexedBlock(blocklength, displacements, base) =>
      Contents(INDEXED_BLOCK, [|displacements|, blocklength] + displacements, [base])
    case HindexedBlock(count, blocklength, base) => Contents(HINDEXED_BLOCK, [count, blocklength], [base])
    case Struct(lengths, types) => Contents(STRUCT, [|lengths|] + lengths, types)
    case Subarray(sizes, subsizes, starts, order, base) =>
      Contents(SUBARRAY, [|sizes|] + sizes + subsizes + starts + [order], [base])
    case Darray(procs, rank, gsizes, distribs, dargs, psizes, order, base) =>
      Contents(DARRAY, [procs, rank, |gsizes|] + gsizes + distribs + dargs + psizes + [order], [base])
    case F90(_) => Contents(F90_TYPE, [], [])
    case Resized(base) => Contents(RESIZED, [], [base])
    case Other(_) => Contents(OTHER, [], [])
  }

  /** The arguments MPI accepts for the constructor itself. */
  ghost predicate GoodArguments(t: Type) {
    match t
    case Struct(lengths, types) => |lengths| == |types|
    case Subarray(sizes, subsizes, starts, order, _) =>
      && |sizes| > 0 && |sizes| == |subsizes| == |starts|
      && (order == ORDER_C || order == ORDER_FORTRAN)
    case Darray(procs, rank, gsizes, distribs, dargs, psizes, order, _) =>
      && procs > 0 && |gsizes| > 0 && |gsizes| == |distribs| == |dargs| == |psizes|
      && (order == ORDER_C || order == ORDER_FORTRAN)
      && (forall k :: 0 <= k < |psizes| ==> psizes[k] > 0)
      && (forall k :: 0 <= k < |dargs| ==> dargs[k] > 0 || dargs[k] == DFLT_DARG)
      && forall k :: 0 <= k < |dargs| ==>
           distribs[k] == DISTRIBUTE_BLOCK && dargs[k] != DFLT_DARG ==> gsizes[k] <= dargs[k] * psizes[k]
    case _ => true
  }

  ghost predicate WellFormed(t: Type) {
    && GoodArguments(t)
    && forall k :: 0 <= k < |GetContents(t).d| ==> WellFormed(GetContents(t).d[k])
  }

  // ----- the decision -----

  predicate Fits(bytes: int, pagesize: nat, threshold: int)
    requires pagesize > 0
  {
    bytes % pagesize == 0 && bytes >= threshold
  }

  /** The test the constructors share: the type is predefined, not empty, and n of it in a row fit. */
  predicate NamedRunFits(d: Type, n: int, pagesize: nat, threshold: int)
    requires pagesize > 0
  {
    d.Named? && d.size != 0 && Fits(d.size * n, pagesize, threshold)
  }

  predicate EnableDirectIo(t: Type, pagesize: nat, threshold: int)
    requires pagesize > 0 && WellFormed(t)
    decreases t, 1
  {
    var Contents(combiner, i, d) := GetContents(t);
    match combiner
    case NAMED => t.size != 0 && Fits(t.size, pagesize, threshold)
    case DUP => EnableDirectIo(d[0], pagesize, threshold)
    case CONTIGUOUS =>
      i[0] != 0 && (EnableDirectIo(d[0], pagesize, threshold) || NamedRunFits(d[0], i[0], pagesize, threshold))
    case VECTOR =>
      i[0] != 0 && (EnableDirectIo(d[0], pagesize, threshold) || NamedRunFits(d[0], i[1], pagesize, threshold))
    case HVECTOR =>
      i[0] != 0 && (EnableDirectIo(d[0], pagesize, threshold) || NamedRunFits(d[0], i[1], pagesize, threshold))
    case INDEXED =>
      i[0] != 0 && (EnableDirectIo(d[0], pagesize, threshold) ||
                    forall c :: 1 <= c <= i[0] ==> NamedRunFits(d[0], i[c], pagesize, threshold))
    case HINDEXED =>
      i[0] != 0 && (EnableDirectIo(d[0], pagesize, threshold) ||
                    forall c :: 1 <= c <= i[0] ==> NamedRunFits(d[0], i[c], pagesize, threshold))
    case INDEXED_BLOCK =>
      i[0] != 0 && (EnableDirectIo(d[0], pagesize, threshold) || NamedRunFits(d[0], i[1], pagesize, threshold))
    case HINDEXED_BLOCK =>
      i[0] != 0 && (EnableDirectIo(d[0], pagesize, threshold) || NamedRunFits(d[0], i[1], pagesize, threshold))
    case STRUCT => i[0] != 0 && EnableStruct(t, i[0], pagesize, threshold)
    case SUBARRAY =>
      && i[0] != 0
      && (|| EnableDirectIo(d[0], pagesize, threshold)
          || (var order := i[3 * i[0] + 1];
              if order == ORDER_C then NamedRunFits(d[0], i[2 * i[0]], pagesize, threshold)
              else order == ORDER_FORTRAN && NamedRunFits(d[0], i[i[0] + 1], pagesize, threshold)))
    case DARRAY =>
      && i[0] != 0
      && (|| EnableDirectIo(d[0], pagesize, threshold)
          || (var order := i[4 * i[2] + 3];
              && (order == ORDER_C || order == ORDER_FORTRAN)
              && (var dim := if order == ORDER_C then i[2] - 1 else 0;
                  var distrib := i[i[2] + 3 + dim];
                  if distrib == DISTRIBUTE_NONE then NamedRunFits(d[0], i[3 + dim], pagesize, threshold)
                  else
                    && distrib == DISTRIBUTE_BLOCK
                    && (var darg := i[2 * i[2] + 3 + dim];
                        var blockSize := if darg == DFLT_DARG then i[3 + dim] / i[3 * i[2] + 3 + dim] else darg;
                        NamedRunFits(d[0], blockSize, pagesize, threshold)))))
    case F90_TYPE => false
    case RESIZED => false
    case OTHER => true
  }

  /** The member types of a structure pass one by one, each by itself or by its block. */
  predicate EnableStruct(t: Type, n: nat, pagesize: nat, threshold: int)
    requires pagesize > 0 && WellFormed(t) && t.Struct? && n <= |t.types|
    decreases t, 0, n
  {
    var Contents(_, i, d) := GetContents(t);
    n == 0 || (&& EnableStruct(t, n - 1, pagesize, threshold)
               && (|| EnableDirectIo(d[n - 1], pagesize, threshold)
                   || NamedRunFits(d[n - 1], i[n], pagesize, threshold)))
  }

  // ----- what a type stands for -----

  function Sum(s: seq<nat>): nat {
    if s == [] then 0 else s[0] + Sum(s[1..])
  }

  function Repeat(n: nat, runs: seq<nat>): seq<nat> {
    if n == 0 then [] else runs + Repeat(n - 1, runs)
  }

  /** n elements in a row: one run if the element is predefined, the runs of each element otherwise. */
  function Block(n: nat, t: Type): seq<nat>
    requires WellFormed(t)
    decreases t, 2
  {
    if t.Named? then (if n * t.size == 0 then [] else [n * t.size]) else Repeat(n, LeafRuns(t))
  }

  /** Blocks of the given lengths, one after the other. */
  function BlockList(lengths: seq<nat>, t: Type): seq<nat>
    requires WellFormed(t)
    decreases t, 3, |lengths|
  {
    if lengths == [] then [] else Block(lengths[0], t) + BlockList(lengths[1..], t)
  }

  /** The first n members of a structure. */
  function Members(t: Type, n: nat): seq<nat>
    requires WellFormed(t) && t.Struct? && n <= |t.types|
    decreases t, 0, n
  {
    if n == 0 then []
    else
      assert WellFormed(GetContents(t).d[n - 1]);
      Members(t, n - 1) + Block(t.lengths[n - 1], t.types[n - 1])
  }

  function Product(s: seq<nat>): nat {
    if s == [] then 1 else s[0] * Product(s[1..])
  }

  /** Position of a rank along one dimension of the process grid, which is in C order. */
  function Coordinate(rank: nat, psizes: seq<nat>, k: nat): nat
    requires k < |psizes| && forall j :: 0 <= j < |psizes| ==> psizes[j] > 0
  {
    ProductPositive(psizes[k + 1..]);
    (rank / Product(psizes[k + 1..])) % psizes[k]
  }

  lemma ProductPositive(s: seq<nat>)
    requires forall j :: 0 <= j < |s| ==> s[j] > 0
    ensures Product(s) > 0
  {
  }

  /** The block size MPI distributes by (section 4.1.4 of MPI 3.1): the default is rounded up. */
  function BlockSize(g: nat, p: nat, darg: int): nat
    requires p > 0 && (darg > 0 || darg == DFLT_DARG)
  {
    if darg == DFLT_DARG then (g + p - 1) / p else darg
  }

  /** Process r's block of a dimension of g elements. */
  function BlockPiece(g: nat, b: nat, r: nat): nat {
    if g <= b * r then 0 else if g - b * r < b then g - b * r else b
  }

  /** Process r's stretches of a dimension dealt out k elements at a time. */
  function CyclicPieces(g: nat, k: nat, start: nat, step: nat): seq<nat>
    requires k > 0 && step > 0
    decreases g - start
  {
    if g <= start then [] else [if g - start < k then g - start else k] + CyclicPieces(g, k, start + step, step)
  }

  /** The stretches of dimension k that a process holds. */
  function Pieces(t: Type, k: nat): seq<nat>
    requires t.Darray? && GoodArguments(t) && k < |t.gsizes|
  {
    var g, p, darg := t.gsizes[k], t.psizes[k], t.dargs[k];
    var r := Coordinate(t.rank, t.psizes, k);
    if t.distribs[k] == DISTRIBUTE_NONE then [g]
    else if t.distribs[k] == DISTRIBUTE_BLOCK then [BlockPiece(g, BlockSize(g, p, darg), r)]
    else
      var size: nat := if darg == DFLT_DARG then 1 else darg;
      MulPositive(size, p);
      CyclicPieces(g, size, r * size, size * p)
  }

  lemma MulPositive(a: nat, b: nat)
    requires a > 0 && b > 0
    ensures a * b > 0
  {
  }

  /** The dimension whose elements are next to each other. */
  function Fastest(order: int, ndims: nat): nat
    requires ndims > 0
  {
    if order == ORDER_C then ndims - 1 else 0
  }

  /** How many elements the first n dimensions hold, the fastest left out. */
  function OtherDims(t: Type, n: nat): nat
    requires t.Darray? && GoodArguments(t) && n <= |t.gsizes|
  {
    if n == 0 then 1
    else if n - 1 == Fastest(t.order, |t.gsizes|) then OtherDims(t, n - 1)
    else OtherDims(t, n - 1) * Sum(Pieces(t, n - 1))
  }

  /**
   * The runs of bytes of a type: blocks of predefined elements. Blocks that
   * happen to touch are not merged.
   */
  function LeafRuns(t: Type): seq<nat>
    requires WellFormed(t)
    decreases t, 1
  {
    assert GetContents(t).d != [] ==> WellFormed(GetContents(t).d[0]);
    match t
    case Named(size) => if size == 0 then [] else [size]
    case Dup(base) => LeafRuns(base)
    case Contiguous(count, base) => Block(count, base)
    case Vector(count, blocklength, _, base) => Repeat(count, Block(blocklength, base))
    case Hvector(count, blocklength, base) => Repeat(count, Block(blocklength, base))
    case Indexed(lengths, _, base) => BlockList(lengths, base)
    case Hindexed(lengths, base) => BlockList(lengths, base)
    case IndexedBlock(blocklength, displacements, base) => Repeat(|displacements|, Block(blocklength, base))
    case HindexedBlock(count, blocklength, base) => Repeat(count, Block(blocklength, base))
    case Struct(_, types) => Members(t, |types|)
    case Subarray(_, subsizes, _, order, base) =>
      var dim := Fastest(order, |subsizes|);
      Repeat(Product(subsizes[..dim] + subsizes[dim + 1..]), Block(subsizes[dim], base))
    case Darray(_, _, gsizes, _, _, _, order, base) =>
      Repeat(OtherDims(t, |gsizes|), BlockList(Pieces(t, Fastest(order, |gsizes|)), base))
    case F90(size) => if size == 0 then [] else [size]
    case Resized(base) => LeafRuns(base)
    case Other(runs) => runs
  }

  // ----- soundness -----

  ghost predicate AllFit(runs: seq<nat>, pagesize: nat, threshold: int)
    requires pagesize > 0
  {
    forall k :: 0 <= k < |runs| ==> Fits(runs[k], pagesize, threshold)
  }

  /** The block size the decision works with: the default is rounded down. */
  function DecidedBlock(g: nat, p: nat, darg: int): nat
    requires p > 0 && (darg > 0 || darg == DFLT_DARG)
  {
    if darg == DFLT_DARG then g / p else darg
  }

  /** Block distribution of the fastest dimension deals every process a full block. */
  ghost predicate EvenBlocks(t: Type)
    requires GoodArguments(t)
  {
    t.Darray? ==>
      var dim := Fastest(t.order, |t.gsizes|);
      t.distribs[dim] == DISTRIBUTE_BLOCK ==>
        DecidedBlock(t.gsizes[dim], t.psizes[dim], t.dargs[dim]) * t.psizes[dim] == t.gsizes[dim]
  }

  /** Even block distributions all the way down, and what constructors the decision does not know stand for fits. */
  ghost predicate Covered(t: Type, pagesize: nat, threshold: int)
    requires pagesize > 0
  {
    && GoodArguments(t) && EvenBlocks(t)
    && (t.Other? ==> AllFit(t.runs, pagesize, threshold))
    && forall k :: 0 <= k < |GetContents(t).d| ==> Covered(GetContents(t).d[k], pagesize, threshold)
  }

  /** The block of the fastest dimension that this process holds. */
  function OwnPiece(t: Type): nat
    requires t.Darray? && GoodArguments(t)
  {
    var dim := Fastest(t.order, |t.gsizes|);
    BlockPiece(t.gsizes[dim], BlockSize(t.gsizes[dim], t.psizes[dim], t.dargs[dim]), Coordinate(t.rank, t.psizes, dim))
  }

  /** A block distribution that is decided by its block, the base being predefined and too small by itself. */
  ghost predicate ByItsBlock(t: Type, pagesize: nat, threshold: int)
    requires pagesize > 0 && GoodArguments(t)
  {
    && t.Darray? && t.distribs[Fastest(t.order, |t.gsizes|)] == DISTRIBUTE_BLOCK
    && t.base.Named? && (t.base.size == 0 || !Fits(t.base.size, pagesize, threshold))
  }

  /**
   * What the decision takes on trust is so: the runs of constructors it does
   * not know fit, and where it looks at the block of a distribution the block
   * of this process is empty or fits.
   */
  ghost predicate Right(t: Type, pagesize: nat, threshold: int)
    requires pagesize > 0
  {
    && GoodArguments(t)
    && (t.Other? ==> AllFit(t.runs, pagesize, threshold))
    && (ByItsBlock(t, pagesize, threshold) ==>
          OwnPiece(t) == 0 || Fits(t.base.size * OwnPiece(t), pagesize, threshold))
    && forall k :: 0 <= k < |GetContents(t).d| ==> Right(GetContents(t).d[k], pagesize, threshold)
  }

  lemma {:induction false} RepeatFits(n: nat, runs: seq<nat>, pagesize: nat, threshold: int)
    requires pagesize > 0 && AllFit(runs, pagesize, threshold)
    ensures AllFit(Repeat(n, runs), pagesize, threshold)
  {
    if n > 0 {
      RepeatFits(n - 1, runs, pagesize, threshold);
    }
  }

  lemma BlockFits(n: nat, t: Type, pagesize: nat, threshold: int)
    requires pagesize > 0 && WellFormed(t)
    requires AllFit(LeafRuns(t), pagesize, threshold) || n == 0 || NamedRunFits(t, n, pagesize, threshold)
    ensures AllFit(Block(n, t), pagesize, threshold)
  {
    if n != 0 && !NamedRunFits(t, n, pagesize, threshold) {
      if t.Named? && t.size > 0 {
        assert LeafRuns(t)[0] == t.size;
        MultipleFits(n, t.size, pagesize, threshold);
      } else {
        RepeatFits(n, LeafRuns(t), pagesize, threshold);
      }
    }
  }

  lemma MultipleFits(n: nat, size: nat, pagesize: nat, threshold: int)
    requires pagesize > 0 && n > 0 && Fits(size, pagesize, threshold)
    ensures Fits(n * size, pagesize, threshold)
  {
    var q := size / pagesize;
    assert n * size == n * (q * pagesize) == (n * q) * pagesize;
    MultipleOf(n * q, pagesize);
    assert n * size == (n - 1) * size + size;
    MulSign(n - 1, size);
  }

  lemma {:induction false} BlockListFits(lengths: seq<nat>, t: Type, pagesize: nat, threshold: int)
    requires pagesize > 0 && WellFormed(t)
    requires || AllFit(LeafRuns(t), pagesize, threshold)
             || forall k :: 0 <= k < |lengths| ==> lengths[k] == 0 || NamedRunFits(t, lengths[k], pagesize, threshold)
    ensures AllFit(BlockList(lengths, t), pagesize, threshold)
    decreases |lengths|
  {
    if lengths != [] {
      BlockFits(lengths[0], t, pagesize, threshold);
      BlockListFits(lengths[1..], t, pagesize, threshold);
    }
  }

  /** The elements in a row that the decision looks at, where all blocks have one length. */
  function DecidedRun(t: Type): nat
    requires GoodArguments(t)
  {
    match t
    case Contiguous(count, _) => count
    case Vector(_, blocklength, _, _) => blocklength
    case Hvector(_, blocklength, _) => blocklength
    case IndexedBlock(blocklength, _, _) => blocklength
    case HindexedBlock(_, blocklength, _) => blocklength
    case Subarray(_, subsizes, _, order, _) => subsizes[Fastest(order, |subsizes|)]
    case Darray(_, _, gsizes, distribs, dargs, psizes, order, _) =>
      var dim := Fastest(order, |gsizes|);
      if distribs[dim] == DISTRIBUTE_NONE then gsizes[dim] else DecidedBlock(gsizes[dim], psizes[dim], dargs[dim])
    case _ => 0
  }

  ghost predicate Uniform(t: Type) {
    t.Contiguous? || t.Vector? || t.Hvector? || t.IndexedBlock? || t.HindexedBlock? || t.Subarray? || t.Darray?
  }

  /** How many blocks there are. */
  function Blocks(t: Type): nat
    requires GoodArguments(t)
  {
    match t
    case Vector(count, _, _, _) => count
    case Hvector(count, _, _) => count
    case IndexedBlock(_, displacements, _) => |displacements|
    case HindexedBlock(count, _, _) => count
    case Subarray(_, subsizes, _, order, _) =>
      var dim := Fastest(order, |subsizes|);
      Product(subsizes[..dim] + subsizes[dim + 1..])
    case _ => 0
  }

  lemma RunsInBlocks(t: Type)
    requires WellFormed(t) && Uniform(t) && !t.Contiguous? && !t.Darray? && WellFormed(t.base)
    ensures LeafRuns(t) == Repeat(Blocks(t), Block(DecidedRun(t), t.base))
  {
  }

  lemma SubarrayDecision(t: Type, pagesize: nat, threshold: int)
    requires pagesize > 0 && WellFormed(t) && t.Subarray? && WellFormed(t.base)
    requires EnableDirectIo(t, pagesize, threshold)
    ensures EnableDirectIo(t.base, pagesize, threshold) || NamedRunFits(t.base, DecidedRun(t), pagesize, threshold)
  {
    assert GetContents(t).d == [t.base];
  }

  /** A distribution that is not accepted for its base is accepted for the whole dimension or for a block. */
  lemma DarrayDecision(t: Type, pagesize: nat, threshold: int)
    requires pagesize > 0 && WellFormed(t) && t.Darray? && WellFormed(t.base)
    requires EnableDirectIo(t, pagesize, threshold) && !EnableDirectIo(t.base, pagesize, threshold)
    ensures NamedRunFits(t.base, DecidedRun(t), pagesize, threshold)
    ensures t.distribs[Fastest(t.order, |t.gsizes|)] in {DISTRIBUTE_NONE, DISTRIBUTE_BLOCK}
    ensures t.distribs[Fastest(t.order, |t.gsizes|)] == DISTRIBUTE_BLOCK ==> ByItsBlock(t, pagesize, threshold)
  {
    assert GetContents(t).d == [t.base];
  }

  /** An accepted type with blocks of one length is accepted for its base, alone or in a row. */
  lemma UniformDecision(t: Type, pagesize: nat, threshold: int)
    requires pagesize > 0 && WellFormed(t) && Uniform(t) && WellFormed(t.base)
    requires EnableDirectIo(t, pagesize, threshold)
    ensures EnableDirectIo(t.base, pagesize, threshold) || NamedRunFits(t.base, DecidedRun(t), pagesize, threshold)
  {
    if t.Subarray? {
      SubarrayDecision(t, pagesize, threshold);
    } else if t.Darray? {
      if !EnableDirectIo(t.base, pagesize, threshold) {
        DarrayDecision(t, pagesize, threshold);
      }
    } else {
      assert GetContents(t).d[0] == t.base;
    }
  }

  lemma UniformFits(t: Type, pagesize: nat, threshold: int)
    requires pagesize > 0 && WellFormed(t) && Uniform(t) && !t.Darray? && WellFormed(t.base)
    requires AllFit(LeafRuns(t.base), pagesize, threshold) || NamedRunFits(t.base, DecidedRun(t), pagesize, threshold)
    ensures AllFit(LeafRuns(t), pagesize, threshold)
  {
    if t.Contiguous? {
      BlockFits(t.count, t.base, pagesize, threshold);
    } else {
      RunsInBlocks(t);
      BlocksFit(Blocks(t), DecidedRun(t), t.base, pagesize, threshold);
    }
  }

  /** A base that is enabled or a predefined one passes on what it was enabled for. */
  lemma {:induction false} RightIsSound(t: Type, pagesize: nat, threshold: int)
    requires pagesize > 0 && WellFormed(t) && Right(t, pagesize, threshold)
    requires EnableDirectIo(t, pagesize, threshold)
    ensures AllFit(LeafRuns(t), pagesize, threshold)
    decreases t, 1
  {
    if t.Struct? {
      MembersFit(t, |t.types|, pagesize, threshold);
    } else if !t.Named? && !t.Other? && !t.F90? && !t.Resized? {
      assert GetContents(t).d[0] == t.base;
      assert WellFormed(t.base) && Right(t.base, pagesize, threshold);
      if EnableDirectIo(t.base, pagesize, threshold) {
        RightIsSound(t.base, pagesize, threshold);
      }
      OuterIsSound(t, pagesize, threshold);
    }
  }

  /** The step from a base to the type around it. */
  lemma OuterIsSound(t: Type, pagesize: nat, threshold: int)
    requires pagesize > 0 && WellFormed(t) && Right(t, pagesize, threshold) && EnableDirectIo(t, pagesize, threshold)
    requires t.Dup? || t.Indexed? || t.Hindexed? || Uniform(t)
    requires WellFormed(t.base)
    requires EnableDirectIo(t.base, pagesize, threshold) ==> AllFit(LeafRuns(t.base), pagesize, threshold)
    ensures AllFit(LeafRuns(t), pagesize, threshold)
  {
    if t.Indexed? || t.Hindexed? {
      IndexedFits(t, t.lengths, t.base, pagesize, threshold);
    } else if t.Darray? {
      DarrayFits(t, pagesize, threshold);
    } else if !t.Dup? {
      UniformDecision(t, pagesize, threshold);
      UniformFits(t, pagesize, threshold);
    }
  }

  lemma BlocksFit(n: nat, blocklength: nat, t: Type, pagesize: nat, threshold: int)
    requires pagesize > 0 && WellFormed(t)
    requires AllFit(LeafRuns(t), pagesize, threshold) || NamedRunFits(t, blocklength, pagesize, threshold)
    ensures AllFit(Repeat(n, Block(blocklength, t)), pagesize, threshold)
  {
    BlockFits(blocklength, t, pagesize, threshold);
    RepeatFits(n, Block(blocklength, t), pagesize, threshold);
  }

  lemma IndexedFits(t: Type, lengths: seq<nat>, base: Type, pagesize: nat, threshold: int)
    requires pagesize > 0 && WellFormed(base) && GetContents(t).d == [base]
    requires |GetContents(t).i| > |lengths| && GetContents(t).i[1..|lengths| + 1] == lengths
    requires || AllFit(LeafRuns(base), pagesize, threshold)
             || forall c :: 1 <= c <= |lengths| ==> NamedRunFits(base, GetContents(t).i[c], pagesize, threshold)
    ensures AllFit(BlockList(lengths, base), pagesize, threshold)
  {
    forall k | 0 <= k < |lengths|
      ensures lengths[k] == GetContents(t).i[k + 1]
    {
      assert GetContents(t).i[1..|lengths| + 1][k] == lengths[k];
    }
    BlockListFits(lengths, base, pagesize, threshold);
  }

  lemma {:induction false} MembersFit(t: Type, n: nat, pagesize: nat, threshold: int)
    requires pagesize > 0 && WellFormed(t) && Right(t, pagesize, threshold) && t.Struct? && n <= |t.types|
    requires EnableStruct(t, n, pagesize, threshold)
    ensures AllFit(Members(t, n), pagesize, threshold)
    decreases t, 0, n
  {
    if n > 0 {
      var d := GetContents(t).d[n - 1];
      MembersFit(t, n - 1, pagesize, threshold);
      if EnableDirectIo(d, pagesize, threshold) {
        RightIsSound(d, pagesize, threshold);
      }
      BlockFits(t.lengths[n - 1], d, pagesize, threshold);
    }
  }

  lemma DarrayFits(t: Type, pagesize: nat, threshold: int)
    requires pagesize > 0 && WellFormed(t) && t.Darray? && Right(t, pagesize, threshold)
    requires EnableDirectIo(t, pagesize, threshold)
    requires WellFormed(t.base)
    requires EnableDirectIo(t.base, pagesize, threshold) ==> AllFit(LeafRuns(t.base), pagesize, threshold)
    ensures AllFit(LeafRuns(t), pagesize, threshold)
  {
    var dim := Fastest(t.order, |t.gsizes|);
    if !EnableDirectIo(t.base, pagesize, threshold) {
      DarrayDecision(t, pagesize, threshold);
    }
    BlockListFits(Pieces(t, dim), t.base, pagesize, threshold);
    RepeatFits(OtherDims(t, |t.gsizes|), BlockList(Pieces(t, dim), t.base), pagesize, threshold);
  }

  /** Even blocks of an accepted distribution fit for every process. */
  lemma EvenBlockFits(t: Type, pagesize: nat, threshold: int)
    requires pagesize > 0 && WellFormed(t) && t.Darray? && EvenBlocks(t) && WellFormed(t.base)
    requires EnableDirectIo(t, pagesize, threshold) && ByItsBlock(t, pagesize, threshold)
    ensures OwnPiece(t) == 0 || Fits(t.base.size * OwnPiece(t), pagesize, threshold)
  {
    var dim := Fastest(t.order, |t.gsizes|);
    DarrayDecision(t, pagesize, threshold);
    EvenPiece(t.gsizes[dim], t.psizes[dim], t.dargs[dim], Coordinate(t.rank, t.psizes, dim));
  }

  /** With even blocks all the way down nothing is taken on trust wrongly. */
  lemma {:induction false} EvenIsRight(t: Type, pagesize: nat, threshold: int)
    requires pagesize > 0 && WellFormed(t) && Covered(t, pagesize, threshold)
    requires t.Named? || EnableDirectIo(t, pagesize, threshold)
    ensures Right(t, pagesize, threshold)
    decreases t
  {
    if ByItsBlock(t, pagesize, threshold) {
      assert GetContents(t).d[0] == t.base;
      EvenBlockFits(t, pagesize, threshold);
    }
    forall k | 0 <= k < |GetContents(t).d|
      ensures Right(GetContents(t).d[k], pagesize, threshold)
    {
      PartIsAccepted(t, k, pagesize, threshold);
      EvenIsRight(GetContents(t).d[k], pagesize, threshold);
    }
  }

  /** Every part of an accepted type is accepted or predefined. */
  lemma PartIsAccepted(t: Type, k: nat, pagesize: nat, threshold: int)
    requires pagesize > 0 && WellFormed(t) && k < |GetContents(t).d|
    requires EnableDirectIo(t, pagesize, threshold)
    ensures GetContents(t).d[k].Named? || EnableDirectIo(GetContents(t).d[k], pagesize, threshold)
  {
    if t.Struct? {
      MemberIsAccepted(t, |t.types|, k, pagesize, threshold);
    } else if t.Indexed? || t.Hindexed? {
      assert GetContents(t).i[1] == t.lengths[0];
    } else if Uniform(t) {
      UniformDecision(t, pagesize, threshold);
    }
  }

  lemma {:induction false} MemberIsAccepted(t: Type, n: nat, k: nat, pagesize: nat, threshold: int)
    requires pagesize > 0 && WellFormed(t) && t.Struct? && k < n <= |t.types|
    requires EnableStruct(t, n, pagesize, threshold)
    ensures GetContents(t).d[k].Named? || EnableDirectIo(GetContents(t).d[k], pagesize, threshold)
    decreases n
  {
    if k < n - 1 {
      MemberIsAccepted(t, n - 1, k, pagesize, threshold);
    }
  }

  /** With even block distributions, accepted types are sound. */
  lemma EnableIsSound(t: Type, pagesize: nat, threshold: int)
    requires pagesize > 0 && WellFormed(t) && Covered(t, pagesize, threshold)
    requires EnableDirectIo(t, pagesize, threshold)
    ensures AllFit(LeafRuns(t), pagesize, threshold)
  {
    EvenIsRight(t, pagesize, threshold);
    RightIsSound(t, pagesize, threshold);
  }

  /** With even blocks every process holds the block the decision looked at. */
  lemma EvenPiece(g: nat, p: nat, darg: int, r: nat)
    requires p > 0 && (darg > 0 || darg == DFLT_DARG) && r < p
    requires DecidedBlock(g, p, darg) * p == g
    ensures BlockPiece(g, BlockSize(g, p, darg), r) == DecidedBlock(g, p, darg)
  {
    var q := DecidedBlock(g, p, darg);
    if darg == DFLT_DARG {
      DivModUnique(q, p, p - 1);
    }
    assert BlockSize(g, p, darg) == q;
    assert g - q * r == q * (p - r);
    MulAtLeast(p - r, q);
  }

  // ----- completeness -----

  /** No count or length is zero, and the process holds some of what is distributed. */
  ghost predicate NoZeros(t: Type)
    requires GoodArguments(t)
  {
    match t
    case Contiguous(count, _) => count > 0
    case Vector(count, blocklength, _, _) => count > 0 && blocklength > 0
    case Hvector(count, blocklength, _) => count > 0 && blocklength > 0
    case Indexed(lengths, _, _) => lengths != [] && AllPositive(lengths)
    case Hindexed(lengths, _) => lengths != [] && AllPositive(lengths)
    case IndexedBlock(blocklength, displacements, _) => displacements != [] && blocklength > 0
    case HindexedBlock(count, blocklength, _) => count > 0 && blocklength > 0
    case Struct(lengths, _) => lengths != [] && AllPositive(lengths)
    case Subarray(_, subsizes, _, _, _) => AllPositive(subsizes)
    case Darray(_, _, gsizes, _, _, _, order, _) =>
      Sum(Pieces(t, Fastest(order, |gsizes|))) > 0 && OtherDims(t, |gsizes|) > 0
    case _ => true
  }

  ghost predicate NoZerosThroughout(t: Type) {
    && GoodArguments(t) && NoZeros(t)
    && forall k :: 0 <= k < |GetContents(t).d| ==> NoZerosThroughout(GetContents(t).d[k])
  }

  /** Nor is a size zero, and no constructor is one the decision turns down unseen. */
  ghost predicate Solid(t: Type)
    requires GoodArguments(t)
  {
    && NoZeros(t) && (t.Named? ==> t.size > 0) && !t.F90? && !t.Resized? && !t.Other?
    && (t.Darray? ==> t.distribs[Fastest(t.order, |t.gsizes|)] in {DISTRIBUTE_NONE, DISTRIBUTE_BLOCK})
  }

  ghost predicate AllPositive(s: seq<nat>) {
    forall k :: 0 <= k < |s| ==> s[k] > 0
  }

  ghost predicate SolidThroughout(t: Type) {
    && GoodArguments(t) && Solid(t)
    && forall k :: 0 <= k < |GetContents(t).d| ==> SolidThroughout(GetContents(t).d[k])
  }

  lemma RepeatHolds(n: nat, runs: seq<nat>, pagesize: nat, threshold: int)
    requires pagesize > 0 && n > 0 && AllFit(Repeat(n, runs), pagesize, threshold)
    ensures AllFit(runs, pagesize, threshold)
  {
    assert forall k :: 0 <= k < |runs| ==> Repeat(n, runs)[k] == runs[k];
  }

  /** A block whose runs fit is accepted by one of the two tests every constructor makes. */
  lemma BlockAccepted(n: nat, t: Type, pagesize: nat, threshold: int)
    requires pagesize > 0 && n > 0 && WellFormed(t) && SolidThroughout(t)
    requires AllFit(Block(n, t), pagesize, threshold)
    ensures if t.Named? then NamedRunFits(t, n, pagesize, threshold) else AllFit(LeafRuns(t), pagesize, threshold)
  {
    if t.Named? {
      ProductCommutes(n, t.size);
      assert Block(n, t)[0] == n * t.size;
    } else {
      RepeatHolds(n, LeafRuns(t), pagesize, threshold);
    }
  }

  lemma ProductCommutes(n: nat, size: nat)
    requires n > 0 && size > 0
    ensures n * size > 0 && n * size == size * n
  {
  }

  lemma {:induction false} BlockListAccepted(lengths: seq<nat>, t: Type, k: nat, pagesize: nat, threshold: int)
    requires pagesize > 0 && WellFormed(t) && SolidThroughout(t) && AllPositive(lengths) && k < |lengths|
    requires AllFit(BlockList(lengths, t), pagesize, threshold)
    ensures if t.Named? then NamedRunFits(t, lengths[k], pagesize, threshold) else AllFit(LeafRuns(t), pagesize, threshold)
    decreases |lengths|
  {
    var first, rest := Block(lengths[0], t), BlockList(lengths[1..], t);
    assert BlockList(lengths, t) == first + rest;
    if k == 0 {
      assert forall i :: 0 <= i < |first| ==> BlockList(lengths, t)[i] == first[i];
      BlockAccepted(lengths[0], t, pagesize, threshold);
    } else {
      assert forall i :: 0 <= i < |rest| ==> BlockList(lengths, t)[|first| + i] == rest[i];
      BlockListAccepted(lengths[1..], t, k - 1, pagesize, threshold);
    }
  }

  lemma {:induction false} ProductOfPositive(s: seq<nat>)
    requires AllPositive(s)
    ensures Product(s) > 0
  {
    if s != [] {
      ProductOfPositive(s[1..]);
      MulPositive(s[0], Product(s[1..]));
    }
  }

  /** The blocks of n * blocklength elements are accepted. */
  lemma BlocksAccepted(n: nat, blocklength: nat, t: Type, pagesize: nat, threshold: int)
    requires pagesize > 0 && n > 0 && blocklength > 0 && WellFormed(t) && SolidThroughout(t)
    requires AllFit(Repeat(n, Block(blocklength, t)), pagesize, threshold)
    ensures if t.Named? then NamedRunFits(t, blocklength, pagesize, threshold) else AllFit(LeafRuns(t), pagesize, threshold)
  {
    RepeatHolds(n, Block(blocklength, t), pagesize, threshold);
    BlockAccepted(blocklength, t, pagesize, threshold);
  }

  /** If the runs of a type with blocks of one length fit, so do those of its base, alone or in a row. */
  lemma UniformRuns(t: Type, pagesize: nat, threshold: int)
    requires pagesize > 0 && WellFormed(t) && Uniform(t) && EvenBlocks(t) && Solid(t)
    requires WellFormed(t.base) && SolidThroughout(t.base)
    requires AllFit(LeafRuns(t), pagesize, threshold)
    ensures if t.base.Named? then NamedRunFits(t.base, DecidedRun(t), pagesize, threshold)
            else AllFit(LeafRuns(t.base), pagesize, threshold)
  {
    if t.Contiguous? {
      BlockAccepted(t.count, t.base, pagesize, threshold);
    } else if t.Darray? {
      DarrayAccepted(t, pagesize, threshold);
    } else {
      var n := Blocks(t);
      BlocksAreSome(t);
      RunsInBlocks(t);
      BlocksAccepted(n, DecidedRun(t), t.base, pagesize, threshold);
    }
  }

  lemma BlocksAreSome(t: Type)
    requires GoodArguments(t) && Uniform(t) && !t.Contiguous? && !t.Darray? && NoZeros(t)
    ensures Blocks(t) > 0 && DecidedRun(t) > 0
  {
    if t.Subarray? {
      var dim := Fastest(t.order, |t.subsizes|);
      ProductOfPositive(t.subsizes[..dim] + t.subsizes[dim + 1..]);
    }
  }

  lemma SubarrayAccepted(t: Type, pagesize: nat, threshold: int)
    requires pagesize > 0 && WellFormed(t) && t.Subarray? && WellFormed(t.base)
    requires EnableDirectIo(t.base, pagesize, threshold) || NamedRunFits(t.base, DecidedRun(t), pagesize, threshold)
    ensures EnableDirectIo(t, pagesize, threshold)
  {
    assert GetContents(t).d == [t.base];
  }

  lemma DistributedAccepted(t: Type, pagesize: nat, threshold: int)
    requires pagesize > 0 && WellFormed(t) && t.Darray? && WellFormed(t.base)
    requires t.distribs[Fastest(t.order, |t.gsizes|)] in {DISTRIBUTE_NONE, DISTRIBUTE_BLOCK}
    requires EnableDirectIo(t.base, pagesize, threshold) || NamedRunFits(t.base, DecidedRun(t), pagesize, threshold)
    ensures EnableDirectIo(t, pagesize, threshold)
  {
    assert GetContents(t).d == [t.base];
  }

  /** Such a type is accepted once its base is, alone or in a row. */
  lemma UniformAccepted(t: Type, pagesize: nat, threshold: int)
    requires pagesize > 0 && WellFormed(t) && Uniform(t) && Solid(t) && WellFormed(t.base)
    requires EnableDirectIo(t.base, pagesize, threshold) || NamedRunFits(t.base, DecidedRun(t), pagesize, threshold)
    ensures EnableDirectIo(t, pagesize, threshold)
  {
    if t.Subarray? {
      SubarrayAccepted(t, pagesize, threshold);
    } else if t.Darray? {
      DistributedAccepted(t, pagesize, threshold);
    } else {
      assert GetContents(t).d[0] == t.base;
    }
  }

  /** A solid type whose runs all fit is accepted. */
  lemma {:induction false} EnableIsComplete(t: Type, pagesize: nat, threshold: int)
    requires pagesize > 0 && WellFormed(t) && Covered(t, pagesize, threshold) && SolidThroughout(t)
    requires AllFit(LeafRuns(t), pagesize, threshold)
    ensures EnableDirectIo(t, pagesize, threshold)
    decreases t, 1
  {
    if t.Named? {
      assert LeafRuns(t)[0] == t.size;
    } else if t.Struct? {
      MembersAccepted(t, |t.types|, pagesize, threshold);
    } else if t.Indexed? || t.Hindexed? {
      IndexedAccepted(t, t.lengths, t.base, pagesize, threshold);
    } else {
      assert GetContents(t).d[0] == t.base;
      assert WellFormed(t.base) && Covered(t.base, pagesize, threshold) && SolidThroughout(t.base);
      if t.Dup? {
        EnableIsComplete(t.base, pagesize, threshold);
      } else {
        UniformRuns(t, pagesize, threshold);
        if !t.base.Named? {
          EnableIsComplete(t.base, pagesize, threshold);
        }
        UniformAccepted(t, pagesize, threshold);
      }
    }
  }

  lemma {:induction false} IndexedAccepted(t: Type, lengths: seq<nat>, base: Type, pagesize: nat, threshold: int)
    requires pagesize > 0 && WellFormed(t) && Covered(t, pagesize, threshold) && SolidThroughout(t)
    requires t.Indexed? || t.Hindexed?
    requires lengths == t.lengths && base == t.base && AllFit(LeafRuns(t), pagesize, threshold)
    ensures EnableDirectIo(t, pagesize, threshold)
    decreases t, 0, 1
  {
    var i := GetContents(t).i;
    assert GetContents(t).d == [base];
    assert WellFormed(GetContents(t).d[0]) && Covered(GetContents(t).d[0], pagesize, threshold) && SolidThroughout(GetContents(t).d[0]);
    forall c | 1 <= c <= |lengths|
      ensures i[c] == lengths[c - 1]
      ensures if base.Named? then NamedRunFits(base, i[c], pagesize, threshold) else AllFit(LeafRuns(base), pagesize, threshold)
    {
      BlockListAccepted(lengths, base, c - 1, pagesize, threshold);
    }
    assert i[0] == |lengths| > 0;
    if !base.Named? {
      BlockListAccepted(lengths, base, 0, pagesize, threshold);
      EnableIsComplete(base, pagesize, threshold);
    }
  }

  lemma {:induction false} MembersAccepted(t: Type, n: nat, pagesize: nat, threshold: int)
    requires pagesize > 0 && WellFormed(t) && Covered(t, pagesize, threshold) && SolidThroughout(t) && t.Struct? && n <= |t.types|
    requires AllFit(Members(t, n), pagesize, threshold)
    ensures EnableStruct(t, n, pagesize, threshold)
    decreases t, 0, n
  {
    if n > 0 {
      var d := GetContents(t).d[n - 1];
      var before, block := Members(t, n - 1), Block(t.lengths[n - 1], d);
      assert Members(t, n) == before + block;
      assert forall k :: 0 <= k < |before| ==> Members(t, n)[k] == before[k];
      assert forall k :: 0 <= k < |block| ==> Members(t, n)[|before| + k] == block[k];
      MembersAccepted(t, n - 1, pagesize, threshold);
      BlockAccepted(t.lengths[n - 1], d, pagesize, threshold);
      if !d.Named? {
        EnableIsComplete(d, pagesize, threshold);
      }
    }
  }

  lemma DarrayAccepted(t: Type, pagesize: nat, threshold: int)
    requires pagesize > 0 && WellFormed(t) && t.Darray? && EvenBlocks(t) && Solid(t)
    requires WellFormed(t.base) && SolidThroughout(t.base)
    requires AllFit(LeafRuns(t), pagesize, threshold)
    ensures if t.base.Named? then NamedRunFits(t.base, DecidedRun(t), pagesize, threshold)
            else AllFit(LeafRuns(t.base), pagesize, threshold)
  {
    var dim := Fastest(t.order, |t.gsizes|);
    var pieces := Pieces(t, dim);
    RepeatHolds(OtherDims(t, |t.gsizes|), BlockList(pieces, t.base), pagesize, threshold);
    if t.distribs[dim] == DISTRIBUTE_BLOCK {
      EvenPiece(t.gsizes[dim], t.psizes[dim], t.dargs[dim], Coordinate(t.rank, t.psizes, dim));
    }
    assert Sum(pieces) == pieces[0] + Sum(pieces[1..]);
    BlockListAccepted(pieces, t.base, 0, pagesize, threshold);
  }

  /** On solid types with even blocks the decision is exact: accepted if and only if every run fits. */
  lemma EnableIsExact(t: Type, pagesize: nat, threshold: int)
    requires pagesize > 0 && WellFormed(t) && Covered(t, pagesize, threshold) && SolidThroughout(t)
    ensures EnableDirectIo(t, pagesize, threshold) <==> AllFit(LeafRuns(t), pagesize, threshold)
  {
    if EnableDirectIo(t, pagesize, threshold) {
      EnableIsSound(t, pagesize, threshold);
    }
    if AllFit(LeafRuns(t), pagesize, threshold) {
      EnableIsComplete(t, pagesize, threshold);
    }
  }

  // ----- exactly when an accepted type is sound -----

  lemma BlockHolds(n: nat, t: Type, pagesize: nat, threshold: int)
    requires pagesize > 0 && n > 0 && WellFormed(t) && !t.Named? && AllFit(Block(n, t), pagesize, threshold)
    ensures AllFit(LeafRuns(t), pagesize, threshold)
  {
    RepeatHolds(n, LeafRuns(t), pagesize, threshold);
  }

  lemma BlocksHold(m: nat, n: nat, t: Type, pagesize: nat, threshold: int)
    requires pagesize > 0 && m > 0 && n > 0 && WellFormed(t) && !t.Named?
    requires AllFit(Repeat(m, Block(n, t)), pagesize, threshold)
    ensures AllFit(LeafRuns(t), pagesize, threshold)
  {
    RepeatHolds(m, Block(n, t), pagesize, threshold);
    BlockHolds(n, t, pagesize, threshold);
  }

  lemma HalvesHold(a: seq<nat>, b: seq<nat>, pagesize: nat, threshold: int)
    requires pagesize > 0 && AllFit(a + b, pagesize, threshold)
    ensures AllFit(a, pagesize, threshold) && AllFit(b, pagesize, threshold)
  {
    assert forall i :: 0 <= i < |a| ==> (a + b)[i] == a[i];
    assert forall i :: 0 <= i < |b| ==> (a + b)[|a| + i] == b[i];
  }

  lemma {:induction false} BlockListHolds(lengths: seq<nat>, t: Type, k: nat, pagesize: nat, threshold: int)
    requires pagesize > 0 && WellFormed(t) && !t.Named? && k < |lengths| && lengths[k] > 0
    requires AllFit(BlockList(lengths, t), pagesize, threshold)
    ensures AllFit(LeafRuns(t), pagesize, threshold)
    decreases |lengths|
  {
    HalvesHold(Block(lengths[0], t), BlockList(lengths[1..], t), pagesize, threshold);
    if k == 0 {
      BlockHolds(lengths[0], t, pagesize, threshold);
    } else {
      BlockListHolds(lengths[1..], t, k - 1, pagesize, threshold);
    }
  }

  lemma {:induction false} MembersHold(t: Type, n: nat, k: nat, pagesize: nat, threshold: int)
    requires pagesize > 0 && WellFormed(t) && t.Struct? && k < n <= |t.types| && t.lengths[k] > 0
    requires WellFormed(t.types[k]) && !t.types[k].Named? && AllFit(Members(t, n), pagesize, threshold)
    ensures AllFit(LeafRuns(t.types[k]), pagesize, threshold)
    decreases n
  {
    assert WellFormed(GetContents(t).d[n - 1]);
    HalvesHold(Members(t, n - 1), Block(t.lengths[n - 1], t.types[n - 1]), pagesize, threshold);
    if k < n - 1 {
      MembersHold(t, n - 1, k, pagesize, threshold);
    } else {
      BlockHolds(t.lengths[k], t.types[k], pagesize, threshold);
    }
  }

  lemma {:induction false} SomePositive(s: seq<nat>) returns (k: nat)
    requires Sum(s) > 0
    ensures k < |s| && s[k] > 0
  {
    if s[0] > 0 {
      k := 0;
    } else {
      k := SomePositive(s[1..]);
      k := k + 1;
    }
  }

  /** Where all runs of a type fit, so do those of its base. */
  lemma BaseHolds(t: Type, pagesize: nat, threshold: int)
    requires pagesize > 0 && WellFormed(t) && NoZeros(t) && (t.Dup? || t.Indexed? || t.Hindexed? || Uniform(t))
    requires WellFormed(t.base) && !t.base.Named? && AllFit(LeafRuns(t), pagesize, threshold)
    ensures AllFit(LeafRuns(t.base), pagesize, threshold)
  {
    if t.Indexed? || t.Hindexed? {
      BlockListHolds(t.lengths, t.base, 0, pagesize, threshold);
    } else if t.Contiguous? {
      BlockHolds(t.count, t.base, pagesize, threshold);
    } else if t.Darray? {
      var pieces := Pieces(t, Fastest(t.order, |t.gsizes|));
      var k := SomePositive(pieces);
      RepeatHolds(OtherDims(t, |t.gsizes|), BlockList(pieces, t.base), pagesize, threshold);
      BlockListHolds(pieces, t.base, k, pagesize, threshold);
    } else if !t.Dup? {
      RunsInBlocks(t);
      BlocksAreSome(t);
      BlocksHold(Blocks(t), DecidedRun(t), t.base, pagesize, threshold);
    }
  }

  /** One block of predefined elements is one run. */
  lemma OneBlock(n: nat, t: Type)
    requires WellFormed(t) && t.Named?
    ensures BlockList([n], t) == if n == 0 || t.size == 0 then [] else [n * t.size]
  {
    if n > 0 && t.size > 0 {
      ProductCommutes(n, t.size);
    }
    assert BlockList([n], t) == Block(n, t) + [];
  }

  /** The runs of a block-distributed type: the process's block, as often as the other dimensions hold elements. */
  lemma OwnRuns(t: Type)
    requires WellFormed(t) && t.Darray? && WellFormed(t.base)
    requires t.distribs[Fastest(t.order, |t.gsizes|)] == DISTRIBUTE_BLOCK
    ensures LeafRuns(t) == Repeat(OtherDims(t, |t.gsizes|), BlockList([OwnPiece(t)], t.base))
  {
    assert Pieces(t, Fastest(t.order, |t.gsizes|)) == [OwnPiece(t)];
  }

  /** Its runs fit exactly when there are none or the block does. */
  lemma OwnRunsFit(t: Type, pagesize: nat, threshold: int)
    requires pagesize > 0 && WellFormed(t) && t.Darray? && WellFormed(t.base) && t.base.Named? && t.base.size > 0
    requires t.distribs[Fastest(t.order, |t.gsizes|)] == DISTRIBUTE_BLOCK
    ensures AllFit(LeafRuns(t), pagesize, threshold) <==>
            || OtherDims(t, |t.gsizes|) == 0 || OwnPiece(t) == 0
            || Fits(t.base.size * OwnPiece(t), pagesize, threshold)
  {
    var n, runs := OtherDims(t, |t.gsizes|), BlockList([OwnPiece(t)], t.base);
    OwnRuns(t);
    OneBlock(OwnPiece(t), t.base);
    if AllFit(LeafRuns(t), pagesize, threshold) && n > 0 {
      RepeatHolds(n, runs, pagesize, threshold);
      assert OwnPiece(t) > 0 ==> runs[0] == OwnPiece(t) * t.base.size;
    }
    if OwnPiece(t) == 0 || Fits(t.base.size * OwnPiece(t), pagesize, threshold) {
      RepeatFits(n, runs, pagesize, threshold);
    }
  }

  /** An accepted distribution whose runs all fit: the block it was accepted for does. */
  lemma OwnPieceFits(t: Type, pagesize: nat, threshold: int)
    requires pagesize > 0 && WellFormed(t) && t.Darray? && WellFormed(t.base) && NoZeros(t)
    requires EnableDirectIo(t, pagesize, threshold) && ByItsBlock(t, pagesize, threshold)
    requires AllFit(LeafRuns(t), pagesize, threshold)
    ensures OwnPiece(t) == 0 || Fits(t.base.size * OwnPiece(t), pagesize, threshold)
  {
    DarrayDecision(t, pagesize, threshold);
    OwnRunsFit(t, pagesize, threshold);
  }

  /** An accepted type whose runs all fit had nothing taken on trust wrongly. */
  lemma {:induction false} SoundIsRight(t: Type, pagesize: nat, threshold: int)
    requires pagesize > 0 && WellFormed(t) && NoZerosThroughout(t)
    requires t.Named? || (EnableDirectIo(t, pagesize, threshold) && AllFit(LeafRuns(t), pagesize, threshold))
    ensures Right(t, pagesize, threshold)
    decreases t
  {
    if ByItsBlock(t, pagesize, threshold) {
      assert GetContents(t).d[0] == t.base;
      OwnPieceFits(t, pagesize, threshold);
    }
    forall k | 0 <= k < |GetContents(t).d|
      ensures Right(GetContents(t).d[k], pagesize, threshold)
    {
      PartIsAccepted(t, k, pagesize, threshold);
      PartHolds(t, k, pagesize, threshold);
      SoundIsRight(GetContents(t).d[k], pagesize, threshold);
    }
  }

  lemma PartHolds(t: Type, k: nat, pagesize: nat, threshold: int)
    requires pagesize > 0 && WellFormed(t) && NoZeros(t) && k < |GetContents(t).d|
    requires EnableDirectIo(t, pagesize, threshold) && AllFit(LeafRuns(t), pagesize, threshold)
    ensures GetContents(t).d[k].Named? || AllFit(LeafRuns(GetContents(t).d[k]), pagesize, threshold)
  {
    if !GetContents(t).d[k].Named? {
      if t.Struct? {
        MembersHold(t, |t.types|, k, pagesize, threshold);
      } else {
        BaseHolds(t, pagesize, threshold);
      }
    }
  }

  /** An accepted type without zero counts is sound if and only if what was taken on trust is so. */
  lemma SoundExactly(t: Type, pagesize: nat, threshold: int)
    requires pagesize > 0 && WellFormed(t) && NoZerosThroughout(t) && EnableDirectIo(t, pagesize, threshold)
    ensures AllFit(LeafRuns(t), pagesize, threshold) <==> Right(t, pagesize, threshold)
  {
    if AllFit(LeafRuns(t), pagesize, threshold) {
      SoundIsRight(t, pagesize, threshold);
    }
    if Right(t, pagesize, threshold) {
      RightIsSound(t, pagesize, threshold);
    }
  }

  // ----- uneven blocks -----

  /** Every process's block of a dimension fits. */
  ghost predicate PiecesFit(size: nat, g: nat, p: nat, b: nat, pagesize: nat, threshold: int)
    requires pagesize > 0
  {
    forall r: nat :: r < p ==> BlockPiece(g, b, r) == 0 || Fits(size * BlockPiece(g, b, r), pagesize, threshold)
  }

  /**
   * All processes' blocks fit exactly when the full block does, if there is
   * one, and what is left over for the last process that gets any.
   */
  lemma PiecesFitExactly(size: nat, g: nat, p: nat, b: nat, pagesize: nat, threshold: int)
    requires pagesize > 0 && b > 0 && g <= b * p
    ensures PiecesFit(size, g, p, b, pagesize, threshold) <==>
            && (g >= b ==> Fits(size * b, pagesize, threshold))
            && (g % b != 0 ==> Fits(size * (g % b), pagesize, threshold))
  {
    var q, rest := g / b, g % b;
    assert g == q * b + rest;
    if rest != 0 {
      TimesMonotone(p, q, b);
      assert BlockPiece(g, b, q) == rest;
    }
    if g >= b {
      assert BlockPiece(g, b, 0) == b;
    }
    forall r: nat | r < p
      ensures BlockPiece(g, b, r) in {0, b, rest} && (BlockPiece(g, b, r) == b ==> g >= b)
    {
      PieceIs(g, b, r);
    }
  }

  lemma PieceIs(g: nat, b: nat, r: nat)
    requires b > 0
    ensures BlockPiece(g, b, r) == if r < g / b then b else if r == g / b then g % b else 0
    ensures BlockPiece(g, b, r) == b ==> g >= b
  {
    var q := g / b;
    assert g == q * b + g % b;
    assert g - b * r == (q - r) * b + g % b;
    assert b * r - g == (r - q) * b - g % b;
    if r < q {
      MulAtLeast(q - r, b);
      MulAtLeast(q, b);
      MulSign(r, b);
    } else if q < r {
      MulAtLeast(r - q, b);
    }
  }

  // ----- all processes -----

  /** The type as process r builds it. */
  function AsRank(t: Type, r: nat): Type
    requires t.Darray?
  {
    t.(rank := r)
  }

  lemma AsRankWellFormed(t: Type, r: nat)
    requires t.Darray? && WellFormed(t)
    ensures WellFormed(AsRank(t, r)) && WellFormed(t.base)
  {
    assert GetContents(AsRank(t, r)).d == GetContents(t).d == [t.base];
    assert WellFormed(GetContents(t).d[0]);
  }

  lemma {:induction false} ProductSplit(s: seq<nat>, k: nat)
    requires k <= |s|
    ensures Product(s) == Product(s[..k]) * Product(s[k..])
    decreases k
  {
    if k > 0 {
      ProductSplit(s[1..], k - 1);
      assert s[..k][1..] == s[1..][..k - 1] && s[1..][k - 1..] == s[k..];
      MulAssociates(s[0], Product(s[1..][..k - 1]), Product(s[k..]));
    } else {
      assert s[..0] == [] && s[0..] == s;
    }
  }

  lemma MulAssociates(a: nat, b: nat, c: nat)
    ensures a * (b * c) == (a * b) * c
  {
  }

  lemma ProductAt(s: seq<nat>, k: nat)
    requires k < |s|
    ensures Product(s[k..]) == s[k] * Product(s[k + 1..])
  {
    assert s[k..][1..] == s[k + 1..];
  }

  /** The first process whose coordinate in the fastest dimension is r; all its others are 0. */
  function RankAt(psizes: seq<nat>, dim: nat, r: nat): nat
    requires dim < |psizes|
  {
    r * Product(psizes[dim + 1..])
  }

  lemma RankAtIsARank(psizes: seq<nat>, dim: nat, r: nat)
    requires dim < |psizes| && r < psizes[dim] && forall j :: 0 <= j < |psizes| ==> psizes[j] > 0
    ensures RankAt(psizes, dim, r) < Product(psizes) && Coordinate(RankAt(psizes, dim, r), psizes, dim) == r
  {
    var after, before := Product(psizes[dim + 1..]), Product(psizes[..dim]);
    ProductPositive(psizes[dim + 1..]);
    ProductPositive(psizes[..dim]);
    ProductSplit(psizes, dim);
    ProductAt(psizes, dim);
    DivModUnique(r, after, 0);
    DivModUnique(0, psizes[dim], r);
    SmallerProduct(r, psizes[dim], after, before);
  }

  lemma SmallerProduct(r: nat, p: nat, after: nat, before: nat)
    requires r < p && after > 0 && before > 0
    ensures r * after < before * (p * after)
  {
    assert p * after == r * after + (p - r) * after;
    MulAtLeast(p - r, after);
    MulAtLeast(before, p * after);
  }

  /** Its other coordinates are 0: those of slower dimensions as the rank is small, those of faster ones as it is a multiple. */
  lemma OtherCoordinates(psizes: seq<nat>, dim: nat, r: nat, k: nat)
    requires dim < |psizes| && r < psizes[dim] && forall j :: 0 <= j < |psizes| ==> psizes[j] > 0
    requires k < |psizes| && k != dim && (dim == 0 || dim == |psizes| - 1)
    ensures Coordinate(RankAt(psizes, dim, r), psizes, k) == 0
  {
    var rest := Product(psizes[k + 1..]);
    ProductPositive(psizes[k + 1..]);
    if k < dim {
      var tail := psizes[k + 1..];
      assert psizes[dim + 1..] == [] && tail[dim - k - 1] == psizes[dim];
      ProductSplit(tail, dim - k - 1);
      ProductAt(tail, dim - k - 1);
      assert tail[dim - k..] == [];
      ProductPositive(tail[..dim - k - 1]);
      MulAtLeast(Product(tail[..dim - k - 1]), psizes[dim]);
      DivModUnique(0, rest, r);
      DivModUnique(0, psizes[k], 0);
    } else {
      var middle := psizes[1..][..k - 1];
      ProductSplit(psizes[1..], k - 1);
      assert psizes[1..][k - 1..] == psizes[k..];
      ProductAt(psizes, k);
      MultipleCoordinate(r, Product(middle), psizes[k], rest);
    }
  }

  lemma MultipleCoordinate(r: nat, m: nat, p: nat, rest: nat)
    requires p > 0 && rest > 0
    ensures (r * (m * (p * rest)) / rest) % p == 0
  {
    assert r * (m * (p * rest)) == ((r * m) * p) * rest;
    DivModUnique((r * m) * p, rest, 0);
    MultipleOf(r * m, p);
  }

  /** A process at coordinate 0 of a dimension holds some of it. */
  lemma FirstHoldsSome(t: Type, k: nat)
    requires t.Darray? && GoodArguments(t) && k < |t.gsizes| && t.gsizes[k] > 0
    requires Coordinate(t.rank, t.psizes, k) == 0
    ensures Sum(Pieces(t, k)) > 0
  {
    var g, p, darg := t.gsizes[k], t.psizes[k], t.dargs[k];
    if t.distribs[k] == DISTRIBUTE_BLOCK {
      BlockSizeCovers(g, p, darg);
    }
    var pieces := Pieces(t, k);
    assert pieces[0] > 0 && Sum(pieces) == pieces[0] + Sum(pieces[1..]);
  }

  lemma {:induction false} OthersHoldSome(t: Type, n: nat)
    requires t.Darray? && GoodArguments(t) && n <= |t.gsizes| && AllPositive(t.gsizes)
    requires forall k: nat :: k < n && k != Fastest(t.order, |t.gsizes|) ==> Coordinate(t.rank, t.psizes, k) == 0
    ensures OtherDims(t, n) > 0
    decreases n
  {
    if n > 0 {
      OthersHoldSome(t, n - 1);
      if n - 1 != Fastest(t.order, |t.gsizes|) {
        FirstHoldsSome(t, n - 1);
        MulPositive(OtherDims(t, n - 1), Sum(Pieces(t, n - 1)));
      }
    }
  }

  /** Every coordinate of the fastest dimension is that of a process that holds something of the other dimensions. */
  lemma SomeProcessAt(t: Type, r: nat) returns (rank: nat)
    requires t.Darray? && WellFormed(t) && AllPositive(t.gsizes) && r < t.psizes[Fastest(t.order, |t.gsizes|)]
    ensures rank < Product(t.psizes) && Coordinate(rank, t.psizes, Fastest(t.order, |t.gsizes|)) == r
    ensures GoodArguments(AsRank(t, rank)) && OtherDims(AsRank(t, rank), |t.gsizes|) > 0
  {
    var dim := Fastest(t.order, |t.gsizes|);
    rank := RankAt(t.psizes, dim, r);
    RankAtIsARank(t.psizes, dim, r);
    forall k: nat | k < |t.gsizes| && k != dim
      ensures Coordinate(rank, t.psizes, k) == 0
    {
      OtherCoordinates(t.psizes, dim, r, k);
    }
    OthersHoldSome(AsRank(t, rank), |t.gsizes|);
  }

  /** Every process's runs fit. */
  ghost predicate FitsForAll(t: Type, pagesize: nat, threshold: int)
    requires pagesize > 0 && t.Darray? && WellFormed(t)
  {
    forall r: nat :: r < Product(t.psizes) ==>
      WellFormed(AsRank(t, r)) && AllFit(LeafRuns(AsRank(t, r)), pagesize, threshold)
  }

  /** All processes' runs fit exactly when all blocks of the fastest dimension do. */
  lemma FitsForAllIs(t: Type, pagesize: nat, threshold: int)
    requires pagesize > 0 && WellFormed(t) && t.Darray? && t.base.Named? && t.base.size > 0 && AllPositive(t.gsizes)
    requires t.distribs[Fastest(t.order, |t.gsizes|)] == DISTRIBUTE_BLOCK
    ensures var dim := Fastest(t.order, |t.gsizes|);
            var g, p, darg := t.gsizes[dim], t.psizes[dim], t.dargs[dim];
            FitsForAll(t, pagesize, threshold) <==>
            PiecesFit(t.base.size, g, p, BlockSize(g, p, darg), pagesize, threshold)
  {
    var dim := Fastest(t.order, |t.gsizes|);
    var g, p, darg := t.gsizes[dim], t.psizes[dim], t.dargs[dim];
    var b := BlockSize(g, p, darg);
    if PiecesFit(t.base.size, g, p, b, pagesize, threshold) {
      forall r: nat | r < Product(t.psizes)
        ensures WellFormed(AsRank(t, r)) && AllFit(LeafRuns(AsRank(t, r)), pagesize, threshold)
      {
        AsRankWellFormed(t, r);
        OwnRunsFit(AsRank(t, r), pagesize, threshold);
        assert OwnPiece(AsRank(t, r)) == BlockPiece(g, b, Coordinate(r, t.psizes, dim));
      }
    }
    if FitsForAll(t, pagesize, threshold) {
      forall r: nat | r < p
        ensures BlockPiece(g, b, r) == 0 || Fits(t.base.size * BlockPiece(g, b, r), pagesize, threshold)
      {
        var rank := SomeProcessAt(t, r);
        AsRankWellFormed(t, rank);
        OwnRunsFit(AsRank(t, rank), pagesize, threshold);
        assert OwnPiece(AsRank(t, rank)) == BlockPiece(g, b, r);
      }
    }
  }

  /**
   * An accepted block distribution of a predefined type is right for every
   * process exactly when the block size MPI uses is the one looked at, or fits
   * too, and so does what is left over.
   */
  lemma BlockDecisionIsRight(t: Type, pagesize: nat, threshold: int)
    requires pagesize > 0 && WellFormed(t) && EnableDirectIo(t, pagesize, threshold)
    requires ByItsBlock(t, pagesize, threshold) && AllPositive(t.gsizes)
    ensures var dim := Fastest(t.order, |t.gsizes|);
            var g, p, darg, size := t.gsizes[dim], t.psizes[dim], t.dargs[dim], t.base.size;
            var b := BlockSize(g, p, darg);
            && b > 0
            && (FitsForAll(t, pagesize, threshold) <==>
                  && (b == DecidedBlock(g, p, darg) || g < b || Fits(size * b, pagesize, threshold))
                  && (g % b == 0 || Fits(size * (g % b), pagesize, threshold)))
  {
    var dim := Fastest(t.order, |t.gsizes|);
    var g, p, darg, size := t.gsizes[dim], t.psizes[dim], t.dargs[dim], t.base.size;
    AsRankWellFormed(t, t.rank);
    BlockSizeCovers(g, p, darg);
    DarrayDecision(t, pagesize, threshold);
    FitsForAllIs(t, pagesize, threshold);
    PiecesFitExactly(size, g, p, BlockSize(g, p, darg), pagesize, threshold);
  }

  lemma BlockSizeCovers(g: nat, p: nat, darg: int)
    requires p > 0 && g > 0 && (darg == DFLT_DARG || (darg > 0 && g <= darg * p))
    ensures BlockSize(g, p, darg) > 0 && g <= BlockSize(g, p, darg) * p
  {
    if darg == DFLT_DARG {
      var b := (g + p - 1) / p;
      assert g + p - 1 == b * p + (g + p - 1) % p;
    }
  }

  function UnevenType(): Type {
    Darray(3, 0, [1572865], [DISTRIBUTE_BLOCK], [DFLT_DARG], [3], ORDER_C, Named(1))
  }

  /** A default block of 2^19 bytes is accepted though the first process holds one byte more. */
  lemma UnevenBlocksMislead()
    ensures WellFormed(UnevenType()) && EnableDirectIo(UnevenType(), 4096, 524288)
    ensures LeafRuns(UnevenType()) == [524289] && !Fits(524289, 4096, 524288)
  {
    UnevenIsWellFormed();
    UnevenIsAccepted();
    UnevenRuns();
  }

  lemma UnevenIsWellFormed()
    ensures WellFormed(UnevenType()) && WellFormed(Named(1))
  {
    assert GetContents(UnevenType()).d == [Named(1)];
    assert WellFormed(Named(1));
  }

  lemma UnevenIsAccepted()
    requires WellFormed(UnevenType()) && WellFormed(Named(1))
    ensures EnableDirectIo(UnevenType(), 4096, 524288)
  {
    assert NamedRunFits(Named(1), DecidedRun(UnevenType()), 4096, 524288);
    DistributedAccepted(UnevenType(), 4096, 524288);
  }

  lemma UnevenRuns()
    requires WellFormed(UnevenType()) && WellFormed(Named(1))
    ensures LeafRuns(UnevenType()) == [524289]
  {
    var t := UnevenType();
    var runs: seq<nat> := [524289];
    assert Coordinate(0, [3], 0) == 0;
    assert Pieces(t, 0) == runs;
    assert BlockList(runs, Named(1)) == Block(524289, Named(1)) == runs;
    assert OtherDims(t, 1) == OtherDims(t, 0) == 1;
    assert Repeat(1, runs) == runs + Repeat(0, runs);
  }

  /** A constructor outside the switch is accepted though its one byte is no page. */
  lemma UnlistedMisleads()
    ensures var t := Contiguous(1, Other([1]));
            WellFormed(t) && EnableDirectIo(t, 4096, 524288) && LeafRuns(t) == [1] && !Fits(1, 4096, 524288)
  {
    var t: Type := Contiguous(1, Other([1]));
    assert GetContents(t).d == [Other([1])] && GetContents(t).i == [1];
    assert WellFormed(Other([1]));
    assert Repeat(1, [1]) == [1] + Repeat(0, [1]);
  }

  // ----- sizes -----

  function Times(a: nat, b: nat): nat {
    a * b
  }

  lemma TimesDistributes(a: nat, b: nat, c: nat)
    ensures Times(a + b, c) == Times(a, c) + Times(b, c)
  {
  }

  lemma TimesMonotone(a: nat, b: nat, c: nat)
    ensures a <= b ==> a * c <= b * c
  {
    if a <= b {
      assert b * c - a * c == Times(b - a, c);
    }
  }

  /** The size of a type by MPI's own arithmetic on its arguments. */
  function SizeOf(t: Type): nat
    requires WellFormed(t)
    decreases t, 1
  {
    assert GetContents(t).d != [] ==> WellFormed(GetContents(t).d[0]);
    match t
    case Named(size) => size
    case Dup(base) => SizeOf(base)
    case Contiguous(count, base) => Times(count, SizeOf(base))
    case Vector(count, blocklength, _, base) => Times(count, Times(blocklength, SizeOf(base)))
    case Hvector(count, blocklength, base) => Times(count, Times(blocklength, SizeOf(base)))
    case Indexed(lengths, _, base) => Times(Sum(lengths), SizeOf(base))
    case Hindexed(lengths, base) => Times(Sum(lengths), SizeOf(base))
    case IndexedBlock(blocklength, displacements, base) => Times(|displacements|, Times(blocklength, SizeOf(base)))
    case HindexedBlock(count, blocklength, base) => Times(count, Times(blocklength, SizeOf(base)))
    case Struct(_, types) => MembersSize(t, |types|)
    case Subarray(_, subsizes, _, order, base) =>
      var dim := Fastest(order, |subsizes|);
      Times(Product(subsizes[..dim] + subsizes[dim + 1..]), Times(subsizes[dim], SizeOf(base)))
    case Darray(_, _, gsizes, _, _, _, order, base) =>
      Times(OtherDims(t, |gsizes|), Times(Sum(Pieces(t, Fastest(order, |gsizes|))), SizeOf(base)))
    case F90(size) => size
    case Resized(base) => SizeOf(base)
    case Other(runs) => Sum(runs)
  }

  function MembersSize(t: Type, n: nat): nat
    requires WellFormed(t) && t.Struct? && n <= |t.types|
    decreases t, 0, n
  {
    if n == 0 then 0
    else
      assert WellFormed(GetContents(t).d[n - 1]);
      MembersSize(t, n - 1) + Times(t.lengths[n - 1], SizeOf(t.types[n - 1]))
  }

  lemma {:induction false} SumAppend(a: seq<nat>, b: seq<nat>)
    ensures Sum(a + b) == Sum(a) + Sum(b)
  {
    if a == [] {
      assert a + b == b;
    } else {
      assert (a + b)[1..] == a[1..] + b;
      SumAppend(a[1..], b);
    }
  }

  lemma {:induction false} SumRepeat(n: nat, runs: seq<nat>)
    ensures Sum(Repeat(n, runs)) == Times(n, Sum(runs))
  {
    if n > 0 {
      SumAppend(runs, Repeat(n - 1, runs));
      SumRepeat(n - 1, runs);
      TimesDistributes(n - 1, 1, Sum(runs));
    }
  }

  lemma BlockSum(n: nat, t: Type)
    requires WellFormed(t) && Sum(LeafRuns(t)) == SizeOf(t)
    ensures Sum(Block(n, t)) == Times(n, SizeOf(t))
  {
    if t.Named? {
      assert Block(n, t) != [] ==> Block(n, t)[1..] == [];
    } else {
      SumRepeat(n, LeafRuns(t));
    }
  }

  lemma {:induction false} BlockListSum(lengths: seq<nat>, t: Type)
    requires WellFormed(t) && Sum(LeafRuns(t)) == SizeOf(t)
    ensures Sum(BlockList(lengths, t)) == Times(Sum(lengths), SizeOf(t))
    decreases |lengths|
  {
    if lengths != [] {
      BlockSum(lengths[0], t);
      BlockListSum(lengths[1..], t);
      SumAppend(Block(lengths[0], t), BlockList(lengths[1..], t));
      TimesDistributes(lengths[0], Sum(lengths[1..]), SizeOf(t));
    }
  }

  lemma BlocksSum(n: nat, blocklength: nat, t: Type)
    requires WellFormed(t) && Sum(LeafRuns(t)) == SizeOf(t)
    ensures Sum(Repeat(n, Block(blocklength, t))) == Times(n, Times(blocklength, SizeOf(t)))
  {
    BlockSum(blocklength, t);
    SumRepeat(n, Block(blocklength, t));
  }

  /** The runs of a type add up to its size. */
  lemma {:induction false} RunsAddUp(t: Type)
    requires WellFormed(t)
    ensures Sum(LeafRuns(t)) == SizeOf(t)
    decreases t, 1
  {
    if GetContents(t).d != [] && !t.Struct? {
      RunsAddUp(GetContents(t).d[0]);
    }
    match t
    case Named(size) => assert LeafRuns(t) != [] ==> LeafRuns(t)[1..] == [];
    case F90(size) => assert LeafRuns(t) != [] ==> LeafRuns(t)[1..] == [];
    case Dup(_) =>
    case Resized(_) =>
    case Other(_) =>
    case Contiguous(count, base) => BlockSum(count, base);
    case Vector(count, blocklength, _, base) => BlocksSum(count, blocklength, base);
    case Hvector(count, blocklength, base) => BlocksSum(count, blocklength, base);
    case IndexedBlock(blocklength, displacements, base) => BlocksSum(|displacements|, blocklength, base);
    case HindexedBlock(count, blocklength, base) => BlocksSum(count, blocklength, base);
    case Indexed(lengths, _, base) => BlockListSum(lengths, base);
    case Hindexed(lengths, base) => BlockListSum(lengths, base);
    case Struct(_, types) => MembersSum(t, |types|);
    case Subarray(_, subsizes, _, order, base) =>
      var dim := Fastest(order, |subsizes|);
      BlocksSum(Product(subsizes[..dim] + subsizes[dim + 1..]), subsizes[dim], base);
    case Darray(_, _, gsizes, _, _, _, order, base) =>
      var pieces := Pieces(t, Fastest(order, |gsizes|));
      BlockListSum(pieces, base);
      SumRepeat(OtherDims(t, |gsizes|), BlockList(pieces, base));
  }

  lemma {:induction false} MembersSum(t: Type, n: nat)
    requires WellFormed(t) && t.Struct? && n <= |t.types|
    ensures Sum(Members(t, n)) == MembersSize(t, n)
    decreases t, 0, n
  {
    if n > 0 {
      var d := GetContents(t).d[n - 1];
      RunsAddUp(d);
      MembersSum(t, n - 1);
      BlockSum(t.lengths[n - 1], d);
      SumAppend(Members(t, n - 1), Block(t.lengths[n - 1], d));
    }
  }

  lemma {:induction false} SumOfMultiples(runs: seq<nat>, pagesize: nat)
    requires pagesize > 0 && forall k :: 0 <= k < |runs| ==> runs[k] % pagesize == 0
    ensures Sum(runs) % pagesize == 0
  {
    if runs != [] {
      SumOfMultiples(runs[1..], pagesize);
      MultipleSum(runs[0], Sum(runs[1..]), pagesize);
    }
  }

  /** An accepted type that is sound holds whole pages. */
  lemma AcceptedSizeIsPages(t: Type, pagesize: nat, threshold: int)
    requires pagesize > 0 && WellFormed(t) && Right(t, pagesize, threshold) && EnableDirectIo(t, pagesize, threshold)
    ensures SizeOf(t) % pagesize == 0
  {
    RightIsSound(t, pagesize, threshold);
    SumOfMultiples(LeafRuns(t), pagesize);
    RunsAddUp(t);
  }

  // ----- runs that touch -----

  /** The runs with the given numbers. */
  function Picked(runs: seq<nat>, ks: seq<nat>): seq<nat>
    requires forall i :: 0 <= i < |ks| ==> ks[i] < |runs|
  {
    seq(|ks|, i requires 0 <= i < |ks| => runs[ks[i]])
  }

  /** Whichever runs touch and are taken together, the longer run of an accepted type fits as well. */
  lemma MergedRunsFit(t: Type, pagesize: nat, threshold: int, ks: seq<nat>)
    requires pagesize > 0 && WellFormed(t) && Right(t, pagesize, threshold) && EnableDirectIo(t, pagesize, threshold)
    requires ks != [] && forall i :: 0 <= i < |ks| ==> ks[i] < |LeafRuns(t)|
    ensures Fits(Sum(Picked(LeafRuns(t), ks)), pagesize, threshold)
  {
    var picked := Picked(LeafRuns(t), ks);
    RightIsSound(t, pagesize, threshold);
    SumOfMultiples(picked, pagesize);
    assert Sum(picked) == picked[0] + Sum(picked[1..]);
  }

  /** The other way fails: two halves of a large enough run are turned down, each by itself. */
  lemma TouchingRunsAreTurnedDown()
    ensures var t := Contiguous(2, Contiguous(262144, Named(1)));
            && WellFormed(t) && LeafRuns(t) == [262144, 262144] && Fits(Sum(LeafRuns(t)), 4096, 524288)
            && !EnableDirectIo(t, 4096, 524288)
  {
    var base: Type := Contiguous(262144, Named(1));
    var t: Type := Contiguous(2, base);
    HalfIsTurnedDown();
    assert GetContents(t).d == [base] && GetContents(t).i == [2];
    var half: seq<nat> := [262144];
    assert Repeat(2, half) == half + Repeat(1, half) && Repeat(1, half) == half + Repeat(0, half);
    assert Repeat(2, half)[1..] == half && half[1..] == [];
  }

  lemma HalfIsTurnedDown()
    ensures var t := Contiguous(262144, Named(1));
            WellFormed(t) && LeafRuns(t) == [262144] && !EnableDirectIo(t, 4096, 524288)
  {
    var t: Type := Contiguous(262144, Named(1));
    assert WellFormed(Named(1)) && !EnableDirectIo(Named(1), 4096, 524288);
    assert GetContents(t).d == [Named(1)] && GetContents(t).i == [262144];
  }
}
