/**
 * All destination files at once, and jobs that replay into them: what a job
 * leaves after any number of its bytes, and when the order of jobs matters.
 */
module Disk {
  import opened AddressMap
  import opened Storage
  import opened Replay

  type Place = (seq<byte>, int)

  /** The bytes of every destination file, by path and offset. */
  type Disk = map<Place, byte>

  /** A handed-over staging file: where it goes, through which view, and its bytes. */
  datatype Job = Job(dest: seq<byte>, view: View, etypeSize: nat, bytes: seq<byte>)

  ghost predicate GoodJob(j: Job) {
    ViewSize(j.view) > 0 && j.etypeSize > 0
  }

  ghost predicate GoodJobs(jobs: seq<Job>) {
    forall i :: 0 <= i < |jobs| ==> GoodJob(jobs[i])
  }

  /** Where n bytes from stream byte s of a view of a file are written. */
  function Places(dest: seq<byte>, v: View, s: nat, n: nat): (r: seq<Place>)
    requires ViewSize(v) > 0
    ensures |r| == n
    ensures forall i :: 0 <= i < n ==> r[i] == (dest, Addr(v, s + i))
  {
    seq(n, i requires 0 <= i => (dest, Addr(v, s + i)))
  }

  /** How many bytes of the job are to be replayed: its whole etypes. */
  function Limit(j: Job): (n: nat)
    requires GoodJob(j)
    ensures n <= |j.bytes|
  {
    Whole(|j.bytes|, j.etypeSize)
  }

  /** The disk after the first p bytes of the job. */
  function ReplayTo(d: Disk, j: Job, p: nat): Disk
    requires GoodJob(j) && p <= |j.bytes|
  {
    WriteAt(d, Places(j.dest, j.view, 0, p), j.bytes[..p])
  }

  ghost predicate WithinBytes(jobs: seq<Job>, progress: seq<nat>) {
    GoodJobs(jobs) && |progress| == |jobs| && forall i :: 0 <= i < |jobs| ==> progress[i] <= |jobs[i].bytes|
  }

  /** The disk after the first progress[i] bytes of each job i, job after job. */
  ghost function ReplayAll(d: Disk, jobs: seq<Job>, progress: seq<nat>): Disk
    requires WithinBytes(jobs, progress)
  {
    if jobs == [] then d
    else ReplayTo(ReplayAll(d, jobs[..|jobs| - 1], progress[..|jobs| - 1]), jobs[|jobs| - 1], progress[|jobs| - 1])
  }

  ghost function Limits(jobs: seq<Job>): (r: seq<nat>)
    requires GoodJobs(jobs)
    ensures |r| == |jobs| && forall i :: 0 <= i < |jobs| ==> r[i] == Limit(jobs[i])
  {
    seq(|jobs|, i requires 0 <= i < |jobs| => Limit(jobs[i]))
  }

  /** The jobs run one after another, each to its end. */
  ghost function RunInOrder(d: Disk, jobs: seq<Job>): Disk
    requires GoodJobs(jobs)
  {
    ReplayAll(d, jobs, Limits(jobs))
  }

  /** No byte of one job goes where a byte of the other goes. */
  ghost predicate Disjoint(a: Job, b: Job)
    requires GoodJob(a) && GoodJob(b)
  {
    a.dest != b.dest || forall s: nat, t: nat :: s < |a.bytes| && t < |b.bytes| ==> Addr(a.view, s) != Addr(b.view, t)
  }

  // ----- writes to different places commute -----

  lemma {:induction false} ByteCommutes<K>(d: map<K, byte>, addrs: seq<K>, data: seq<byte>, k: K, b: byte)
    requires |addrs| == |data| && k !in addrs
    ensures WriteAt(d[k := b], addrs, data) == WriteAt(d, addrs, data)[k := b]
    decreases |data|
  {
    if data != [] {
      ByteCommutes(d, addrs[..|data| - 1], data[..|data| - 1], k, b);
    }
  }

  lemma {:induction false} WritesCommute<K>(d: map<K, byte>, a1: seq<K>, d1: seq<byte>, a2: seq<K>, d2: seq<byte>)
    requires |a1| == |d1| && |a2| == |d2|
    requires forall i, j :: 0 <= i < |a1| && 0 <= j < |a2| ==> a1[i] != a2[j]
    ensures WriteAt(WriteAt(d, a1, d1), a2, d2) == WriteAt(WriteAt(d, a2, d2), a1, d1)
    decreases |d1|
  {
    if d1 != [] {
      var n := |d1| - 1;
      WritesCommute(d, a1[..n], d1[..n], a2, d2);
      ByteCommutes(WriteAt(d, a1[..n], d1[..n]), a2, d2, a1[n], d1[n]);
    }
  }

  lemma DisjointPlaces(a: Job, b: Job, s: nat, n: nat, t: nat, m: nat)
    requires GoodJob(a) && GoodJob(b) && Disjoint(a, b) && s + n <= |a.bytes| && t + m <= |b.bytes|
    ensures forall i, j :: 0 <= i < n && 0 <= j < m ==> Places(a.dest, a.view, s, n)[i] != Places(b.dest, b.view, t, m)[j]
  {
  }

  /** The next n bytes of a job that has replayed p. */
  function Continue(d: Disk, j: Job, p: nat, n: nat): Disk
    requires GoodJob(j) && p + n <= |j.bytes|
  {
    WriteAt(d, Places(j.dest, j.view, p, n), j.bytes[p..p + n])
  }

  lemma ReplayContinues(d: Disk, j: Job, p: nat, n: nat)
    requires GoodJob(j) && p + n <= |j.bytes|
    ensures ReplayTo(d, j, p + n) == Continue(ReplayTo(d, j, p), j, p, n)
  {
    assert Places(j.dest, j.view, 0, p + n) == Places(j.dest, j.view, 0, p) + Places(j.dest, j.view, p, n);
    assert j.bytes[..p + n] == j.bytes[..p] + j.bytes[p..p + n];
    WriteAtSplit(d, Places(j.dest, j.view, 0, p), Places(j.dest, j.view, p, n), j.bytes[..p], j.bytes[p..p + n]);
  }

  /** A later job that has not begun, or does not meet the chunk, does not mind when the chunk is written. */
  lemma ChunkPassesJob(d: Disk, a: Job, p: nat, n: nat, b: Job, q: nat)
    requires GoodJob(a) && GoodJob(b) && p + n <= |a.bytes| && q <= |b.bytes|
    requires q == 0 || Disjoint(a, b)
    ensures ReplayTo(Continue(d, a, p, n), b, q) == Continue(ReplayTo(d, b, q), a, p, n)
  {
    if q > 0 {
      DisjointPlaces(a, b, p, n, 0, q);
      WritesCommute(d, Places(a.dest, a.view, p, n), a.bytes[p..p + n], Places(b.dest, b.view, 0, q), b.bytes[..q]);
    }
  }

  /** Later jobs either have not begun or do not meet job id. */
  ghost predicate OutOfTheWay(jobs: seq<Job>, progress: seq<nat>, id: nat)
    requires GoodJobs(jobs) && |progress| == |jobs| && id < |jobs|
  {
    forall k :: id < k < |jobs| ==> progress[k] == 0 || Disjoint(jobs[id], jobs[k])
  }

  function Advance(progress: seq<nat>, id: nat, n: nat): seq<nat>
    requires id < |progress|
  {
    progress[id := progress[id] + n]
  }

  lemma AdvanceWithin(jobs: seq<Job>, progress: seq<nat>, id: nat, n: nat)
    requires WithinBytes(jobs, progress) && id < |jobs| && progress[id] + n <= |jobs[id].bytes|
    ensures WithinBytes(jobs, Advance(progress, id, n))
  {
  }

  lemma LastJobContinues(d: Disk, jobs: seq<Job>, progress: seq<nat>, n: nat)
    requires jobs != [] && WithinBytes(jobs, progress)
    requires progress[|jobs| - 1] + n <= |jobs[|jobs| - 1].bytes|
    requires WithinBytes(jobs, Advance(progress, |jobs| - 1, n))
    ensures ReplayAll(d, jobs, Advance(progress, |jobs| - 1, n))
         == Continue(ReplayAll(d, jobs, progress), jobs[|jobs| - 1], progress[|jobs| - 1], n)
  {
    var last := |jobs| - 1;
    assert Advance(progress, last, n)[..last] == progress[..last];
    ReplayContinues(ReplayAll(d, jobs[..last], progress[..last]), jobs[last], progress[last], n);
  }

  lemma FrontOutOfTheWay(jobs: seq<Job>, progress: seq<nat>, id: nat, last: nat)
    requires WithinBytes(jobs, progress) && id < last && |jobs| == last + 1 && OutOfTheWay(jobs, progress, id)
    ensures WithinBytes(jobs[..last], progress[..last]) && OutOfTheWay(jobs[..last], progress[..last], id)
    ensures progress[last] == 0 || Disjoint(jobs[id], jobs[last])
  {
  }

  /** What holds for the jobs before the last carries over to all of them. */
  lemma LaterJobAdded(d: Disk, jobs: seq<Job>, progress: seq<nat>, id: nat, n: nat, last: nat)
    requires WithinBytes(jobs, progress) && id < last && |jobs| == last + 1
    requires progress[id] + n <= |jobs[id].bytes| && WithinBytes(jobs, Advance(progress, id, n))
    requires progress[last] == 0 || Disjoint(jobs[id], jobs[last])
    requires WithinBytes(jobs[..last], progress[..last])
    requires WithinBytes(jobs[..last], Advance(progress[..last], id, n))
    requires ReplayAll(d, jobs[..last], Advance(progress[..last], id, n))
          == Continue(ReplayAll(d, jobs[..last], progress[..last]), jobs[id], progress[id], n)
    ensures ReplayAll(d, jobs, Advance(progress, id, n))
         == Continue(ReplayAll(d, jobs, progress), jobs[id], progress[id], n)
  {
    assert Advance(progress, id, n)[..last] == Advance(progress[..last], id, n);
    ChunkPassesJob(ReplayAll(d, jobs[..last], progress[..last]), jobs[id], progress[id], n, jobs[last], progress[last]);
  }

  /** A chunk of job id written now could have been written in its turn. */
  lemma {:induction false} ChunkInItsTurn(d: Disk, jobs: seq<Job>, progress: seq<nat>, id: nat, n: nat)
    requires WithinBytes(jobs, progress) && id < |jobs|
    requires OutOfTheWay(jobs, progress, id) && progress[id] + n <= |jobs[id].bytes|
    ensures WithinBytes(jobs, Advance(progress, id, n))
    ensures ReplayAll(d, jobs, Advance(progress, id, n))
         == Continue(ReplayAll(d, jobs, progress), jobs[id], progress[id], n)
    decreases |jobs|
  {
    var last := |jobs| - 1;
    AdvanceWithin(jobs, progress, id, n);
    if id == last {
      LastJobContinues(d, jobs, progress, n);
    } else {
      FrontOutOfTheWay(jobs, progress, id, last);
      ChunkInItsTurn(d, jobs[..last], progress[..last], id, n);
      LaterJobAdded(d, jobs, progress, id, n, last);
    }
  }

  lemma {:induction false} NothingReplayed(d: Disk, jobs: seq<Job>, progress: seq<nat>)
    requires WithinBytes(jobs, progress) && forall i :: 0 <= i < |jobs| ==> progress[i] == 0
    ensures ReplayAll(d, jobs, progress) == d
  {
    if jobs != [] {
      NothingReplayed(d, jobs[..|jobs| - 1], progress[..|jobs| - 1]);
    }
  }

  // ----- one file of the disk -----

  /** f is the file at path dest. */
  ghost predicate IsFile(d: Disk, dest: seq<byte>, f: File) {
    forall a: int {:trigger (dest, a)} {:trigger a in f} ::
      (a in f <==> (dest, a) in d) && (a in f ==> f[a] == d[(dest, a)])
  }

  function FileOf(d: Disk, dest: seq<byte>): File {
    map k | k in d && k.0 == dest :: k.1 := d[k]
  }

  lemma FileOfIsFile(d: Disk, dest: seq<byte>)
    ensures IsFile(d, dest, FileOf(d, dest))
  {
    var f := FileOf(d, dest);
    forall a: int
      ensures (a in f <==> (dest, a) in d) && (a in f ==> f[a] == d[(dest, a)])
    {
      if (dest, a) in d {
        assert (dest, a).0 == dest && (dest, a).1 == a;
      }
    }
  }

  lemma IsFileUnique(d: Disk, dest: seq<byte>, f: File, g: File)
    requires IsFile(d, dest, f) && IsFile(d, dest, g)
    ensures f == g
  {
    forall a: int
      ensures a in f <==> a in g
      ensures a in f ==> f[a] == g[a]
    {
      assert a in f <==> (dest, a) in d;
    }
  }

  lemma UpdateFile(d: Disk, dest: seq<byte>, f: File, path: seq<byte>, a: int, b: byte)
    requires IsFile(d, dest, f)
    ensures IsFile(d[(path, a) := b], dest, if path == dest then f[a := b] else f)
  {
    var e, g := d[(path, a) := b], if path == dest then f[a := b] else f;
    forall x: int
      ensures (x in g <==> (dest, x) in e) && (x in g ==> g[x] == e[(dest, x)])
    {
      assert x in f <==> (dest, x) in d;
    }
  }

  lemma ReplayToLast(d: Disk, j: Job, n: nat)
    requires GoodJob(j) && n < |j.bytes|
    ensures ReplayTo(d, j, n + 1) == ReplayTo(d, j, n)[(j.dest, Addr(j.view, n)) := j.bytes[n]]
  {
    assert Places(j.dest, j.view, 0, n + 1)[..n] == Places(j.dest, j.view, 0, n);
    assert j.bytes[..n + 1][..n] == j.bytes[..n];
  }

  /** Replaying a job is the write through its view of its destination file, and of no other. */
  lemma {:induction false} ReplayOnFile(d: Disk, f: File, j: Job, p: nat, dest: seq<byte>)
    requires GoodJob(j) && p <= |j.bytes| && IsFile(d, dest, f)
    ensures IsFile(ReplayTo(d, j, p), dest, if j.dest == dest then WriteView(f, j.view, 0, j.bytes[..p]) else f)
    decreases p
  {
    if p == 0 {
      assert ReplayTo(d, j, 0) == d;
    } else {
      var n := p - 1;
      var g := if j.dest == dest then WriteView(f, j.view, 0, j.bytes[..n]) else f;
      ReplayOnFile(d, f, j, n, dest);
      ReplayToLast(d, j, n);
      UpdateFile(ReplayTo(d, j, n), dest, g, j.dest, Addr(j.view, n), j.bytes[n]);
      WriteViewLast(f, j.view, 0, j.bytes[..p], n);
      assert j.bytes[..p][..n] == j.bytes[..n];
    }
  }
}
