/** `BufferPool` of src/network/protocol.ts (and its copy in
    public/lib/protocol.js): free buffers of seven fixed sizes, at most 1000
    of each, handed out last-in first-out. A pooled buffer keeps whatever
    bytes it held when it was released. */
module BufferPools {
  import opened Bytes

  const PoolSizes: seq<nat> := [128, 256, 512, 1024, 2048, 4096, 8192]
  const MaxPoolSize: nat := 1000

  /** The free lists, by buffer size. */
  datatype Pool = Pool(free: map<nat, seq<seq<Byte>>>)

  /** Only pool sizes have free lists, each holds at most 1000 buffers, and
      every buffer in a list has the list's size. */
  predicate PoolValid(p: Pool) {
    forall size :: size in p.free ==>
      size in PoolSizes && |p.free[size]| <= MaxPoolSize
      && forall k :: 0 <= k < |p.free[size]| ==> |p.free[size][k]| == size
  }

  /** `POOL_SIZES.find((s) => s >= minSize) || minSize`. */
  function SizeFor(minSize: nat): (size: nat)
    ensures size >= minSize
    ensures minSize <= 8192 ==> size in PoolSizes
    ensures forall k :: 0 <= k < |PoolSizes| && PoolSizes[k] >= minSize ==> size <= PoolSizes[k]
    ensures minSize > 8192 ==> size == minSize
  {
    assert minSize <= 8192 ==> PoolSizes[6] >= minSize;
    SizesIncreasing();
    FirstAtLeast(PoolSizes, minSize)
  }

  lemma SizesIncreasing()
    ensures forall i, j :: 0 <= i < j < |PoolSizes| ==> PoolSizes[i] < PoolSizes[j]
  {
    forall i, j | 0 <= i < j < |PoolSizes|
      ensures PoolSizes[i] < PoolSizes[j]
    {
      assert forall k :: 0 <= k < 6 ==> PoolSizes[k] < PoolSizes[k + 1];
      if j > i + 1 {
        assert PoolSizes[i] < PoolSizes[i + 1];
      }
    }
  }

  /** The first element of `sizes` that is at least `minSize`, else `minSize`. */
  function FirstAtLeast(sizes: seq<nat>, minSize: nat): (r: nat)
    ensures r >= minSize
    ensures (exists k :: 0 <= k < |sizes| && sizes[k] >= minSize) ==> r in sizes
    ensures (forall k :: 0 <= k < |sizes| ==> sizes[k] < minSize) ==> r == minSize
    ensures (forall i, j :: 0 <= i < j < |sizes| ==> sizes[i] < sizes[j]) ==>
      forall k :: 0 <= k < |sizes| && sizes[k] >= minSize ==> r <= sizes[k]
  {
    if |sizes| == 0 then minSize
    else if sizes[0] >= minSize then sizes[0]
    else FirstAtLeast(sizes[1..], minSize)
  }

  function Zeros(n: nat): (bs: seq<Byte>)
    ensures |bs| == n && forall k :: 0 <= k < n ==> bs[k] == 0
  {
    seq(n, _ => 0)
  }

  /** `BufferPool.acquire`: the last free buffer of the chosen size, or a
      fresh zero-filled one when there is none. */
  function Acquire(p: Pool, minSize: nat): (r: (Pool, seq<Byte>))
    requires PoolValid(p)
    ensures |r.1| == SizeFor(minSize)
    ensures PoolValid(r.0)
    ensures |Free(p, SizeFor(minSize))| == 0 ==> r == (p, Zeros(SizeFor(minSize)))
    ensures |Free(p, SizeFor(minSize))| > 0 ==>
      var list := Free(p, SizeFor(minSize));
      r.1 == list[|list| - 1] && Free(r.0, SizeFor(minSize)) == list[..|list| - 1]
    ensures forall size :: size != SizeFor(minSize) ==> Free(r.0, size) == Free(p, size)
  {
    var size := SizeFor(minSize);
    if size !in p.free || |p.free[size]| == 0 then (p, Zeros(size))
    else
      var list := p.free[size];
      PopValid(p, size);
      (Pool(p.free[size := list[..|list| - 1]]), list[|list| - 1])
  }

  lemma PopValid(p: Pool, size: nat)
    requires PoolValid(p) && size in p.free && |p.free[size]| > 0
    ensures PoolValid(Pool(p.free[size := p.free[size][..|p.free[size]| - 1]]))
    ensures |p.free[size][|p.free[size]| - 1]| == size
  {
  }

  /** `BufferPool.release`: keeps a buffer of a pool size while its list
      holds fewer than 1000 buffers; drops any other. */
  function Release(p: Pool, buf: seq<Byte>): (r: Pool)
    ensures PoolValid(p) ==> PoolValid(r)
    ensures |buf| !in PoolSizes ==> r == p
    ensures |buf| in PoolSizes && |Free(p, |buf|)| < MaxPoolSize ==> Free(r, |buf|) == Free(p, |buf|) + [buf]
    ensures |Free(p, |buf|)| >= MaxPoolSize ==> r == p
    ensures forall size :: size != |buf| ==> Free(r, size) == Free(p, size)
  {
    var size := |buf|;
    if size !in PoolSizes then p
    else
      var list := Free(p, size);
      if |list| < MaxPoolSize then Pool(p.free[size := list + [buf]]) else p
  }

  /** The free list of one size; an absent list is empty. */
  function Free(p: Pool, size: nat): seq<seq<Byte>> {
    if size in p.free then p.free[size] else []
  }

  /** Releasing a buffer and acquiring one of the same size hands back that
      very buffer, when the list had room. */
  lemma ReleaseThenAcquire(p: Pool, buf: seq<Byte>)
    requires PoolValid(p) && |buf| in PoolSizes && |Free(p, |buf|)| < MaxPoolSize
    ensures Acquire(Release(p, buf), |buf|).1 == buf
  {
    var n := |buf|;
    PoolSizeIsOwnSize(n);
    var p1 := Release(p, buf);
    var list := Free(p1, n);
    assert list == Free(p, n) + [buf];
    assert list[|list| - 1] == buf;
    assert Acquire(p1, n).1 == list[|list| - 1];
  }

  lemma PoolSizeIsOwnSize(size: nat)
    requires size in PoolSizes
    ensures SizeFor(size) == size
  {
  }
}
