/** Cluster map entries (struct vs_map) and what the pager does to a map of them.

    A bit field of a map entry is modelled as the set of its one bits.  The functions
    here work on the map as a plain sequence indexed by cluster number; module Vstructs
    shows that the direct and two-level layouts of the source behave like it.  With clusters
    of cls pages, page p is page Rem(p, cls) of cluster Quot(p, cls). */
module ClusterMaps {
  import opened Arith

  const ENTRY_NULL: nat := 0x7fffff  // VSM_ENTRY_NULL

  /** cloff doubles as the error number of an entry in error (VSM_SETERR). */
  datatype Entry = Entry(cloff: nat, ps: nat, error: bool, bmap: set<nat>, alloc: set<nat>)

  const ClearEntry := Entry(ENTRY_NULL, 0, false, {}, {})

  predicate IsClr(e: Entry) { e.cloff == ENTRY_NULL && !e.error }

  predicate IsErr(e: Entry) { e.error }

  /** An entry that owns a cluster. */
  predicate Live(e: Entry) { !IsClr(e) && !IsErr(e) }

  /** A cluster of a paging segment. */
  datatype Loc = Loc(ps: nat, cloff: nat)

  function LocOf(e: Entry): Loc { Loc(e.ps, e.cloff) }

  /** The bits i, i+1, ..., i+n-1. */
  function Bits(i: nat, n: nat): (bits: set<nat>)
    ensures forall j: nat :: j in bits <==> i <= j < i + n
  {
    if n == 0 then {} else Bits(i, n - 1) + {i + n - 1}
  }

  /** Entries missing from the map read as clear. */
  function At(m: seq<Entry>, k: nat): Entry { if k < |m| then m[k] else ClearEntry }

  /** ps_map_extend on the flat map. */
  function Extended(m: seq<Entry>, size: nat): (r: seq<Entry>)
    ensures |r| == if |m| < size then size else |m|
    ensures forall k: nat :: At(r, k) == At(m, k)
  {
    if size <= |m| then m else m + seq(size - |m|, _ => ClearEntry)
  }

  /** The CL_ALLOC part of ps_clmap on one entry: take over a cluster if there is none,
      then mark the pages about to be written. */
  function Allocated(e: Entry, loc: Loc, bits: set<nat>): Entry {
    var e1 := if IsClr(e) then Entry(loc.cloff, loc.ps, false, {}, {}) else e;
    e1.(alloc := e1.alloc + bits)
  }

  /** A write of these pages has completed without error. */
  function Completed(e: Entry, bits: set<nat>): Entry { e.(bmap := e.bmap + bits) }

  /** ps_clunmap on one entry. */
  function Unmapped(e: Entry, bits: set<nat>): Entry {
    if IsClr(e) then e
    else
      var e1 := e.(bmap := e.bmap - bits, alloc := e.alloc - bits);
      if e1.alloc == {} then ClearEntry else e1
  }

  /** How many of the next max pages, from bit i on, agree with bit i. */
  function RunLength(bmap: set<nat>, i: nat, max: nat): (n: nat)
    ensures n <= max && (max > 0 ==> n > 0)
    ensures forall j | i <= j < i + n :: j in bmap <==> i in bmap
    ensures n < max ==> (i + n in bmap <==> i !in bmap)
  {
    if max == 0 then 0 else 1 + SameFrom(bmap, i + 1, max - 1, i in bmap)
  }

  function SameFrom(bmap: set<nat>, i: nat, max: nat, v: bool): (n: nat)
    ensures n <= max
    ensures forall j | i <= j < i + n :: j in bmap <==> v
    ensures n < max ==> (i + n in bmap <==> !v)
    decreases max
  {
    if max == 0 || (i in bmap) != v then 0 else 1 + SameFrom(bmap, i + 1, max - 1, v)
  }

  /** Pages p .. p+n-1 of one cluster are exactly n bits of one entry. */
  lemma {:induction false} ChunkPages(cls: nat, p: nat, n: nat, q: nat)
    requires cls > 0 && Rem(p, cls) + n <= cls
    ensures p <= q < p + n <==> (Quot(q, cls) == Quot(p, cls) && Rem(q, cls) in Bits(Rem(p, cls), n))
    ensures p <= q < p + n ==> Rem(q, cls) == Rem(p, cls) + (q - p)
    decreases p
  {
    if p >= cls && q >= cls { ChunkPages(cls, p - cls, n, q - cls); }
  }

  // ----- unmapping a range -----

  /** ps_clunmap on the flat map, cluster by cluster. */
  function UnmapFrom(m: seq<Entry>, cls: nat, lo: nat, hi: nat): (r: seq<Entry>)
    requires cls > 0
    ensures |r| == |m|
    decreases hi - lo
  {
    if lo >= hi then m
    else
      var k, n := Quot(lo, cls), Min(hi - lo, cls - Rem(lo, cls));
      var m1 := if k < |m| then m[k := Unmapped(m[k], Bits(Rem(lo, cls), n))] else m;
      UnmapFrom(m1, cls, lo + n, hi)
  }

  /** A clear entry has no bits, valid pages are allocated pages, and an entry that owns a
      cluster has an allocated page. */
  predicate EntryOk(e: Entry) {
    && (IsClr(e) ==> e == ClearEntry)
    && (Live(e) ==> e.bmap <= e.alloc && e.alloc != {})
  }

  ghost predicate EntriesOk(m: seq<Entry>) { forall k: nat :: EntryOk(At(m, k)) }

  /** What unmapping pages lo .. hi-1 means, page by page: exactly these pages lose their valid
      and allocated bits, and a cluster is kept exactly while one of its pages is allocated. */
  lemma {:induction false} UnmapPages(m: seq<Entry>, cls: nat, lo: nat, hi: nat, q: nat)
    requires cls > 0 && EntriesOk(m)
    ensures var e, e' := At(m, Quot(q, cls)), At(UnmapFrom(m, cls, lo, hi), Quot(q, cls));
            !IsErr(e) ==>
              && (Rem(q, cls) in e'.bmap <==> Rem(q, cls) in e.bmap && !(lo <= q < hi))
              && (Rem(q, cls) in e'.alloc <==> Rem(q, cls) in e.alloc && !(lo <= q < hi))
              && EntryOk(e') && !IsErr(e') && (Live(e') ==> Live(e) && LocOf(e') == LocOf(e))
    decreases hi - lo
  {
    var kq := Quot(q, cls);
    assert EntryOk(At(m, kq));
    if lo < hi {
      var k, n := Quot(lo, cls), Min(hi - lo, cls - Rem(lo, cls));
      var m1 := if k < |m| then m[k := Unmapped(m[k], Bits(Rem(lo, cls), n))] else m;
      assert EntryOk(At(m, k));
      forall j: nat ensures EntryOk(At(m1, j)) { assert EntryOk(At(m, j)); }
      ChunkPages(cls, lo, n, q);
      UnmapPages(m1, cls, lo + n, hi, q);
    }
  }

  /** Unmapping pages of an entry in two goes is unmapping them in one. */
  lemma UnmapTwice(e: Entry, i: nat, n: nat, n': nat)
    ensures Unmapped(Unmapped(e, Bits(i, n)), Bits(i + n, n')) == Unmapped(e, Bits(i, n + n'))
  {
    assert Bits(i, n + n') == Bits(i, n) + Bits(i + n, n');
  }

  /** The first n pages of a range, if they lie in one cluster, may be unmapped first. */
  lemma UnmapSplit(m: seq<Entry>, cls: nat, lo: nat, hi: nat, n: nat)
    requires cls > 0 && 0 < n && Rem(lo, cls) + n <= cls && lo + n <= hi && Quot(lo, cls) < |m|
    ensures var k := Quot(lo, cls);
            UnmapFrom(m, cls, lo, hi) == UnmapFrom(m[k := Unmapped(m[k], Bits(Rem(lo, cls), n))], cls, lo + n, hi)
  {
    var k, i := Quot(lo, cls), Rem(lo, cls);
    var all := Min(hi - lo, cls - i);
    var m1 := m[k := Unmapped(m[k], Bits(i, n))];
    if n == all {
      UnmapStep(m, cls, lo, hi, k, i, n, m1, lo + n);
    } else {
      UnmapInside(m, cls, lo, hi, n, k, i, all, m1);
    }
  }

  lemma UnmapInside(m: seq<Entry>, cls: nat, lo: nat, hi: nat, n: nat, k: nat, i: nat, all: nat, m1: seq<Entry>)
    requires cls > 0 && lo < hi && k == Quot(lo, cls) < |m| && i == Rem(lo, cls) && 0 < n < all == Min(hi - lo, cls - i)
    requires m1 == m[k := Unmapped(m[k], Bits(i, n))]
    ensures UnmapFrom(m, cls, lo, hi) == UnmapFrom(m1, cls, lo + n, hi)
  {
    var m2, end := m[k := Unmapped(m[k], Bits(i, all))], lo + all;
    ChunkPages(cls, lo, all, lo + n);
    UnmapTwice(m[k], i, n, all - n);
    UnmapStep(m, cls, lo, hi, k, i, all, m2, end);
    UnmapStep(m1, cls, lo + n, hi, k, i + n, all - n, m2, end);
  }

  lemma UnmapStep(m: seq<Entry>, cls: nat, lo: nat, hi: nat, k: nat, i: nat, n: nat, m': seq<Entry>, lo': nat)
    requires cls > 0 && lo < hi && k == Quot(lo, cls) < |m| && i == Rem(lo, cls) && n == Min(hi - lo, cls - i)
    requires m' == m[k := Unmapped(m[k], Bits(i, n))] && lo' == lo + n
    ensures UnmapFrom(m, cls, lo, hi) == UnmapFrom(m', cls, lo', hi)
  {
  }
}
