/** The cluster map of a memory object as it is laid out: a direct map of up to CLMAP_ENTRIES
    entries, or a table of pointers to blocks of CLMAP_ENTRIES entries.  Every operation is
    shown to act on the flat map of module ClusterMaps. */
module Vstructs {
  import opened Options
  import opened Arith
  import opened ClusterMaps
  import opened MapOwnership
  import opened Pageins
  import opened PagingSpaces
  import Physical
  import opened Segments

  /** CLMAP_THRESHOLD / sizeof(struct vs_map) = 512 / 8. */
  const CLMAP_ENTRIES: nat := 64

  type Block = b: seq<Entry> | |b| == CLMAP_ENTRIES witness seq(CLMAP_ENTRIES, _ => ClearEntry)

  /** INDIRECT_CLMAP: the direct map would exceed CLMAP_THRESHOLD bytes. */
  predicate IsIndirect(size: nat) { size * 8 > 512 }

  /** INDIRECT_CLMAP_ENTRIES. */
  function TableSize(size: nat): nat
    requires size > 0
  {
    (size - 1) / CLMAP_ENTRIES + 1
  }

  /** A map of up to CLMAP_ENTRIES clusters is direct; a larger one has just enough blocks. */
  lemma Layout(size: nat)
    requires size > 0
    ensures IsIndirect(size) <==> size > CLMAP_ENTRIES
    ensures CLMAP_ENTRIES * (TableSize(size) - 1) < size <= CLMAP_ENTRIES * TableSize(size)
  {
    assert size - 1 == CLMAP_ENTRIES * ((size - 1) / CLMAP_ENTRIES) + (size - 1) % CLMAP_ENTRIES;
  }

  /** Fresh memory from kalloc: n entries with arbitrary contents. */
  function Memory(n: nat, garbage: nat -> Entry): (r: seq<Entry>)
    ensures |r| == n
  {
    seq(n, garbage)
  }

  /** Entry k of a two-level map; a missing block reads as clear. */
  function TableAt(table: seq<Option<Block>>, k: nat): Entry {
    var b := k / CLMAP_ENTRIES;
    if b < |table| && table[b].Some? then table[b].value[k % CLMAP_ENTRIES] else ClearEntry
  }

  function Present(table: seq<Option<Block>>): (r: seq<bool>)
    ensures |r| == |table| && forall b | 0 <= b < |table| :: r[b] == table[b].Some?
  {
    seq(|table|, b requires 0 <= b < |table| => table[b].Some?)
  }

  predicate HasBlock(blocks: Option<seq<bool>>, k: nat) {
    blocks.Some? ==> k / CLMAP_ENTRIES < |blocks.value| && blocks.value[k / CLMAP_ENTRIES]
  }

  /** Where ps_clunmap stops: at the end of the range or at the first missing block. */
  ghost function StopPage(blocks: Option<seq<bool>>, cls: nat, lo: nat, hi: nat): nat
    requires cls > 0
    decreases hi - lo
  {
    if lo >= hi then hi
    else if !HasBlock(blocks, Quot(lo, cls)) then lo
    else StopPage(blocks, cls, lo + Min(hi - lo, cls - Rem(lo, cls)), hi)
  }

  /** What is left of an unmapping at page cur: the rest of the range gives the goal. */
  ghost predicate Remains(m: seq<Entry>, blocks: Option<seq<bool>>, cls: nat, cur: nat, hi: nat, stop: nat,
                          goal: seq<Entry>)
    requires cls > 0
  {
    StopPage(blocks, cls, cur, hi) == stop && UnmapFrom(m, cls, cur, stop) == goal
  }

  lemma StopSplit(blocks: Option<seq<bool>>, cls: nat, cur: nat, hi: nat, n: nat)
    requires cls > 0 && 0 < n && Rem(cur, cls) + n <= cls && cur + n <= hi && HasBlock(blocks, Quot(cur, cls))
    ensures StopPage(blocks, cls, cur, hi) == StopPage(blocks, cls, cur + n, hi)
  {
    var all := Min(hi - cur, cls - Rem(cur, cls));
    if n < all { ChunkPages(cls, cur, all, cur + n); }
  }

  /** Unmapping n pages of one cluster leaves the rest of the range to do. */
  lemma RemainsNext(m: seq<Entry>, blocks: Option<seq<bool>>, cls: nat, cur: nat, hi: nat, stop: nat,
                    goal: seq<Entry>, n: nat)
    requires cls > 0 && 0 < n && Rem(cur, cls) + n <= cls && cur + n <= hi && HasBlock(blocks, Quot(cur, cls))
    requires Quot(cur, cls) < |m| && Remains(m, blocks, cls, cur, hi, stop, goal)
    ensures var k := Quot(cur, cls);
            Remains(m[k := Unmapped(m[k], Bits(Rem(cur, cls), n))], blocks, cls, cur + n, hi, stop, goal)
  {
    StopSplit(blocks, cls, cur, hi, n);
    StopBound(blocks, cls, cur, hi);
    UnmapSplit(m, cls, cur, stop, n);
  }

  lemma StopHere(m: seq<Entry>, blocks: Option<seq<bool>>, cls: nat, cur: nat, hi: nat, stop: nat, goal: seq<Entry>)
    requires cls > 0 && Remains(m, blocks, cls, cur, hi, stop, goal)
    requires cur >= hi || !HasBlock(blocks, Quot(cur, cls))
    ensures m == goal
  {
  }

  lemma {:induction false} StopBound(blocks: Option<seq<bool>>, cls: nat, lo: nat, hi: nat)
    requires cls > 0 && lo <= hi
    ensures lo <= StopPage(blocks, cls, lo, hi) <= hi
    ensures lo < hi && HasBlock(blocks, Quot(lo, cls)) ==>
            lo + Min(hi - lo, cls - Rem(lo, cls)) <= StopPage(blocks, cls, lo, hi)
    decreases hi - lo
  {
    if lo < hi && HasBlock(blocks, Quot(lo, cls)) { StopBound(blocks, cls, lo + Min(hi - lo, cls - Rem(lo, cls)), hi); }
  }

  /** Page q lies inside the map, in an entry that is not in error. */
  predicate MappableAt(m: seq<Entry>, cls: nat, q: nat)
    requires cls > 0
  {
    Quot(q, cls) < |m| && !IsErr(m[Quot(q, cls)])
  }

  ghost predicate Mappable(m: seq<Entry>, cls: nat, lo: nat, hi: nat)
    requires cls > 0
  {
    forall q: nat | lo <= q < hi :: MappableAt(m, cls, q)
  }

  lemma MappableStays(m: seq<Entry>, k: nat, e: Entry, cls: nat, lo: nat, lo': nat, hi: nat)
    requires cls > 0 && Mappable(m, cls, lo, hi) && lo <= lo' && k < |m| && (IsErr(e) ==> IsErr(m[k]))
    ensures Mappable(m[k := e], cls, lo', hi)
  {
    var m' := m[k := e];
    forall q: nat | lo' <= q < hi ensures MappableAt(m', cls, q) { assert MappableAt(m, cls, q); }
  }

  /** What ps_clmap tells its caller: cl_error, or the page address in the segment, the pages
      up to the end of the cluster and the valid bits shifted to start at the given page. */
  datatype Lookup = Missing | InError(error: nat) | Found(ps: nat, page: nat, npages: nat, valid: set<nat>)

  /** CLMAP_SHIFT: the n bits from i on, moved down to start at 0. */
  function Shifted(bits: set<nat>, i: nat, n: nat): (r: set<nat>)
    ensures forall j: nat :: j in r <==> j < n && i + j in bits
  {
    if n == 0 then {} else Shifted(bits, i, n - 1) + (if i + n - 1 in bits then {n - 1} else {})
  }

  function Here(e: Entry, cls: nat, i: nat): Lookup
    requires i <= cls
  {
    Found(e.ps, PageAddr(e, cls, i), cls - i, Shifted(e.bmap, i, cls - i))
  }

  function FoundIn(m: seq<Entry>, cls: nat, p: nat): Lookup
    requires cls > 0
  {
    var e, i := At(m, Quot(p, cls)), Rem(p, cls);
    if IsErr(e) then InError(e.cloff)
    else if IsClr(e) then Missing
    else Here(e, cls, i)
  }

  /** Page address page of a segment is the byte offset of page i of cluster cloff. */
  ghost predicate AtOffset(page: nat, clshift: nat, cloff: nat, i: nat) {
    forall pageShift: nat :: AtByte(page, pageShift, clshift, cloff, i)
  }

  ghost predicate AtByte(page: nat, pageShift: nat, clshift: nat, cloff: nat, i: nat) {
    page * Pow2(pageShift) == Physical.ByteOffset(pageShift, clshift, cloff, i)
  }

  ghost predicate ValidFrom(valid: set<nat>, bmap: set<nat>, i: nat, n: nat) {
    forall j: nat :: j in valid <==> j < n && i + j in bmap
  }

  /** What a caller may rely on: a found page lies in the segment of its entry, at the byte
      offset of page i of the entry's cluster; npages reaches to the end of the cluster; and
      bit j of valid is the valid bit of the j-th page from there on. */
  ghost predicate Locates(r: Lookup, e: Entry, clshift: nat, i: nat) {
    r.Found? ==>
      && r.ps == e.ps && i + r.npages == Pow2(clshift) && ValidFrom(r.valid, e.bmap, i, r.npages)
      && AtOffset(r.page, clshift, e.cloff, i)
  }

  lemma HereLocates(e: Entry, clshift: nat, i: nat)
    requires i <= Pow2(clshift)
    ensures Locates(Here(e, Pow2(clshift), i), e, clshift, i)
  {
    forall pageShift: nat ensures AtByte(PageAddr(e, Pow2(clshift), i), pageShift, clshift, e.cloff, i) {
      Physical.AddrBytes(e, pageShift, clshift, i);
    }
  }

  /** The cursors move exactly if the entry had no cluster, as in the selection made for it. */
  ghost predicate CursorStep(e: Entry, segs: seq<Option<Segment>>, count: nat, c: seq<int>, shift: nat, r: Lookup,
                             d: seq<int>)
    requires |c| == MAXPRI + 1
  {
    if IsClr(e) then Moved(segs, count, c, shift, if r.Found? then Some(r.ps) else None, d) else d == c
  }

  class Vstruct {
    const cls: nat                 // VSCLSIZE: pages per cluster, 1 << vs_clshift
    const clshift: nat             // vs_clshift
    var size: nat                  // vs_size, in clusters
    var indirect: bool
    var dmap: seq<Entry>
    var table: seq<Option<Block>>

    ghost predicate Valid()
      reads this
    {
      && cls == Pow2(clshift) && size > 0
      && indirect == IsIndirect(size)
      && if indirect then |table| == TableSize(size) && forall k: nat | k >= size :: TableAt(table, k) == ClearEntry
         else |dmap| == size
    }

    function EntryAt(k: nat): Entry
      reads this
    {
      if indirect then TableAt(table, k) else At(dmap, k)
    }

    /** The map this layout stands for. */
    ghost function Flat(): (m: seq<Entry>)
      reads this
      requires Valid()
      ensures |m| == size
      ensures forall k: nat | k < size :: m[k] == EntryAt(k)
    {
      if indirect then seq(size, k requires 0 <= k < size reads this => TableAt(table, k)) else dmap
    }

    /** ps_vstruct_create: npages is atop(round_page(size)).  The direct map comes from kalloc
        with arbitrary contents. */
    constructor (npages: nat, clshift: nat, garbage: seq<Entry>, space: PagingSpace)
      requires npages > 0 && |garbage| == (npages - 1) / Pow2(clshift) + 1
      modifies space`committed
      ensures Valid() && this.clshift == clshift
      ensures size == (npages - 1) / cls + 1 && forall k: nat | k < size :: Flat()[k] == ClearEntry
      ensures space.committed == old(space.committed) + size
    {
      this.cls, this.clshift := Pow2(clshift), clshift;
      var n := (npages - 1) / Pow2(clshift) + 1;
      size, indirect := n, IsIndirect(n);
      var d, t := garbage, [];
      if IsIndirect(n) {
        t := seq(TableSize(n), _ => None);
      } else {
        for i := 0 to n
          invariant |d| == n && forall k | 0 <= k < i :: d[k] == ClearEntry
        {
          d := d[i := ClearEntry];
        }
      }
      dmap, table := d, t;
      space.committed := space.committed + n;
    }

    /** ps_map_extend.  tableOk and blockOk say whether kalloc succeeds. */
    method MapExtend(newSize: nat, tableOk: bool, blockOk: bool, garbage: seq<Entry>, space: PagingSpace)
        returns (ok: bool)
      requires Valid() && |garbage| == if IsIndirect(newSize) then CLMAP_ENTRIES else newSize
      modifies this`size, this`indirect, this`dmap, this`table, space`committed
      ensures Valid()
      ensures ok ==> Flat() == Extended(old(Flat()), newSize)
      ensures !ok ==> unchanged(this) && (!tableOk || !blockOk)
      ensures space.committed == old(space.committed) + size - old(size)
    {
      if size >= newSize { return true; }
      ghost var m := Extended(Flat(), newSize);
      if IsIndirect(newSize) {
        if indirect && TableSize(newSize) == TableSize(size) {
          space.committed := space.committed + newSize - size;
          size := newSize;
          assert Flat() == m;
          return true;
        }
        if !tableOk || (!indirect && !blockOk) { return false; }
        table := NewTable(newSize, garbage);
        indirect := true;
      } else {
        if !blockOk { return false; }
        dmap := FillBlock(garbage);
      }
      space.committed := space.committed + newSize - size;
      size := newSize;
      assert Flat() == m;
      return true;
    }

    /** The table for newSize clusters, with everything the map holds now. */
    method NewTable(newSize: nat, garbage: seq<Entry>) returns (t: seq<Option<Block>>)
      requires Valid() && IsIndirect(newSize) && size < newSize && |garbage| == CLMAP_ENTRIES
      ensures |t| == TableSize(newSize) && forall k: nat :: TableAt(t, k) == EntryAt(k)
    {
      t := seq(TableSize(newSize), _ => None);
      if indirect {
        t := table + t[|table|..];
      } else {
        var block := FillBlock(garbage);
        var b: Block := block;
        t := t[0 := Some(b)];
      }
    }

    /** Copy the old direct map into fresh memory and clear the rest. */
    method FillBlock(garbage: seq<Entry>) returns (block: seq<Entry>)
      requires Valid() && !indirect && size <= |garbage|
      ensures |block| == |garbage| && forall k: nat :: At(block, k) == At(dmap, k)
    {
      block := dmap + garbage[size..];
      var i := size;
      while i < |block|
        invariant size <= i <= |block| == |garbage| && block[..size] == dmap
        invariant forall k | size <= k < i :: block[k] == ClearEntry
      {
        block := block[i := ClearEntry];
        i := i + 1;
      }
    }

    /** Which blocks of the table have been allocated; none is missing from a direct map. */
    function Blocks(): Option<seq<bool>>
      reads this
    {
      if indirect then Some(Present(table)) else None
    }

    /** Store through the entry pointer vsmap. */
    method SetEntry(k: nat, e: Entry)
      requires Valid() && k < size && HasBlock(Blocks(), k)
      modifies this`dmap, this`table
      ensures Valid() && Flat() == old(Flat())[k := e]
      ensures Blocks() == old(Blocks())
    {
      ghost var m := Flat()[k := e];
      if indirect {
        var block := table[k / CLMAP_ENTRIES].value;
        table := table[k / CLMAP_ENTRIES := Some(block[k % CLMAP_ENTRIES := e])];
        assert Present(table) == Present(old(table));
        forall j: nat ensures TableAt(table, j) == if j == k then e else TableAt(old(table), j) {
          assert j == k <==> j / CLMAP_ENTRIES == k / CLMAP_ENTRIES && j % CLMAP_ENTRIES == k % CLMAP_ENTRIES;
        }
      } else {
        dmap := dmap[k := e];
      }
      assert Flat() == m;
    }

    /** One turn of ps_clunmap: the n pages from bit i on of entry k; the cluster goes back
        with its last allocated page. */
    method UnmapCluster(k: nat, i: nat, n: nat, space: PagingSpace)
      requires Valid() && space.Valid() && k < size && HasBlock(Blocks(), k) && !IsErr(EntryAt(k)) && i + n <= cls
      requires Owns(Flat(), space.segs)
      modifies this`dmap, this`table, space`segs, space`cursor
      ensures Valid() && space.Valid() && Owns(Flat(), space.segs)
      ensures Flat() == old(Flat())[k := Unmapped(old(Flat())[k], Bits(i, n))]
      ensures Freed(old(Flat()), old(space.segs), Flat(), space.segs)
      ensures Blocks() == old(Blocks())
    {
      var e := EntryAt(k);
      ghost var m := Flat();
      assert At(m, k) == e && OwnedAt(m, space.segs, k);
      if IsClr(e) {
        assert m == m[k := e];
        SameOwned(m, k, e, space.segs);
        return;
      }
      var e' := e;
      for j := i to i + n
        invariant e' == e.(bmap := e.bmap - Bits(i, j - i), alloc := e.alloc - Bits(i, j - i))
      {
        e' := e'.(bmap := e'.bmap - {j}, alloc := e'.alloc - {j});
      }
      if e'.alloc == {} {
        space.DeallocateCluster(LocOf(e));
        DropOwned(m, k, ClearEntry, old(space.segs), space.segs);
        SetEntry(k, ClearEntry);
      } else {
        SameOwned(m, k, e', space.segs);
        SetEntry(k, e');
      }
    }

    /** One turn of the loop of ps_clunmap at page cur: a page of a clear entry is skipped,
        otherwise the pages of this cluster that are in range are unmapped. */
    method UnmapTurn(cur: nat, length: nat, space: PagingSpace) returns (n: nat)
      requires Valid() && space.Valid() && Owns(Flat(), space.segs) && length > 0
      requires HasBlock(Blocks(), Quot(cur, cls)) && MappableAt(Flat(), cls, cur)
      modifies this`dmap, this`table, space`segs, space`cursor
      ensures Valid() && space.Valid() && Owns(Flat(), space.segs) && Blocks() == old(Blocks())
      ensures Freed(old(Flat()), old(space.segs), Flat(), space.segs)
      ensures Turned(old(Flat()), Flat(), cls, cur, length, n)
    {
      var k := Quot(cur, cls);
      if IsClr(EntryAt(k)) {
        FreedNone(Flat(), space.segs);
        assert Flat() == Flat()[k := Unmapped(Flat()[k], Bits(Rem(cur, cls), 1))];
        return 1;
      }
      n := Min(length, cls - Rem(cur, cls));
      UnmapCluster(k, Rem(cur, cls), n, space);
    }

    /** One turn, seen from the whole range. */
    method UnmapNext(cur: nat, length: nat, ghost stop: nat, ghost goal: seq<Entry>, space: PagingSpace)
        returns (cur': nat, length': nat)
      requires Valid() && space.Valid() && Owns(Flat(), space.segs) && length > 0
      requires HasBlock(Blocks(), Quot(cur, cls)) && Mappable(Flat(), cls, cur, cur + length)
      requires Remains(Flat(), Blocks(), cls, cur, cur + length, stop, goal)
      modifies this`dmap, this`table, space`segs, space`cursor
      ensures Valid() && space.Valid() && Owns(Flat(), space.segs) && length' < length && cur' + length' == cur + length
      ensures Blocks() == old(Blocks()) && Freed(old(Flat()), old(space.segs), Flat(), space.segs)
      ensures Mappable(Flat(), cls, cur', cur' + length')
      ensures Remains(Flat(), Blocks(), cls, cur', cur' + length', stop, goal)
    {
      ghost var m := Flat();
      assert MappableAt(m, cls, cur);
      var n := UnmapTurn(cur, length, space);
      TurnKeeps(m, Flat(), Blocks(), cls, cur, length, stop, goal, n);
      cur', length' := cur + n, length - n;
    }

    /** ps_clunmap of the n pages from lo on. */
    method Clunmap(lo: nat, n: nat, space: PagingSpace)
      requires Valid() && space.Valid() && Mappable(Flat(), cls, lo, lo + n) && Owns(Flat(), space.segs)
      modifies this`dmap, this`table, space`segs, space`cursor
      ensures Valid() && space.Valid() && Owns(Flat(), space.segs)
      ensures Blocks() == old(Blocks()) && Freed(old(Flat()), old(space.segs), Flat(), space.segs)
      ensures Flat() == UnmapFrom(old(Flat()), cls, lo, StopPage(old(Blocks()), cls, lo, lo + n))
    {
      ghost var stop := StopPage(Blocks(), cls, lo, lo + n);
      UnmapAll(lo, n, stop, UnmapFrom(Flat(), cls, lo, stop), space);
    }

    method UnmapAll(lo: nat, n: nat, ghost stop: nat, ghost goal: seq<Entry>, space: PagingSpace)
      requires Valid() && space.Valid() && Mappable(Flat(), cls, lo, lo + n) && Owns(Flat(), space.segs)
      requires Remains(Flat(), Blocks(), cls, lo, lo + n, stop, goal)
      modifies this`dmap, this`table, space`segs, space`cursor
      ensures Valid() && space.Valid() && Owns(Flat(), space.segs) && Flat() == goal
      ensures Blocks() == old(Blocks()) && Freed(old(Flat()), old(space.segs), Flat(), space.segs)
    {
      var cur, length: nat := lo, n;
      ghost var blocks, m0, s0 := Blocks(), Flat(), space.segs;
      FreedNone(m0, s0);
      while length > 0 && HasBlock(Blocks(), Quot(cur, cls))
        invariant Valid() && space.Valid() && Owns(Flat(), space.segs) && Blocks() == blocks
        invariant cur + length == lo + n && Mappable(Flat(), cls, cur, cur + length)
        invariant Remains(Flat(), blocks, cls, cur, cur + length, stop, goal) && Freed(m0, s0, Flat(), space.segs)
      {
        ghost var m1, s1 := Flat(), space.segs;
        cur, length := UnmapNext(cur, length, stop, goal, space);
        FreedTrans(m0, s0, m1, s1, Flat(), space.segs);
      }
      StopHere(Flat(), blocks, cls, cur, cur + length, stop, goal);
    }

    /** ps_clmap with CL_FIND and no size: a lookup. */
    method Find(p: nat) returns (r: Lookup)
      requires Valid()
      ensures r == FoundIn(Flat(), cls, p)
      ensures Locates(r, At(Flat(), Quot(p, cls)), clshift, Rem(p, cls))
    {
      var k, i := Quot(p, cls), Rem(p, cls);
      if k >= size { return Missing; }
      var e;
      if indirect {
        var block := table[k / CLMAP_ENTRIES];
        if block.None? { return Missing; }
        e := block.value[k % CLMAP_ENTRIES];
      } else {
        e := dmap[k];
      }
      if IsErr(e) { return InError(e.cloff); }
      if IsClr(e) { return Missing; }
      HereLocates(e, clshift, i);
      return Here(e, cls, i);
    }

    /** The contiguous available or unavailable pages at the head of a found range. */
    method CountRun(f: Lookup, cnt: nat) returns (size: nat, unavail: nat)
      requires f.Found? && f.npages > 0 && cnt > 0
      ensures size + unavail == RunLength(f.valid, 0, Min(cnt, f.npages))
      ensures if 0 in f.valid then unavail == 0 else size == 0
    {
      var i := 0;
      size, unavail := 0, 0;
      ghost var n := RunLength(f.valid, 0, Min(cnt, f.npages));
      while size < cnt && unavail < cnt && i < f.npages
        invariant i == size + unavail <= n && (size == 0 || unavail == 0)
        invariant i > 0 ==> (size > 0 <==> 0 in f.valid)
      {
        if i in f.valid {
          if unavail != 0 { break; }
          size := size + 1;
        } else {
          if size != 0 { break; }
          unavail := unavail + 1;
        }
        i := i + 1;
      }
    }

    /** One reply for all pages up to the next cluster boundary. */
    method MissReply<P>(cur: nat, cnt: nat, dev: (nat, nat) -> P, f: Lookup) returns (r: Reply<P>, n: nat)
      requires Valid() && cnt > 0 && EntryOk(At(Flat(), Quot(cur, cls))) && f == FoundIn(Flat(), cls, cur) && !f.Found?
      ensures 0 < n <= cnt && Rem(cur, cls) + n <= cls && r.off == cur && !r.Supply?
      ensures Told(r) == Expected(Flat(), cls, dev, cur, n) && PagesRead(Flat(), Flat(), cls, cur, cur + n)
      ensures Stretches(Flat(), cls, dev, cur, cnt, n)
    {
      n := Min(cls - Rem(cur, cls), cnt);
      r := if f.InError? && f.error != 0 then Error(cur, n) else Unavailable(cur, n);
      PassPages(Flat(), cls, cur, n);
      SameAnswers(Flat(), cls, dev, cur, n, r);
    }

    /** The reply to the next n pages of a request that is at page cur. */
    method NextReply<P>(cur: nat, cnt: nat, dev: (nat, nat) -> P) returns (r: Reply<P>, n: nat)
      requires Valid() && cnt > 0 && EntryOk(At(Flat(), Quot(cur, cls)))
      ensures 0 < n <= cnt && Rem(cur, cls) + n <= cls && r.off == cur
      ensures Told(r) == Expected(Flat(), cls, dev, cur, n) && Stretches(Flat(), cls, dev, cur, cnt, n)
      ensures r.Supply? ==> |r.pages| == n && Provides(Flat(), cls, cur, n)
      ensures !r.Supply? ==> PagesRead(Flat(), Flat(), cls, cur, cur + n)
    {
      var f := Find(cur);
      if !f.Found? {
        r, n := MissReply(cur, cnt, dev, f);
        return;
      }
      r, n := RunReply(cur, cnt, dev, f);
    }

    /** A run of valid pages is supplied, a run of other pages is unavailable. */
    method RunReply<P>(cur: nat, cnt: nat, dev: (nat, nat) -> P, f: Lookup) returns (r: Reply<P>, n: nat)
      requires Valid() && cnt > 0 && EntryOk(At(Flat(), Quot(cur, cls))) && f == FoundIn(Flat(), cls, cur) && f.Found?
      ensures 0 < n <= cnt && Rem(cur, cls) + n <= cls && r.off == cur
      ensures Told(r) == Expected(Flat(), cls, dev, cur, n) && Stretches(Flat(), cls, dev, cur, cnt, n)
      ensures r.Supply? ==> |r.pages| == n && Provides(Flat(), cls, cur, n)
      ensures !r.Supply? ==> PagesRead(Flat(), Flat(), cls, cur, cur + n)
    {
      var size, unavail := CountRun(f, cnt);
      RunStretches(Flat(), cls, dev, cur, cnt, size + unavail);
      if size == 0 {
        n := unavail;
        r := Unavailable(cur, unavail);
        RunMisses(Flat(), cls, dev, cur, cnt, n);
      } else {
        n := size;
        r := Supply(cur, PagesAt(dev, f.ps, f.page, size));
        RunSupplies(Flat(), cls, dev, cur, cnt, n);
      }
    }

    /** vs_object_data_provided: supplying pages that lie in one cluster unmaps them. */
    method Provide(cur: nat, n: nat, space: PagingSpace)
      requires Valid() && space.Valid() && Owns(Flat(), space.segs) && n > 0 && Provides(Flat(), cls, cur, n)
      modifies this`dmap, this`table, space`segs, space`cursor
      ensures Valid() && space.Valid() && Owns(Flat(), space.segs)
      ensures PagesRead(old(Flat()), Flat(), cls, cur, cur + n)
      ensures Freed(old(Flat()), old(space.segs), Flat(), space.segs)
    {
      ghost var m := Flat();
      assert OwnedAt(m, space.segs, Quot(cur, cls));
      OneChunk(m, Blocks(), cls, cur, n);
      SupplyPages(m, cls, cur, n);
      Clunmap(cur, n, space);
    }

    /** One turn of the loop of vs_cluster_read. */
    method ReadTurn<P>(cur: nat, cnt: nat, dev: (nat, nat) -> P, space: PagingSpace) returns (r: Reply<P>, n: nat)
      requires Valid() && space.Valid() && Owns(Flat(), space.segs) && cnt > 0
      modifies this`dmap, this`table, space`segs, space`cursor
      ensures Valid() && space.Valid() && Owns(Flat(), space.segs)
      ensures 0 < n <= cnt && Told(r) == Expected(old(Flat()), cls, dev, cur, n)
      ensures PagesRead(old(Flat()), Flat(), cls, cur, cur + n)
      ensures Freed(old(Flat()), old(space.segs), Flat(), space.segs)
    {
      assert OwnedAt(Flat(), space.segs, Quot(cur, cls));
      r, n := NextReply(cur, cnt, dev);
      if r.Supply? {
        Provide(cur, n, space);
      } else {
        FreedNone(Flat(), space.segs);
      }
    }

    /** vs_cluster_read of cnt pages from lo on.  The replies cover every page once, in order,
        and say what the map said at the start. */
    method ClusterRead<P>(lo: nat, cnt: nat, dev: (nat, nat) -> P, space: PagingSpace) returns (replies: seq<Reply<P>>)
      requires Valid() && space.Valid() && Owns(Flat(), space.segs)
      modifies this`dmap, this`table, space`segs, space`cursor
      ensures Valid() && space.Valid() && Owns(Flat(), space.segs)
      ensures AllTold(replies) == Expected(old(Flat()), cls, dev, lo, cnt)
      ensures PagesRead(old(Flat()), Flat(), cls, lo, lo + cnt)
      ensures Freed(old(Flat()), old(space.segs), Flat(), space.segs)
    {
      ghost var want := Expected(Flat(), cls, dev, lo, cnt);
      AnswerNone(Flat(), space.segs, cls, lo, want);
      replies := ReadAll(Flat(), space.segs, lo, cnt, want, dev, space);
      assert want[..cnt] == want;
    }

    method ReadAll<P>(ghost m0: seq<Entry>, ghost s0: seq<Option<Segment>>, lo: nat, cnt: nat,
                      ghost want: seq<(int, Answer<P>)>, dev: (nat, nat) -> P, space: PagingSpace)
        returns (replies: seq<Reply<P>>)
      requires Reading(m0, s0, lo, want, lo, cnt, dev, [], space)
      modifies this`dmap, this`table, space`segs, space`cursor
      ensures Reading(m0, s0, lo, want, lo + cnt, 0, dev, replies, space)
    {
      var cur, left: nat := lo, cnt;
      replies := [];
      while left > 0
        invariant cur + left == lo + cnt && Reading(m0, s0, lo, want, cur, left, dev, replies, space)
      {
        cur, left, replies := ReadMore(m0, s0, lo, want, cur, left, dev, replies, space);
      }
    }

    /** In the middle of a request that began on map m0 and segments s0: pages before cur are
        answered, left pages are not. */
    ghost predicate Reading<P>(m0: seq<Entry>, s0: seq<Option<Segment>>, lo: nat, want: seq<(int, Answer<P>)>,
                               cur: nat, left: nat, dev: (nat, nat) -> P, replies: seq<Reply<P>>, space: PagingSpace)
      reads this, space
    {
      && Valid() && space.Valid() && Owns(Flat(), space.segs) && Owns(m0, s0) && cur + left == lo + |want|
      && want == Expected(m0, cls, dev, lo, |want|)
      && Answered(m0, s0, Flat(), space.segs, cls, lo, want, cur, replies)
    }

    /** One turn, seen from the whole request. */
    method ReadMore<P>(ghost m0: seq<Entry>, ghost s0: seq<Option<Segment>>, ghost lo: nat,
                       ghost want: seq<(int, Answer<P>)>, cur: nat, left: nat, dev: (nat, nat) -> P,
                       replies: seq<Reply<P>>, space: PagingSpace)
        returns (cur': nat, left': nat, more: seq<Reply<P>>)
      requires left > 0 && Reading(m0, s0, lo, want, cur, left, dev, replies, space)
      modifies this`dmap, this`table, space`segs, space`cursor
      ensures left' < left && cur' + left' == cur + left && Reading(m0, s0, lo, want, cur', left', dev, more, space)
    {
      ghost var m1, s1 := Flat(), space.segs;
      var r, n := ReadTurn(cur, left, dev, space);
      cur', left', more := cur + n, left - n, replies + [r];
      AnswerMore(m0, s0, m1, s1, Flat(), space.segs, cls, dev, lo, want, cur, n, replies, r);
    }

    /** The indirect block of entry k, allocated and cleared. */
    method AddBlock(k: nat, garbage: seq<Entry>)
      requires |garbage| == CLMAP_ENTRIES && Valid() && indirect && k < size && table[k / CLMAP_ENTRIES].None?
      modifies this`table
      ensures Valid() && Flat() == old(Flat()) && HasBlock(Blocks(), k)
    {
      var block := garbage;
      for i := 0 to CLMAP_ENTRIES
        invariant |block| == CLMAP_ENTRIES && forall j | 0 <= j < i :: block[j] == ClearEntry
      {
        block := block[i := ClearEntry];
      }
      var b: Block := block;
      ghost var m := Flat();
      table := table[k / CLMAP_ENTRIES := Some(b)];
      forall j: nat ensures TableAt(table, j) == TableAt(old(table), j) {}
      assert Flat() == m;
    }

    /** The first half of ps_clmap with CL_ALLOC: make entry k exist. */
    method Reach(k: nat, tableOk: bool, mapOk: bool, blockOk: bool, garbage: nat -> Entry, space: PagingSpace)
        returns (ok: bool)
      requires Valid()
      modifies this`size, this`indirect, this`dmap, this`table, space`committed
      ensures Valid() && space.committed == old(space.committed) + size - old(size)
      ensures ok ==> Flat() == Extended(old(Flat()), k + 1) && HasBlock(Blocks(), k)
      ensures !ok ==>
                && (Flat() == old(Flat()) || Flat() == Extended(old(Flat()), k + 1))
                && !(tableOk && mapOk && blockOk)
    {
      if k >= size {
        ok := MapExtend(k + 1, tableOk, mapOk, Memory(if IsIndirect(k + 1) then CLMAP_ENTRIES else k + 1, garbage),
          space);
        if !ok { return; }
      }
      if indirect && table[k / CLMAP_ENTRIES].None? {
        if !blockOk { return false; }
        AddBlock(k, Memory(CLMAP_ENTRIES, garbage));
      }
      return true;
    }

    /** The second half: give entry k a cluster unless it has one, and mark pages allocated. */
    method Assign(k: nat, i: nat, n: nat, space: PagingSpace, ghost m: seq<Entry>) returns (r: Lookup)
      requires Valid() && space.Valid() && m == Flat() && Owns(m, space.segs) && k < size && HasBlock(Blocks(), k)
               && i < cls && n > 0
      requires space.count > 1 && IsClr(m[k]) ==> ScanReady(space.segs, space.count, space.cursor, clshift)
      modifies this`dmap, this`table, space`segs, space`cursor
      ensures Valid() && space.Valid() && Owns(Flat(), space.segs)
      ensures CursorStep(m[k], old(space.segs), space.count, old(space.cursor), clshift, r, space.cursor)
      ensures r.Found? ==> Assigned(m, old(space.segs), Flat(), space.segs, k, Bits(i, Min(n, cls - i)))
      ensures r.Found? ==> r == Here(EntryAt(k), cls, i)
      ensures Locates(r, EntryAt(k), clshift, i)
      ensures !r.Found? ==> Flat() == m && space.segs == old(space.segs) && r.InError? == IsErr(EntryAt(k))
    {
      var e := EntryAt(k);
      ghost var s := space.segs;
      if IsErr(e) { return InError(e.cloff); }
      var o := Obtain(e, space);
      if o.None? { return Missing; }
      e := MarkAllocated(o.value, i, n);
      AssignKeeps(m, s, space.segs, k, o.value, Bits(i, Min(n, cls - i)));
      SetEntry(k, e);
      HereLocates(e, clshift, i);
      return Here(e, cls, i);
    }

    /** An entry without a cluster gets one. */
    method Obtain(e: Entry, space: PagingSpace) returns (o: Option<Entry>)
      requires space.Valid() && !IsErr(e)
      requires space.count > 1 && IsClr(e) ==> ScanReady(space.segs, space.count, space.cursor, clshift)
      modifies space`segs, space`cursor
      ensures space.Valid()
      ensures if IsClr(e)
              then Moved(old(space.segs), space.count, old(space.cursor), clshift,
                         if o.Some? then Some(o.value.ps) else None, space.cursor)
              else space.cursor == old(space.cursor)
      ensures o.Some? ==> Live(o.value) && Obtained(e, o.value, old(space.segs), space.segs)
      ensures o.None? ==> IsClr(e) && space.segs == old(space.segs)
    {
      if !IsClr(e) { return Some(e); }
      var c := space.AllocateCluster(clshift);
      if c.None? { return None; }
      assert SlotOk(old(space.segs), space.count, c.value.ps);
      return Some(Entry(c.value.cloff, c.value.ps, false, {}, {}));
    }

    /** Set the allocated bits of the n pages from i on that lie in the cluster. */
    method MarkAllocated(e: Entry, i: nat, n: nat) returns (r: Entry)
      requires i < cls
      ensures r == e.(alloc := e.alloc + Bits(i, Min(n, cls - i)))
    {
      r := e;
      var j, size := i, n;
      while size > 0 && j < cls
        invariant i <= j <= cls && size == n - (j - i) >= 0 && r == e.(alloc := e.alloc + Bits(i, j - i))
      {
        r, j, size := r.(alloc := r.alloc + {j}), j + 1, size - 1;
      }
    }

    /** ps_clmap with CL_ALLOC for n pages from page p on, of which those in p's cluster are
        marked.  The flags say whether kalloc succeeds. */
    method Allocate(p: nat, n: nat, tableOk: bool, mapOk: bool, blockOk: bool, garbage: nat -> Entry,
                    space: PagingSpace)
        returns (r: Lookup, ghost m: seq<Entry>)
      requires Valid() && space.Valid() && Owns(Flat(), space.segs) && n > 0
      requires space.count > 1 && IsClr(At(Flat(), Quot(p, cls))) ==>
               ScanReady(space.segs, space.count, space.cursor, clshift)
      modifies this`size, this`indirect, this`dmap, this`table, space`segs, space`cursor, space`committed
      ensures Valid() && space.Valid() && Owns(Flat(), space.segs)
      ensures space.committed == old(space.committed) + size - old(size)
      ensures var step := CursorStep(old(At(Flat(), Quot(p, cls))), old(space.segs), space.count, old(space.cursor),
                                     clshift, r, space.cursor);
              (step || space.cursor == old(space.cursor)) && (r.Found? || (tableOk && mapOk && blockOk) ==> step)
      ensures r.Found? ==> r == Here(EntryAt(Quot(p, cls)), cls, Rem(p, cls))
      ensures Locates(r, EntryAt(Quot(p, cls)), clshift, Rem(p, cls))
      ensures m == Extended(old(Flat()), Quot(p, cls) + 1)
      ensures r.Found? ==>
                Assigned(m, old(space.segs), Flat(), space.segs, Quot(p, cls),
                         Bits(Rem(p, cls), Min(n, cls - Rem(p, cls))))
      ensures !r.Found? ==>
                && space.segs == old(space.segs) && (Flat() == m || Flat() == old(Flat()))
                && (r.InError? ==> IsErr(EntryAt(Quot(p, cls))))
    {
      var k := Quot(p, cls);
      ExtendOwned(Flat(), k + 1, space.segs);
      var ok := Reach(k, tableOk, mapOk, blockOk, garbage, space);
      m := Extended(old(Flat()), k + 1);
      if !ok { r := Missing; return; }
      r := Assign(k, Rem(p, cls), n, space, m);
    }

    /** ps_clmap with CL_FIND and a size: the write of n pages from page p on has completed.
        A failed write puts the whole entry in error and gives the cluster back, unless it is
        cluster 0.  Valid pages stay allocated pages exactly if the written pages were. */
    method Finish(p: nat, n: nat, error: nat, space: PagingSpace)
      requires Valid() && space.Valid() && Owns(Flat(), space.segs) && n > 0
      requires error == 0 && Live(At(Flat(), Quot(p, cls))) ==> Rem(p, cls) + n <= cls
      modifies this`dmap, this`table, space`segs, space`cursor
      ensures Valid() && space.Valid()
      ensures var e := old(At(Flat(), Quot(p, cls)));
              Owns(Flat(), space.segs) <==> (error == 0 && Live(e) ==> Bits(Rem(p, cls), n) <= e.alloc)
      ensures var k := Quot(p, cls);
              if k < size && HasBlock(Blocks(), k) then
                && Flat() == old(Flat())[k := Finished(old(Flat())[k], Bits(Rem(p, cls), n), error)]
                && GivenBack(old(Flat())[k], error, old(space.segs), space.segs)
              else Flat() == old(Flat()) && space.segs == old(space.segs)
    {
      var k, i := Quot(p, cls), Rem(p, cls);
      if k >= size || (indirect && table[k / CLMAP_ENTRIES].None?) { return; }
      var e := EntryAt(k);
      ghost var m, s := Flat(), space.segs;
      assert m[k] == e && OwnedAt(m, s, k);
      if IsErr(e) || (IsClr(e) && error == 0) {
        assert m == m[k := e];
        return;
      }
      if error != 0 {
        FinishFailed(k, e, error, space);
        return;
      }
      e := MarkValid(e, i, n);
      if Bits(i, n) <= e.alloc {
        SameOwned(m, k, e, s);
      } else {
        assert !OwnedAt(m[k := e], s, k);
      }
      SetEntry(k, e);
    }

    /** Set the valid bits of the n pages from i on. */
    method MarkValid(e: Entry, i: nat, n: nat) returns (r: Entry)
      ensures r == Completed(e, Bits(i, n))
    {
      r := e;
      for j := i to i + n
        invariant r == e.(bmap := e.bmap + Bits(i, j - i))
      {
        r := r.(bmap := r.bmap + {j});
      }
    }

    method FinishFailed(k: nat, e: Entry, error: nat, space: PagingSpace)
      requires Valid() && space.Valid() && Owns(Flat(), space.segs) && error != 0
      requires k < size && HasBlock(Blocks(), k) && Flat()[k] == e && !IsErr(e)
      modifies this`dmap, this`table, space`segs, space`cursor
      ensures Valid() && space.Valid() && Owns(Flat(), space.segs)
      ensures Blocks() == old(Blocks()) && Flat() == old(Flat())[k := e.(error := true, cloff := error)]
      ensures GivenBack(e, error, old(space.segs), space.segs)
    {
      ghost var m, s := Flat(), space.segs;
      var e' := e.(error := true, cloff := error);
      assert OwnedAt(m, s, k);
      SetEntry(k, e');
      if !IsClr(e) && e.cloff != 0 {
        space.DeallocateCluster(LocOf(e));
        DropOwned(m, k, e', s, space.segs);
      } else {
        ForgetOwned(m, k, e', s);
      }
    }

    /** ps_vstruct_dealloc gives back exactly the clusters the map names. */
    method Dealloc(space: PagingSpace)
      requires Valid() && space.Valid() && Owns(Flat(), space.segs)
      modifies space`segs, space`cursor, space`committed
      ensures space.Valid() && space.committed == old(space.committed) - size
      ensures forall l: Loc :: Taken(space.segs, l) <==> Taken(old(space.segs), l) && !Names(Flat(), l)
    {
      ghost var m, s0 := Flat(), space.segs;
      forall l: Loc ensures FreeBelow(m, 0, s0, s0, l) {}
      if indirect {
        var i := 0;
        while i < |table|
          invariant 0 <= i <= |table| && space.Valid() && space.committed == old(space.committed)
          invariant AllFreeBelow(m, i * CLMAP_ENTRIES, s0, space.segs)
        {
          BlockEntries(i);
          if table[i].Some? {
            DeallocMap(table[i].value, m, i * CLMAP_ENTRIES, s0, space);
          } else {
            NoneNamed(m, i * CLMAP_ENTRIES, CLMAP_ENTRIES, s0, space.segs);
          }
          i := i + 1;
        }
      } else {
        DeallocMap(dmap, m, 0, s0, space);
      }
      AllNamed(m, if indirect then |table| * CLMAP_ENTRIES else size, s0, space.segs);
      space.committed := space.committed - size;
    }

    lemma BlockEntries(i: nat)
      requires Valid() && indirect && i < |table|
      ensures var base := i * CLMAP_ENTRIES;
              if table[i].Some? then IsSlice(table[i].value, Flat(), base)
              else forall k: nat | base <= k < base + CLMAP_ENTRIES :: At(Flat(), k) == ClearEntry
    {
      var m, base := Flat(), i * CLMAP_ENTRIES;
      if table[i].Some? {
        forall j: nat | j < |table[i].value| ensures table[i].value[j] == At(m, base + j) {
          BlockSpot(i, j);
        }
      } else {
        forall k: nat | base <= k < base + CLMAP_ENTRIES ensures At(m, k) == ClearEntry {
          BlockSpot(i, k - base);
        }
      }
    }

    lemma BlockSpot(i: nat, j: nat)
      requires Valid() && indirect && i < |table| && j < CLMAP_ENTRIES
      ensures At(Flat(), i * CLMAP_ENTRIES + j) == if table[i].Some? then table[i].value[j] else ClearEntry
    {
      var k := i * CLMAP_ENTRIES + j;
      DivModUnique(CLMAP_ENTRIES, k, i, j);
      assert At(Flat(), k) == TableAt(table, k);
    }
  }

  /** ps_vstruct_create as its callers see it: without memory there is no object and nothing is
      committed. */
  method Create(npages: nat, clshift: nat, structOk: bool, mapOk: bool, garbage: seq<Entry>, space: PagingSpace)
      returns (vs: Vstruct?)
    requires npages > 0 && |garbage| == (npages - 1) / Pow2(clshift) + 1
    modifies space`committed
    ensures vs != null <==> structOk && mapOk
    ensures vs == null ==> space.committed == old(space.committed)
    ensures vs != null ==>
              && fresh(vs) && vs.Valid() && vs.clshift == clshift && vs.size == (npages - 1) / vs.cls + 1
              && (forall k: nat | k < vs.size :: vs.Flat()[k] == ClearEntry)
              && space.committed == old(space.committed) + vs.size
  {
    if !structOk || !mapOk { return null; }
    vs := new Vstruct(npages, clshift, garbage, space);
  }

  ghost predicate IsSlice(entries: seq<Entry>, m: seq<Entry>, base: nat) {
    forall j: nat | j < |entries| :: entries[j] == At(m, base + j)
  }

  /** ps_dealloc_vsmap on the entries base, base+1, ... of map m. */
  method DeallocMap(entries: seq<Entry>, ghost m: seq<Entry>, ghost base: nat, ghost s0: seq<Option<Segment>>,
                    space: PagingSpace)
    requires space.Valid() && Owns(m, s0) && AllFreeBelow(m, base, s0, space.segs) && IsSlice(entries, m, base)
    modifies space`segs, space`cursor
    ensures space.Valid() && AllFreeBelow(m, base + |entries|, s0, space.segs)
  {
    var i := 0;
    while i < |entries|
      invariant 0 <= i <= |entries| && space.Valid() && AllFreeBelow(m, base + i, s0, space.segs)
    {
      ghost var s1, k := space.segs, base + i;
      assert entries[i] == At(m, k);
      if !IsClr(entries[i]) && !IsErr(entries[i]) {
        StillTaken(m, k, s0, s1);
        space.DeallocateCluster(LocOf(entries[i]));
      }
      FreeNext(m, k, s0, s1, space.segs);
      i := i + 1;
    }
  }

  ghost predicate NamesBelow(m: seq<Entry>, n: nat, l: Loc) { exists k: nat | k < n :: NamesAt(m, k, l) }

  /** Exactly the clusters named by the first n entries have been given back. */
  ghost predicate FreeBelow(m: seq<Entry>, n: nat, segs: seq<Option<Segment>>, segs': seq<Option<Segment>>, l: Loc) {
    Taken(segs', l) <==> Taken(segs, l) && !NamesBelow(m, n, l)
  }

  ghost predicate AllFreeBelow(m: seq<Entry>, n: nat, segs: seq<Option<Segment>>, segs': seq<Option<Segment>>) {
    forall l: Loc :: FreeBelow(m, n, segs, segs', l)
  }

  lemma StillTaken(m: seq<Entry>, k: nat, s0: seq<Option<Segment>>, s1: seq<Option<Segment>>)
    requires Owns(m, s0) && AllFreeBelow(m, k, s0, s1) && Live(At(m, k))
    ensures Taken(s1, LocOf(At(m, k)))
  {
    var l := LocOf(At(m, k));
    assert OwnedAt(m, s0, k) && FreeBelow(m, k, s0, s1, l);
    forall j: nat | j < k ensures !NamesAt(m, j, l) { assert DistinctAt(m, j, k); }
  }

  lemma FreeNext(m: seq<Entry>, k: nat, s0: seq<Option<Segment>>, s1: seq<Option<Segment>>, s2: seq<Option<Segment>>)
    requires AllFreeBelow(m, k, s0, s1)
    requires forall l: Loc :: Taken(s2, l) <==> Taken(s1, l) && !NamesAt(m, k, l)
    ensures AllFreeBelow(m, k + 1, s0, s2)
  {
    var n := k + 1;
    forall l: Loc ensures FreeBelow(m, n, s0, s2, l) {
      assert FreeBelow(m, k, s0, s1, l);
      assert NamesBelow(m, n, l) <==> NamesBelow(m, k, l) || NamesAt(m, k, l);
    }
  }

  lemma NoneNamed(m: seq<Entry>, base: nat, n: nat, segs: seq<Option<Segment>>, segs': seq<Option<Segment>>)
    requires AllFreeBelow(m, base, segs, segs') && forall k: nat | base <= k < base + n :: At(m, k) == ClearEntry
    ensures AllFreeBelow(m, base + n, segs, segs')
  {
    var top := base + n;
    forall l: Loc ensures FreeBelow(m, top, segs, segs', l) {
      assert FreeBelow(m, base, segs, segs', l);
      if k: nat :| k < top && NamesAt(m, k, l) { assert k < base; }
    }
  }

  lemma AllNamed(m: seq<Entry>, n: nat, segs: seq<Option<Segment>>, segs': seq<Option<Segment>>)
    requires AllFreeBelow(m, n, segs, segs') && n >= |m|
    ensures forall l: Loc :: Taken(segs', l) <==> Taken(segs, l) && !Names(m, l)
  {
    forall l: Loc ensures Taken(segs', l) <==> Taken(segs, l) && !Names(m, l) {
      assert FreeBelow(m, n, segs, segs', l);
      if k: nat :| NamesAt(m, k, l) { assert k < n; }
    }
  }

  /** The entry after a write of these pages has completed, with or without error. */
  function Finished(e: Entry, bits: set<nat>, error: nat): Entry {
    if IsErr(e) then e
    else if error != 0 then e.(error := true, cloff := error)
    else if IsClr(e) then e
    else Completed(e, bits)
  }

  /** What a completed write does to later reads: its pages are supplied from the cluster of the
      entry, or, if it failed, every page of the entry is answered with an error. */
  lemma FinishedAnswers<P>(m: seq<Entry>, cls: nat, dev: (nat, nat) -> P, k: nat, bits: set<nat>, error: nat, q: nat)
    requires cls > 0 && k < |m|
    ensures var e, i, now := m[k], Rem(q, cls), AnswerAt(m[k := Finished(m[k], bits, error)], cls, dev, q);
            && (Quot(q, cls) == k && error != 0 && !IsErr(e) ==> now == Failed)
            && (Quot(q, cls) == k && error == 0 && Live(e) && i in bits ==>
                  now == Data(dev(e.ps, e.cloff * cls + i)))
            && (Quot(q, cls) != k || IsErr(e) || (error == 0 && i !in bits) ==> now == AnswerAt(m, cls, dev, q))
  {
  }

  /** A failed write gives the cluster of the entry back, unless it is cluster 0. */
  ghost predicate GivenBack(e: Entry, error: nat, segs: seq<Option<Segment>>, segs': seq<Option<Segment>>) {
    forall l: Loc :: Taken(segs', l) <==> Taken(segs, l) && !(error != 0 && Live(e) && l == LocOf(e) && l.cloff != 0)
  }

  ghost predicate Obtained(e: Entry, e': Entry, segs: seq<Option<Segment>>, segs': seq<Option<Segment>>) {
    if Live(e) then e' == e && segs' == segs
    else
      && e'.bmap == {} && e'.alloc == {} && !Taken(segs, LocOf(e'))
      && forall l: Loc :: Taken(segs', l) <==> Taken(segs, l) || l == LocOf(e')
  }

  /** Entry k has a cluster, the old one or one that was free, and bits are marked allocated. */
  ghost predicate Assigned(m: seq<Entry>, segs: seq<Option<Segment>>, m': seq<Entry>, segs': seq<Option<Segment>>,
                           k: nat, bits: set<nat>) {
    && k < |m| && |m'| == |m| && !IsErr(m[k]) && Live(m'[k])
    && m' == m[k := Allocated(m[k], LocOf(m'[k]), bits)]
    && if Live(m[k]) then segs' == segs
       else !Taken(segs, LocOf(m'[k])) && forall l: Loc :: Taken(segs', l) <==> Taken(segs, l) || l == LocOf(m'[k])
  }

  lemma AssignKeeps(m: seq<Entry>, segs: seq<Option<Segment>>, segs': seq<Option<Segment>>, k: nat, e: Entry,
                    bits: set<nat>)
    requires Owns(m, segs) && k < |m| && !IsErr(m[k]) && bits != {} && Live(e) && Obtained(m[k], e, segs, segs')
    ensures var m' := m[k := e.(alloc := e.alloc + bits)]; Owns(m', segs') && Assigned(m, segs, m', segs', k, bits)
  {
    var e' := e.(alloc := e.alloc + bits);
    assert OwnedAt(m, segs, k);
    if Live(m[k]) { SameOwned(m, k, e', segs); } else { TakeOwned(m, k, e', segs, segs'); }
  }

  /** The request that started at page lo has been answered up to page cur; want are the
      answers to all its pages. */
  ghost predicate Answered<P>(m0: seq<Entry>, s0: seq<Option<Segment>>, m: seq<Entry>, segs: seq<Option<Segment>>,
                              cls: nat, lo: nat, want: seq<(int, Answer<P>)>, cur: nat, replies: seq<Reply<P>>)
    requires cls > 0
  {
    && lo <= cur <= lo + |want| && Freed(m0, s0, m, segs) && PagesRead(m0, m, cls, lo, cur)
    && AllTold(replies) == want[..cur - lo]
  }

  lemma AnswerNone<P>(m: seq<Entry>, segs: seq<Option<Segment>>, cls: nat, lo: nat, want: seq<(int, Answer<P>)>)
    requires cls > 0
    ensures Answered(m, segs, m, segs, cls, lo, want, lo, [])
  {
    FreedNone(m, segs);
    PassPages(m, cls, lo, 0);
  }

  lemma AnswerMore<P>(m0: seq<Entry>, s0: seq<Option<Segment>>, m1: seq<Entry>, s1: seq<Option<Segment>>,
                      m2: seq<Entry>, s2: seq<Option<Segment>>, cls: nat, dev: (nat, nat) -> P, lo: nat,
                      want: seq<(int, Answer<P>)>, cur: nat, n: nat, replies: seq<Reply<P>>, r: Reply<P>)
    requires cls > 0 && Answered(m0, s0, m1, s1, cls, lo, want, cur, replies) && Owns(m0, s0) && Owns(m1, s1)
             && cur + n <= lo + |want|
    requires want == Expected(m0, cls, dev, lo, |want|)
    requires Freed(m1, s1, m2, s2) && PagesRead(m1, m2, cls, cur, cur + n) && Told(r) == Expected(m1, cls, dev, cur, n)
    ensures Answered(m0, s0, m2, s2, cls, lo, want, cur + n, replies + [r])
  {
    FreedTrans(m0, s0, m1, s1, m2, s2);
    ReadTrans(m0, m1, m2, cls, lo, cur, cur + n);
    ToldMore(m0, s0, m1, s1, cls, dev, lo, want, cur, n, replies, r);
  }

  lemma FreedNone(m: seq<Entry>, segs: seq<Option<Segment>>)
    ensures Freed(m, segs, m, segs)
  {
    forall l: Loc ensures FreedAt(m, segs, m, segs, l) {}
  }

  lemma ToldMore<P>(m0: seq<Entry>, s0: seq<Option<Segment>>, m1: seq<Entry>, s1: seq<Option<Segment>>, cls: nat,
                    dev: (nat, nat) -> P, lo: nat, want: seq<(int, Answer<P>)>, cur: nat, n: nat,
                    rs: seq<Reply<P>>, r: Reply<P>)
    requires cls > 0 && lo <= cur && Owns(m0, s0) && Owns(m1, s1) && PagesRead(m0, m1, cls, lo, cur)
    requires want == Expected(m0, cls, dev, lo, |want|) && cur + n <= lo + |want|
    requires AllTold(rs) == want[..cur - lo] && Told(r) == Expected(m1, cls, dev, cur, n)
    ensures AllTold(rs + [r]) == want[..cur + n - lo]
  {
    forall k: nat ensures EntryOk(At(m0, k)) && EntryOk(At(m1, k)) { assert OwnedAt(m0, s0, k) && OwnedAt(m1, s1, k); }
    StillExpected(m0, m1, cls, dev, lo, cur, n);
    ExpectedPart(m0, cls, dev, lo, |want|, cur - lo, n);
    var i := cur - lo;
    assert want[..i + n] == want[..i] + want[i..i + n];
    assert (rs + [r])[..|rs|] == rs;
  }

  /** The n pages from lo on are valid pages of one cluster. */
  predicate Provides(m: seq<Entry>, cls: nat, lo: nat, n: nat)
    requires cls > 0
  {
    && Rem(lo, cls) + n <= cls && Quot(lo, cls) < |m|
    && var e := m[Quot(lo, cls)]; Live(e) && Bits(Rem(lo, cls), n) <= e.bmap
  }

  /** Counting in the shifted bits is counting in the bits. */
  lemma RunBits(bmap: set<nat>, i: nat, max: nat, n: nat)
    requires n <= max && forall j: nat | j < n :: j in Shifted(bmap, i, max) <==> 0 in Shifted(bmap, i, max)
    ensures 0 in Shifted(bmap, i, max) ==> Bits(i, n) <= bmap
    ensures 0 !in Shifted(bmap, i, max) ==> bmap !! Bits(i, n)
  {
    forall b: nat | b in Bits(i, n) ensures b in bmap <==> 0 in Shifted(bmap, i, max) {
      assert b - i in Shifted(bmap, i, max) <==> 0 in Shifted(bmap, i, max);
    }
  }

  /** A reply covers as many pages as it can: it ends with the request, with the cluster, or in
      front of a page that gets the other kind of answer. */
  ghost predicate Stretches<P>(m: seq<Entry>, cls: nat, dev: (nat, nat) -> P, cur: nat, cnt: nat, n: nat)
    requires cls > 0
  {
    n < cnt && Rem(cur, cls) + n < cls ==> AnswerAt(m, cls, dev, cur + n).Data? != AnswerAt(m, cls, dev, cur).Data?
  }

  /** The run at the head of a found range consists of valid pages or of other pages. */
  lemma RunIs(m: seq<Entry>, cls: nat, cur: nat, cnt: nat, n: nat)
    requires cls > 0 && cnt > 0 && FoundIn(m, cls, cur).Found?
    requires n == RunLength(FoundIn(m, cls, cur).valid, 0, Min(cnt, FoundIn(m, cls, cur).npages))
    ensures 0 < n <= cnt && Rem(cur, cls) + n <= cls && Live(At(m, Quot(cur, cls)))
    ensures var f, e, bits := FoundIn(m, cls, cur), At(m, Quot(cur, cls)), Bits(Rem(cur, cls), n);
            if 0 in f.valid then bits <= e.bmap else e.bmap !! bits
  {
    RunBits(At(m, Quot(cur, cls)).bmap, Rem(cur, cls), FoundIn(m, cls, cur).npages, n);
  }

  lemma RunMisses<P>(m: seq<Entry>, cls: nat, dev: (nat, nat) -> P, cur: nat, cnt: nat, n: nat)
    requires cls > 0 && cnt > 0 && FoundIn(m, cls, cur).Found? && EntryOk(At(m, Quot(cur, cls)))
    requires var f := FoundIn(m, cls, cur); n == RunLength(f.valid, 0, Min(cnt, f.npages)) && 0 !in f.valid
    ensures 0 < n <= cnt && Rem(cur, cls) + n <= cls && PagesRead(m, m, cls, cur, cur + n)
    ensures Told(Reply<P>.Unavailable(cur, n)) == Expected(m, cls, dev, cur, n)
  {
    RunIs(m, cls, cur, cnt, n);
    PassPages(m, cls, cur, n);
    SameAnswers(m, cls, dev, cur, n, Unavailable(cur, n));
  }

  lemma RunSupplies<P>(m: seq<Entry>, cls: nat, dev: (nat, nat) -> P, cur: nat, cnt: nat, n: nat)
    requires cls > 0 && cnt > 0 && FoundIn(m, cls, cur).Found? && EntryOk(At(m, Quot(cur, cls)))
    requires var f := FoundIn(m, cls, cur); n == RunLength(f.valid, 0, Min(cnt, f.npages)) && 0 in f.valid
    ensures 0 < n <= cnt && Rem(cur, cls) + n <= cls && Provides(m, cls, cur, n)
    ensures var f := FoundIn(m, cls, cur);
            Told(Reply<P>.Supply(cur, PagesAt(dev, f.ps, f.page, n))) == Expected(m, cls, dev, cur, n)
  {
    RunIs(m, cls, cur, cnt, n);
    var f := FoundIn(m, cls, cur);
    SameAnswers(m, cls, dev, cur, n, Supply(cur, PagesAt(dev, f.ps, f.page, n)));
  }

  lemma RunStretches<P>(m: seq<Entry>, cls: nat, dev: (nat, nat) -> P, cur: nat, cnt: nat, n: nat)
    requires cls > 0 && cnt > 0 && FoundIn(m, cls, cur).Found?
    requires n == RunLength(FoundIn(m, cls, cur).valid, 0, Min(cnt, FoundIn(m, cls, cur).npages))
    ensures Stretches(m, cls, dev, cur, cnt, n)
  {
    var f, i := FoundIn(m, cls, cur), Rem(cur, cls);
    if n < cnt && i + n < cls {
      assert 0 + n in f.valid <==> 0 !in f.valid;
      ChunkPages(cls, cur, n + 1, cur + n);
    }
  }

  /** Unmapping inside one cluster. */
  lemma OneChunk(m: seq<Entry>, blocks: Option<seq<bool>>, cls: nat, lo: nat, n: nat)
    requires cls > 0 && n > 0 && Rem(lo, cls) + n <= cls && Quot(lo, cls) < |m| && Live(m[Quot(lo, cls)])
    requires HasBlock(blocks, Quot(lo, cls))
    ensures Mappable(m, cls, lo, lo + n)
    ensures var k := Quot(lo, cls);
            UnmapFrom(m, cls, lo, StopPage(blocks, cls, lo, lo + n)) == m[k := Unmapped(m[k], Bits(Rem(lo, cls), n))]
  {
    forall q: nat | lo <= q < lo + n ensures MappableAt(m, cls, q) { ChunkPages(cls, lo, n, q); }
  }

  /** n pages of the cluster of page cur, at most length of them, have been unmapped. */
  ghost predicate Turned(m: seq<Entry>, m': seq<Entry>, cls: nat, cur: nat, length: nat, n: nat)
    requires cls > 0
  {
    var k, i := Quot(cur, cls), Rem(cur, cls);
    0 < n <= length && i + n <= cls && k < |m| && m' == m[k := Unmapped(m[k], Bits(i, n))]
  }

  lemma TurnKeeps(m: seq<Entry>, m': seq<Entry>, blocks: Option<seq<bool>>, cls: nat, cur: nat, length: nat,
                  stop: nat, goal: seq<Entry>, n: nat)
    requires cls > 0 && HasBlock(blocks, Quot(cur, cls)) && Mappable(m, cls, cur, cur + length)
    requires Remains(m, blocks, cls, cur, cur + length, stop, goal) && Turned(m, m', cls, cur, length, n)
    ensures Mappable(m', cls, cur + n, cur + length) && Remains(m', blocks, cls, cur + n, cur + length, stop, goal)
  {
    var k, hi := Quot(cur, cls), cur + length;
    RemainsNext(m, blocks, cls, cur, hi, stop, goal, n);
    MappableStays(m, k, Unmapped(m[k], Bits(Rem(cur, cls), n)), cls, cur, cur + n, hi);
  }
}
