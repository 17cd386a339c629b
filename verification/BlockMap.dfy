/** The index tree of an inode: which disk block holds a block of a file. */
module BlockMaps {
  import opened Arith
  import opened Options

  type Byte = x: int | 0 <= x < 256

  function ByteAt(data: seq<Byte>, i: nat): nat { if i < |data| then data[i] else 0 }

  /** Little-endian words. */
  function Le16(data: seq<Byte>, i: nat): nat { ByteAt(data, i) + 256 * ByteAt(data, i + 1) }

  function Le32(data: seq<Byte>, i: nat): nat { Le16(data, i) + 65536 * Le16(data, i + 2) }

  /** Entry idx of an indirect block: 32-bit entries in ext2, 16-bit entries in Minix. */
  function Ptr(wide: bool, data: seq<Byte>, idx: nat): nat {
    if wide then Le32(data, 4 * idx) else Le16(data, 2 * idx)
  }

  /** What differs between the file systems: nd direct blocks, ni levels of indirect blocks
      with n entries each, blocks of bs bytes, 32-bit or 16-bit entries, and whether reading
      straight into the caller's buffer gives zeros for a hole. */
  datatype Geometry = Geometry(nd: nat, ni: nat, n: nat, bs: nat, wide: bool, zeroHoles: bool) {
    predicate Ok() { ni > 0 && n > 0 && bs > 0 }
  }

  /** NDADDR, NIADDR and NINDIR of ext2, and of Minix with MINIX_BLOCK_SIZE 1024. */
  function Ext2(bs: nat): Geometry { Geometry(12, 3, bs / 4, bs, true, true) }

  const Minix := Geometry(7, 2, 512, 1024, false, false)

  type Device = nat -> seq<Byte>  // the disk, block by block

  // ----- the reference: follow a path through the index tree -----

  /** Follow the pointers ds from block num on; 0 if any pointer on the way is 0. */
  function Follow(dev: Device, wide: bool, num: nat, ds: seq<nat>): nat
    decreases |ds|
  {
    if num == 0 || ds == [] then num else Follow(dev, wide, Ptr(wide, dev(num), ds[0]), ds[1..])
  }

  /** The path to leaf x of a tree of the given height: its digits in base n, highest first. */
  function Digits(n: nat, level: nat, x: nat): (ds: seq<nat>)
    requires n > 0
    ensures |ds| == level + 1
  {
    if level == 0 then [x] else [Quot(x, Power(n, level))] + Digits(n, level - 1, Rem(x, Power(n, level)))
  }

  /** The leaf a path leads to. */
  function Value(n: nat, ds: seq<nat>): nat
    requires |ds| > 0
  {
    if |ds| == 1 then ds[0] else Times(ds[0], Power(n, |ds| - 1)) + Value(n, ds[1..])
  }

  /** The tree, and the leaf in it, for block x behind the direct ones. */
  function Locate(n: nat, ni: nat, level: nat, x: nat): Option<(nat, nat)>
    requires n > 0
    decreases ni - level
  {
    if level >= ni then None
    else if x < Power(n, level + 1) then Some((level, x))
    else Locate(n, ni, level + 1, x - Power(n, level + 1))
  }

  // ----- the level/index split is a mixed-radix bijection -----

  ghost predicate AllBelow(ds: seq<nat>, n: nat) { forall i | 0 <= i < |ds| :: ds[i] < n }

  lemma {:induction false} DigitsInRange(n: nat, level: nat, x: nat)
    requires n > 0 && x < Power(n, level + 1)
    ensures AllBelow(Digits(n, level, x), n) && Value(n, Digits(n, level, x)) == x
    decreases level
  {
    if level == 0 {
      TimesIs(n, 1);
    } else {
      var p := Power(n, level);
      QuotLess(x, n, p);
      DigitsInRange(n, level - 1, Rem(x, p));
      QuotRem(x, p);
      assert Digits(n, level, x)[1..] == Digits(n, level - 1, Rem(x, p));
    }
  }

  lemma {:induction false} ValueInRange(n: nat, ds: seq<nat>)
    requires n > 0 && |ds| > 0 && AllBelow(ds, n)
    ensures Value(n, ds) < Power(n, |ds|) && Digits(n, |ds| - 1, Value(n, ds)) == ds
    decreases |ds|
  {
    if |ds| == 1 {
      TimesIs(n, 1);
      assert ds == [ds[0]];
    } else {
      var p, v := Power(n, |ds| - 1), Value(n, ds[1..]);
      ValueInRange(n, ds[1..]);
      TimesLess(ds[0], n, p, v);
      QuotTimes(ds[0], p, v);
    }
  }

  /** Blocks in the trees of the first k levels. */
  function Base(n: nat, k: nat): nat { if k == 0 then 0 else Base(n, k - 1) + Power(n, k) }

  /** ND + N + N^2 + ... */
  function Capacity(g: Geometry): nat { g.nd + Base(g.n, g.ni) }

  /** ND + N + N^2 + N^3 for ext2 and ND + N + N^2 for Minix. */
  lemma Capacities(bs: nat)
    requires bs >= 4
    ensures var n := bs / 4; Ext2(bs).Ok() && Capacity(Ext2(bs)) == 12 + n + n * n + n * (n * n)
    ensures Minix.Ok() && Capacity(Minix) == 7 + 512 + 512 * 512
  {
    Powers(bs / 4);
    Powers(512);
  }

  lemma Powers(n: nat)
    ensures Power(n, 1) == n && Power(n, 2) == n * n && Power(n, 3) == n * (n * n)
    ensures Base(n, 2) == n + n * n && Base(n, 3) == n + n * n + n * (n * n)
  {
    TimesIs(n, 1);
    assert Power(n, 1) == Times(n, Power(n, 0)) == n;
    TimesIs(n, n);
    assert Power(n, 2) == Times(n, Power(n, 1));
    TimesIs(n, n * n);
    assert Power(n, 3) == Times(n, Power(n, 2));
    assert Base(n, 1) == n;
    assert Base(n, 2) == Base(n, 1) + Power(n, 2);
  }

  lemma {:induction false} LocateIs(n: nat, ni: nat, level: nat, x: nat)
    requires n > 0 && level <= ni
    ensures match Locate(n, ni, level, x)
            case Some((l, y)) => level <= l < ni && y < Power(n, l + 1) && Base(n, l) + y == Base(n, level) + x
            case None => Base(n, level) + x >= Base(n, ni)
    decreases ni - level
  {
    if level < ni && x >= Power(n, level + 1) { LocateIs(n, ni, level + 1, x - Power(n, level + 1)); }
  }

  lemma {:induction false} LocateOnto(n: nat, ni: nat, level: nat, l: nat, y: nat)
    requires n > 0 && level <= l < ni && y < Power(n, l + 1)
    ensures Base(n, l) >= Base(n, level) && Locate(n, ni, level, Base(n, l) - Base(n, level) + y) == Some((l, y))
    decreases ni - level
  {
    if level < l {
      LocateOnto(n, ni, level + 1, l, y);
    }
  }

  /** Where block_map goes for file block fb: tree 0 is the inode, tree l+1 is level l. */
  function PathOf(g: Geometry, fb: nat): Option<(nat, seq<nat>)>
    requires g.Ok()
  {
    if fb < g.nd then Some((0, [fb]))
    else
      match Locate(g.n, g.ni, 0, fb - g.nd)
      case None => None
      case Some((l, y)) => Some((l + 1, Digits(g.n, l, y)))
  }

  /** The disk block of file block fb: 0 for a hole, None beyond what an inode can map. */
  function BlockOf(g: Geometry, dev: Device, zones: seq<nat>, fb: nat): Option<nat>
    requires g.Ok() && |zones| == g.nd + g.ni
  {
    match PathOf(g, fb)
    case None => None
    case Some((tree, ds)) =>
      if tree == 0 then Some(zones[fb])
      else if tree <= g.ni then Some(Follow(dev, g.wide, zones[g.nd + tree - 1], ds))
      else None
  }

  ghost predicate IsPath(g: Geometry, tree: nat, ds: seq<nat>) {
    if tree == 0 then |ds| == 1 && ds[0] < g.nd else tree <= g.ni && |ds| == tree && AllBelow(ds, g.n)
  }

  /** The file block a path leads to. */
  function BlockAt(g: Geometry, tree: nat, ds: seq<nat>): nat
    requires |ds| > 0
  {
    if tree == 0 then ds[0] else g.nd + Base(g.n, tree - 1) + Value(g.n, ds)
  }

  /** Exactly the file blocks below the capacity have a path, and it leads back to them. */
  lemma PathThere(g: Geometry, fb: nat)
    requires g.Ok()
    ensures PathOf(g, fb).Some? <==> fb < Capacity(g)
    ensures PathOf(g, fb).Some? ==>
              var p := PathOf(g, fb).value; IsPath(g, p.0, p.1) && |p.1| > 0 && BlockAt(g, p.0, p.1) == fb
  {
    if fb >= g.nd {
      LocateIs(g.n, g.ni, 0, fb - g.nd);
      match Locate(g.n, g.ni, 0, fb - g.nd)
      case Some((l, y)) =>
        DigitsInRange(g.n, l, y);
        BaseGrows(g.n, l + 1, g.ni);
      case None =>
    }
  }

  /** Every path is the path of exactly the block it leads to. */
  lemma PathBack(g: Geometry, tree: nat, ds: seq<nat>)
    requires g.Ok() && |ds| > 0 && IsPath(g, tree, ds)
    ensures PathOf(g, BlockAt(g, tree, ds)) == Some((tree, ds))
  {
    if tree > 0 {
      ValueInRange(g.n, ds);
      LocateOnto(g.n, g.ni, 0, tree - 1, Value(g.n, ds));
    } else {
      assert ds == [ds[0]];
    }
  }

  lemma {:induction false} BaseGrows(n: nat, k: nat, m: nat)
    requires k <= m
    ensures Base(n, k) <= Base(n, m)
    decreases m
  {
    if k < m { BaseGrows(n, k, m - 1); }
  }
}
