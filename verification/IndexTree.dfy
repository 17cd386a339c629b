/** Index blocks as they lie on the disk: packed block numbers, and trees of them.  Whatever
    numbers a file was laid out with, the reader finds them. */
module IndexTrees {
  import opened Arith
  import opened Options
  import opened BlockMaps
  import opened FileReaders
  import opened ImageBytes

  // ----- words -----

  /** The words of the disk are little-endian. */
  lemma LittleEndian(data: seq<Byte>, i: nat)
    requires i + 4 <= |data|
    ensures var a: int, b: int, c: int, d: int := data[i], data[i + 1], data[i + 2], data[i + 3];
            Le16(data, i) == a + 0x100 * b && Le32(data, i) == a + 0x100 * b + 0x10000 * c + 0x1000000 * d
  {
  }

  lemma PackedLittleEndian(x: nat)
    requires x < 0x1_0000_0000
    ensures Pack32(x) == [x % 0x100, x / 0x100 % 0x100, x / 0x10000 % 0x100, x / 0x1000000]
    ensures x < 0x10000 ==> Pack16(x) == [x % 0x100, x / 0x100]
  {
    var hi := x / 65536;
    assert hi / 256 == x / 0x1000000;
  }

  /** What the two file systems find in their index blocks, byte by byte, and in block 0 when
      they read a hole directly. */
  lemma IndexBytes(bs: nat, data: seq<Byte>, i: nat, dev: Device)
    ensures 4 * i + 4 <= |data| ==>
              Ptr(Ext2(bs).wide, data, i) == data[4 * i] as int + 0x100 * data[4 * i + 1] as int
                                             + 0x10000 * data[4 * i + 2] as int + 0x1000000 * data[4 * i + 3] as int
    ensures 2 * i + 2 <= |data| ==> Ptr(Minix.wide, data, i) == data[2 * i] as int + 0x100 * data[2 * i + 1] as int
    ensures DirectBlock(Ext2(bs), dev, 0) == Zeros(bs) && DirectBlock(Minix, dev, 0) == dev(0)
  {
    if 4 * i + 4 <= |data| { LittleEndian(data, 4 * i); }
  }

  /** Bytes of one entry of an index block, and the numbers that fit in it. */
  function Width(wide: bool): nat { if wide then 4 else 2 }

  predicate Fits(wide: bool, x: nat) { if wide then x < 0x1_0000_0000 else x < 0x1_0000 }

  function Entry(wide: bool, x: nat): (r: seq<Byte>)
    ensures |r| == Width(wide)
  {
    if wide then Pack32(x) else Pack16(x)
  }

  /** The entries of an index block, one after the other. */
  function Packed(wide: bool, nums: seq<nat>): (r: seq<Byte>)
    ensures |r| == Width(wide) * |nums|
  {
    if nums == [] then [] else Packed(wide, nums[..|nums| - 1]) + Entry(wide, nums[|nums| - 1])
  }

  /** data begins with these entries. */
  ghost predicate Holds(data: seq<Byte>, wide: bool, nums: seq<nat>) {
    |Packed(wide, nums)| <= |data| && data[..|Packed(wide, nums)|] == Packed(wide, nums)
  }

  lemma HoldsLess(data: seq<Byte>, wide: bool, nums: seq<nat>)
    requires nums != [] && Holds(data, wide, nums)
    ensures Holds(data, wide, nums[..|nums| - 1])
  {
    var init := Packed(wide, nums[..|nums| - 1]);
    assert data[..|init|] == Packed(wide, nums)[..|init|] == init;
  }

  /** The last entry is read back. */
  lemma LastReads(data: seq<Byte>, wide: bool, nums: seq<nat>)
    requires nums != [] && Holds(data, wide, nums) && Fits(wide, nums[|nums| - 1])
    ensures Ptr(wide, data, |nums| - 1) == nums[|nums| - 1]
  {
    var all, k, x := Packed(wide, nums), |nums| - 1, nums[|nums| - 1];
    var at := Width(wide) * k;
    assert all[at..] == Entry(wide, x);
    forall b: nat | b < Width(wide) ensures data[at + b] == Entry(wide, x)[b] {
      assert data[..|all|][at + b] == all[at + b] == all[at..][b];
    }
    Joined(data, wide, at, x);
  }

  lemma Joined(data: seq<Byte>, wide: bool, at: nat, x: nat)
    requires Fits(wide, x) && at + Width(wide) <= |data|
    requires forall b: nat | b < Width(wide) :: data[at + b] == Entry(wide, x)[b]
    ensures (if wide then Le32(data, at) else Le16(data, at)) == x
  {
    assert data[at + 0] == Entry(wide, x)[0] && data[at + 1] == Entry(wide, x)[1];
    if wide {
      assert data[at + 2] == Entry(wide, x)[2] && data[at + 3] == Entry(wide, x)[3];
      Joins(x, x / 65536);
    }
  }

  /** Every entry of an index block is read back. */
  lemma {:induction false} EntryReads(data: seq<Byte>, wide: bool, nums: seq<nat>, i: nat)
    requires i < |nums| && Holds(data, wide, nums) && Fits(wide, nums[i])
    ensures Ptr(wide, data, i) == nums[i]
    decreases |nums|
  {
    if i == |nums| - 1 {
      LastReads(data, wide, nums);
    } else {
      HoldsLess(data, wide, nums);
      EntryReads(data, wide, nums[..|nums| - 1], i);
    }
  }

  // ----- trees -----

  /** Part i of s, cut into parts of length p. */
  function Part(s: seq<nat>, p: nat, i: nat): seq<nat> {
    if Times(i, p) + p <= |s| then s[Times(i, p)..Times(i, p) + p] else []
  }

  ghost predicate AllZero(s: seq<nat>) { forall i: nat | i < |s| :: s[i] == 0 }

  /** Block num is the root of a tree of index blocks of this height over these leaves; number 0
      stands for a tree without leaves. */
  ghost predicate IsTree(dev: Device, wide: bool, n: nat, level: nat, num: nat, leaves: seq<nat>)
    decreases level
  {
    && |leaves| == Power(n, level + 1)
    && if num == 0 then AllZero(leaves)
       else exists kids: seq<nat> :: IsNode(dev, wide, n, level, num, leaves, kids)
  }

  ghost predicate IsNode(dev: Device, wide: bool, n: nat, level: nat, num: nat, leaves: seq<nat>, kids: seq<nat>)
    decreases level, 0
  {
    && |kids| == n && Holds(dev(num), wide, kids) && (forall i: nat | i < n :: Fits(wide, kids[i]))
    && if level == 0 then kids == leaves
       else forall i: nat | i < n :: IsTree(dev, wide, n, level - 1, kids[i], Part(leaves, Power(n, level), i))
  }

  /** Following the digits of x leads to leaf x. */
  lemma {:induction false} TreeReads(dev: Device, wide: bool, n: nat, level: nat, num: nat, leaves: seq<nat>, x: nat)
    requires n > 0 && IsTree(dev, wide, n, level, num, leaves) && x < |leaves|
    ensures Follow(dev, wide, num, Digits(n, level, x)) == leaves[x]
    decreases level
  {
    if num != 0 {
      var kids :| IsNode(dev, wide, n, level, num, leaves, kids);
      if level == 0 {
        TimesIs(n, 1);
        EntryReads(dev(num), wide, kids, x);
      } else {
        var p := Power(n, level);
        var q, r := Quot(x, p), Rem(x, p);
        PartAt(leaves, n, p, x);
        EntryReads(dev(num), wide, kids, q);
        TreeReads(dev, wide, n, level - 1, kids[q], Part(leaves, p, q), r);
        assert Digits(n, level, x)[1..] == Digits(n, level - 1, r);
      }
    }
  }

  lemma PartAt(s: seq<nat>, n: nat, p: nat, x: nat)
    requires p > 0 && |s| == Times(n, p) && x < |s|
    ensures Quot(x, p) < n && |Part(s, p, Quot(x, p))| == p && Part(s, p, Quot(x, p))[Rem(x, p)] == s[x]
  {
    QuotLess(x, n, p);
    QuotRem(x, p);
    var q := Quot(x, p);
    TimesIs(q, p);
    TimesIs(n, p);
    MulLess(q, n, p);
  }

  // ----- files -----

  /** The numbers of the blocks of a file, 0 for a hole, are laid out in the block numbers of its
      inode and in the trees below them. */
  ghost predicate LaidOut(g: Geometry, dev: Device, zones: seq<nat>, nums: seq<nat>) {
    && |zones| == g.nd + g.ni && |nums| == Capacity(g)
    && (forall i: nat | i < g.nd && i < |nums| :: nums[i] == zones[i])
    && forall l: nat | l < g.ni :: IsTree(dev, g.wide, g.n, l, zones[g.nd + l], Below(g, nums, l))
  }

  /** The part of the numbers that belongs to the tree of level l. */
  function Below(g: Geometry, nums: seq<nat>, l: nat): seq<nat> {
    var lo := g.nd + Base(g.n, l);
    if lo + Power(g.n, l + 1) <= |nums| then nums[lo..lo + Power(g.n, l + 1)] else []
  }

  /** block_map finds exactly these numbers, whatever the file system. */
  lemma LaidOutReads(g: Geometry, dev: Device, zones: seq<nat>, nums: seq<nat>, fb: nat)
    requires g.Ok() && LaidOut(g, dev, zones, nums)
    ensures BlockOf(g, dev, zones, fb) == if fb < |nums| then Some(nums[fb]) else None
  {
    PathThere(g, fb);
    if g.nd <= fb < |nums| {
      LocateIs(g.n, g.ni, 0, fb - g.nd);
      var at := Locate(g.n, g.ni, 0, fb - g.nd).value;
      BehindReads(g, dev, zones, nums, fb, at.0, at.1);
    }
  }

  lemma BehindReads(g: Geometry, dev: Device, zones: seq<nat>, nums: seq<nat>, fb: nat, l: nat, y: nat)
    requires g.Ok() && LaidOut(g, dev, zones, nums) && g.nd <= fb < |nums| && l < g.ni && y < Power(g.n, l + 1)
    requires Locate(g.n, g.ni, 0, fb - g.nd) == Some((l, y)) && fb == g.nd + Base(g.n, l) + y
    ensures BlockOf(g, dev, zones, fb) == Some(nums[fb])
  {
    BelowAt(g, nums, l, y);
    BlockBehind(g, dev, zones, fb, l, y);
    TreeReads(dev, g.wide, g.n, l, zones[g.nd + l], Below(g, nums, l), y);
  }

  lemma BelowAt(g: Geometry, nums: seq<nat>, l: nat, y: nat)
    requires |nums| == Capacity(g) && l < g.ni && y < Power(g.n, l + 1)
    ensures |Below(g, nums, l)| == Power(g.n, l + 1) && g.nd + Base(g.n, l) + y < |nums|
    ensures Below(g, nums, l)[y] == nums[g.nd + Base(g.n, l) + y]
  {
    BaseGrows(g.n, l + 1, g.ni);
  }

  /** Byte by byte: the bytes of a block come from the disk, those of a hole are 0. */
  lemma LaidOutBytes(g: Geometry, dev: Device, zones: seq<nat>, nums: seq<nat>, lo: nat, n: nat, j: nat)
    requires g.Ok() && DevOk(g, dev) && LaidOut(g, dev, zones, nums) && j < n && Quot(lo + j, g.bs) < |nums|
    ensures Slice(g, dev, zones, lo, n)[j] ==
            var num := nums[Quot(lo + j, g.bs)]; if num == 0 then 0 else dev(num)[Rem(lo + j, g.bs)]
  {
    var q := lo + j;
    var num := nums[Quot(q, g.bs)];
    LaidOutReads(g, dev, zones, nums, Quot(q, g.bs));
    assert |dev(num)| == g.bs && Rem(q, g.bs) < g.bs;
    assert Slice(g, dev, zones, lo, n)[j] == FileByte(g, dev, zones, q);
    assert FileBlock(g, dev, zones, Quot(q, g.bs)) == if num == 0 then Zeros(g.bs) else dev(num);
  }

  function Nones(n: nat): (r: seq<nat>)
    ensures |r| == n && forall i: nat | i < n :: r[i] == 0
  {
    seq(n, _ => 0)
  }

  /** For example, a file with one indirect block b: its numbers are the direct ones and those
      packed in b, and further blocks are holes. */
  lemma SingleLaidOut(g: Geometry, dev: Device, direct: seq<nat>, b: nat, leaves: seq<nat>)
    requires g.Ok() && |direct| == g.nd && |leaves| == g.n && b > 0
    requires Holds(dev(b), g.wide, leaves) && forall i: nat | i < g.n :: Fits(g.wide, leaves[i])
    ensures Capacity(g) >= g.nd + g.n
    ensures LaidOut(g, dev, direct + [b] + Nones(g.ni - 1), direct + leaves + Nones(Capacity(g) - g.nd - g.n))
  {
    FirstBase(g.n);
    BaseGrows(g.n, 1, g.ni);
    var nums, zones := direct + leaves + Nones(Capacity(g) - g.nd - g.n), direct + [b] + Nones(g.ni - 1);
    forall l: nat | l < g.ni ensures IsTree(dev, g.wide, g.n, l, zones[g.nd + l], Below(g, nums, l)) {
      BaseGrows(g.n, l + 1, g.ni);
      if l == 0 {
        assert Below(g, nums, 0) == leaves;
        assert IsNode(dev, g.wide, g.n, 0, b, leaves, leaves);
      } else {
        BaseGrows(g.n, 1, l);
        ZeroBelow(g, nums, l);
      }
    }
  }

  lemma FirstBase(n: nat)
    ensures Base(n, 0) == 0 && Base(n, 1) == n && Power(n, 1) == n
  {
    TimesIs(n, 1);
    assert Power(n, 0) == 1;
    assert Base(n, 1) == Base(n, 0) + Power(n, 1);
  }

  lemma ZeroBelow(g: Geometry, nums: seq<nat>, l: nat)
    requires |nums| == Capacity(g) && l < g.ni && g.n <= Base(g.n, l)
    requires forall i: nat | g.nd + g.n <= i < |nums| :: nums[i] == 0
    ensures |Below(g, nums, l)| == Power(g.n, l + 1) && AllZero(Below(g, nums, l))
  {
    BaseGrows(g.n, l + 1, g.ni);
    assert Base(g.n, l + 1) == Base(g.n, l) + Power(g.n, l + 1);
  }
}
