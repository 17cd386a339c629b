/** tools/mkminix.py: building a Minix image in one byte array. */
module MkMinix {
  import opened Options
  import opened Arith
  import opened BlockMaps
  import opened FileReaders
  import opened ImageBytes
  import opened MinixFs
  import opened MinixLayout

  const IMAP: nat := 2048
  const ZMAP: nat := 3072

  /** zmap_blocks for an image of this many zones. */
  function ZmapBlocks(nzones: nat): nat { (nzones + 1 + 8191) / 8192 }

  /** Exactly the first n of the first limit bits are set. */
  ghost predicate MapOk(d: seq<Byte>, base: nat, n: nat, limit: nat) {
    forall i: nat | i < limit :: Marked(d, base, i) <==> i < n
  }

  lemma MarkNext(d: seq<Byte>, base: nat, n: nat, limit: nat)
    requires n < limit && base + (limit - 1) / 8 < |d| && MapOk(d, base, n, limit)
    ensures MapOk(Mark(d, base, n), base, n + 1, limit)
  {
    forall i: nat | i < limit ensures Marked(Mark(d, base, n), base, i) <==> i < n + 1 { MarkIs(d, base, n, i); }
  }

  lemma MapStays(d: seq<Byte>, e: seq<Byte>, base: nat, n: nat, limit: nat, hi: nat)
    requires MapOk(d, base, n, limit) && Same(d, e, base, hi) && (limit > 0 ==> base + (limit - 1) / 8 < hi <= |d|)
    ensures MapOk(e, base, n, limit)
  {
    forall i: nat | i < limit ensures Marked(e, base, i) <==> i < n {
      assert Marked(d, base, i) <==> i < n;
      assert e[base + i / 8] == d[base + i / 8];
    }
  }

  /** The consecutive zones z0, z0 + 1, ... */
  function Run(z0: nat, n: nat): (r: seq<nat>)
    ensures |r| == n && forall i: nat | i < n :: r[i] == z0 + i
  {
    seq<nat>(n, i requires 0 <= i < n => z0 + i)
  }

  /** Nothing changes in inodes 1 .. n-1 and in the zones below z. */
  ghost predicate Keeps(d: seq<Byte>, e: seq<Byte>, zb: nat, n: nat, z: nat)
    requires n > 0
  {
    Same(d, e, 1024 * (3 + zb), InodeOff(zb, n)) && Same(d, e, 1024 * (18 + zb), 1024 * z)
  }

  lemma KeepsStep(d: seq<Byte>, e: seq<Byte>, f: seq<Byte>, zb: nat, n: nat, z: nat)
    requires n > 0 && Keeps(d, e, zb, n, z) && Keeps(e, f, zb, n, z)
    ensures Keeps(d, f, zb, n, z)
  {
    SameTrans(d, e, f, 1024 * (3 + zb), InodeOff(zb, n));
    SameTrans(d, e, f, 1024 * (18 + zb), 1024 * z);
  }

  lemma {:induction false} ZeroBits(k: nat)
    ensures !BitOf(0, k)
  {
    if k > 0 { ZeroBits(k - 1); }
  }

  /** In a map that is all zero, setting bit 0 leaves exactly bit 0 set. */
  lemma FirstBit(d: seq<Byte>, base: nat, limit: nat)
    requires limit > 0 && base + (limit - 1) / 8 < |d| && forall k | base <= k <= base + (limit - 1) / 8 :: d[k] == 0
    ensures MapOk(Mark(d, base, 0), base, 1, limit)
  {
    forall i: nat | i < limit ensures Marked(Mark(d, base, 0), base, i) <==> i < 1 {
      MarkIs(d, base, 0, i);
      ZeroBits(i % 8);
    }
  }

  /** The super block in block 1. */
  method SuperBlock(d: seq<Byte>, nzones: nat, zb: nat) returns (e: seq<Byte>)
    requires |d| >= 1024 * (18 + zb) && zb < 65536
    ensures SuperOk(e, zb) && Same(d, e, IMAP, |d|)
  {
    var e1 := Put(d, 1024, Pack16(NINODES) + Pack16(nzones));
    var e2 := Put(e1, 1028, Pack16(1));
    var e3 := Put(e2, 1030, Pack16(zb));
    var e4 := Put(e3, 1032, Pack16(18 + zb) + Pack16(0) + Pack32(0x10081C00));
    e := Put(e4, 1040, Pack16(MINIX_SUPER_MAGIC));
    Put16(e1, 1028, 1);
    Put16(e2, 1030, zb);
    Put16(e4, 1040, MINIX_SUPER_MAGIC);
    assert e[1028] == e2[1028] && e[1029] == e2[1029] && e[1030] == e3[1030] && e[1031] == e3[1031];
  }

  class Image {
    const nzones: nat
    const zb: nat          // zmap_blocks
    var d: seq<Byte>
    ghost var nz: nat      // zone map bits set so far
    ghost var ni: nat      // inode map bits set so far

    /** The zone the next allocation gives. */
    ghost function NextZone(): nat
      reads this
    {
      18 + zb + nz - 1
    }

    ghost predicate Valid()
      reads this
    {
      && 1440 <= nzones <= 65535 && zb == ZmapBlocks(nzones) && |d| == 1024 * nzones
      && 1 <= nz <= nzones - (18 + zb) && 1 <= ni <= NINODES + 1
      && SuperOk(d, zb) && MapOk(d, IMAP, ni, NINODES + 1) && MapOk(d, ZMAP, nz, nzones - (18 + zb))
    }

    /** A blank image of this many zones: the super block, and bit 0 of both maps. */
    constructor (nzones: nat)
      requires 1440 <= nzones <= 65535
      ensures Valid() && this.nzones == nzones && nz == 1 && ni == 1
    {
      var zb := ZmapBlocks(nzones);
      this.nzones, this.zb, nz, ni := nzones, zb, 1, 1;
      var e := SuperBlock(Zeros(1024 * nzones), nzones, zb);
      d := Mark(Mark(e, IMAP, 0), ZMAP, 0);
      new;
      FirstBit(e, IMAP, NINODES + 1);
      MapStays(Mark(e, IMAP, 0), d, IMAP, 1, NINODES + 1, ZMAP);
      FirstBit(Mark(e, IMAP, 0), ZMAP, nzones - (18 + zb));
      SuperStays(e, d, zb);
    }

    /** alloc_zone: the first clear bit; None is the exit with "out of zones". */
    method AllocZone() returns (r: Option<nat>)
      requires Valid()
      modifies this`d, this`nz
      ensures Valid()
      ensures r.Some? <==> old(nz) < nzones - (18 + zb)
      ensures r.Some? ==> r.value == old(NextZone()) && nz == old(nz) + 1 && r.value + 1 < nzones
      ensures r.None? ==> nz == old(nz)
      ensures Same(old(d), d, 1024 * (3 + zb), |d|)
    {
      var limit := nzones - (18 + zb);
      var i := 1;
      while i < limit
        invariant 1 <= i <= nz <= limit && d == old(d) && nz == old(nz)
      {
        if !Marked(d, ZMAP, i) {
          MarkNext(d, ZMAP, nz, limit);
          MapStays(d, Mark(d, ZMAP, i), IMAP, ni, NINODES + 1, ZMAP);
          d := Mark(d, ZMAP, i);
          nz := nz + 1;
          return Some(i + 18 + zb - 1);
        }
        i := i + 1;
      }
      return None;
    }

    /** alloc_ino. */
    method AllocIno() returns (r: Option<nat>)
      requires Valid()
      modifies this`d, this`ni
      ensures Valid()
      ensures r.Some? <==> old(ni) <= NINODES
      ensures r.Some? ==> r.value == old(ni) && ni == old(ni) + 1
      ensures r.None? ==> ni == old(ni)
      ensures Same(old(d), d, ZMAP, |d|)
    {
      var i := 1;
      while i < NINODES + 1
        invariant 1 <= i <= ni <= NINODES + 1 && d == old(d) && ni == old(ni)
      {
        if !Marked(d, IMAP, i) {
          MarkNext(d, IMAP, ni, NINODES + 1);
          MapStays(d, Mark(d, IMAP, i), ZMAP, nz, nzones - (18 + zb), 1024 * (3 + zb));
          d := Mark(d, IMAP, i);
          ni := ni + 1;
          return Some(i);
        }
        i := i + 1;
      }
      return None;
    }

    /** Store bytes behind the inode table. */
    method PutZone(z: nat, bytes: seq<Byte>)
      requires Valid() && 18 + zb <= z < nzones && |bytes| <= 1024
      modifies this`d
      ensures Valid() && d == Put(old(d), 1024 * z, bytes)
    {
      MapStays(d, Put(d, 1024 * z, bytes), IMAP, ni, NINODES + 1, ZMAP);
      MapStays(d, Put(d, 1024 * z, bytes), ZMAP, nz, nzones - (18 + zb), 1024 * (3 + zb));
      SuperStays(d, Put(d, 1024 * z, bytes), zb);
      d := Put(d, 1024 * z, bytes);
    }

    /** One turn of the first loop of write_file: chunk i of the data goes to a fresh zone. */
    method WriteChunk(data: seq<Byte>, i: nat, ghost z0: nat, ghost d0: seq<Byte>) returns (z: Option<nat>)
      requires Valid() && 1024 * i < |data| && NextZone() == z0 + i && 18 + zb <= z0
      requires DataAt(d, z0, data, 1024 * i) && Keeps(d0, d, zb, NINODES + 1, z0)
      modifies this`d, this`nz
      ensures Valid() && Keeps(d0, d, zb, NINODES + 1, z0)
      ensures z.Some? <==> old(nz) < nzones - (18 + zb)
      ensures z.Some? ==> z.value == z0 + i && nz == old(nz) + 1 && DataAt(d, z0, data, Min(1024 * i + 1024, |data|))
    {
      ghost var d1 := d;
      z := AllocZone();
      if z.None? {
        KeepsStep(d0, d1, d, zb, NINODES + 1, z0);
        return;
      }
      ghost var d2 := d;
      assert DataAt(d2, z0, data, 1024 * i);
      PutZone(z.value, data[1024 * i..Min(1024 * i + 1024, |data|)]);
      MoreData(d2, d, z0, data, i);
      KeepsStep(d0, d1, d, zb, NINODES + 1, z0);
    }

    /** The first loop of write_file: the chunks of the data go to fresh zones. */
    method WriteData(data: seq<Byte>) returns (r: Option<seq<nat>>)
      requires Valid()
      modifies this`d, this`nz
      ensures Valid()
      ensures r.Some? <==> old(nz) + BlocksFor(|data|) <= nzones - (18 + zb)
      ensures r.Some? ==>
                && nz == old(nz) + BlocksFor(|data|) && r.value == Run(old(NextZone()), BlocksFor(|data|))
                && DataAt(d, old(NextZone()), data, |data|)
      ensures Keeps(old(d), d, zb, NINODES + 1, old(NextZone()))
    {
      ghost var z0 := NextZone();
      var nblk := BlocksFor(|data|);
      var zones: seq<nat> := [];
      var i := 0;
      while i < nblk
        invariant Valid() && 0 <= i <= nblk && nz == old(nz) + i && zones == Run(z0, i)
        invariant DataAt(d, z0, data, Min(1024 * i, |data|)) && Keeps(old(d), d, zb, NINODES + 1, z0)
      {
        var z := WriteChunk(data, i, z0, old(d));
        if z.None? { return None; }
        zones := zones + [z.value];
        i := i + 1;
      }
      return Some(zones);
    }

    /** write_indirect: zone numbers in a fresh indirect block. */
    method WriteIndirect(zones: seq<nat>) returns (r: Option<nat>)
      requires Valid() && |zones| <= PER_IND && forall i: nat | i < |zones| :: zones[i] < 65536
      modifies this`d, this`nz
      ensures Valid() && Keeps(old(d), d, zb, NINODES + 1, old(NextZone()))
      ensures r.Some? <==> old(nz) < nzones - (18 + zb)
      ensures r.Some? ==> r.value == old(NextZone()) && nz == old(nz) + 1 && Words(d, r.value, zones)
    {
      r := AllocZone();
      if r.None? { return; }
      var blk := PackZones(zones);
      ghost var e := d;
      PutZone(r.value, blk);
      BlockWords(e, r.value, blk, zones);
    }

    /** The indirect blocks below the double indirect block. */
    method WriteInds(rest: seq<nat>, ghost n: nat, ghost z0: nat) returns (r: Option<seq<nat>>)
      requires Valid() && n >= 519 && rest == Run(z0 + 519, n - 519) && NextZone() == z0 + n + 1 && 18 + zb <= z0
      modifies this`d, this`nz
      ensures Valid() && Keeps(old(d), d, zb, NINODES + 1, z0 + n + 1)
      ensures r.Some? <==> old(nz) + Inds(n) <= nzones - (18 + zb)
      ensures r.Some? ==>
                && r.value == Run(z0 + n + 1, Inds(n)) && nz == old(nz) + Inds(n)
                && DoubleUpTo(d, n, z0, Inds(n))
    {
      var inds: seq<nat> := [];
      var i := 0;
      while i < |rest|
        invariant 0 <= i && i % 512 == 0 && i / 512 <= Inds(n) && Valid() && nz == old(nz) + i / 512
                  && inds == Run(z0 + n + 1, i / 512)
        invariant DoubleUpTo(d, n, z0, i / 512) && Keeps(old(d), d, zb, NINODES + 1, z0 + n + 1)
      {
        var iz := WriteInd(rest, i, n, z0, old(d));
        if iz.None? { return None; }
        inds := inds + [iz.value];
        i := i + 512;
      }
      return Some(inds);
    }

    method WriteInd(rest: seq<nat>, i: nat, ghost n: nat, ghost z0: nat, ghost d0: seq<Byte>) returns (r: Option<nat>)
      requires Valid() && n >= 519 && rest == Run(z0 + 519, n - 519) && i % 512 == 0 && i < |rest| && 18 + zb <= z0
      requires NextZone() == z0 + n + 1 + i / 512 && DoubleUpTo(d, n, z0, i / 512)
               && Keeps(d0, d, zb, NINODES + 1, z0 + n + 1)
      modifies this`d, this`nz
      ensures Valid() && Keeps(d0, d, zb, NINODES + 1, z0 + n + 1)
      ensures r.Some? <==> old(nz) < nzones - (18 + zb)
      ensures r.Some? ==> r.value == z0 + n + 1 + i / 512 && nz == old(nz) + 1 && DoubleUpTo(d, n, z0, i / 512 + 1)
    {
      ghost var e := d;
      var some := rest[i..Min(i + 512, |rest|)];
      r := WriteIndirect(some);
      KeepsStep(d0, e, d, zb, NINODES + 1, z0 + n + 1);
      if r.Some? { MoreDouble(e, d, zb, n, z0, i / 512, some); }
    }

    /** set_inode. */
    method SetInode(n: nat, mode: nat, size: nat, direct: seq<nat>, indirect: nat, dbl: nat, nlinks: Byte, now: nat)
      requires Valid() && 0 < n <= NINODES && mode < 65536 && size < 0x1_0000_0000 && indirect < 65536 && dbl < 65536
      requires |direct| <= 7 && forall i: nat | i < |direct| :: direct[i] < 65536
      modifies this`d
      ensures Valid()
      ensures Same(old(d), d, 0, InodeOff(zb, n)) && Same(old(d), d, InodeOff(zb, n) + 32, |d|)
      ensures var o := InodeOff(zb, n);
              && Le16(d, o) == mode && Le32(d, o + 4) == size && Zone(d, o, 7) == indirect && Zone(d, o, 8) == dbl
              && forall i: nat :: ZoneIs(d, o, direct, i)
    {
      var zs := direct + seq(7 - |direct|, _ => 0) + [indirect, dbl];
      var e := EncodeInode(d, InodeOff(zb, n), mode, size, now, nlinks, zs);
      assert zs[7] == indirect && zs[8] == dbl;
      forall i: nat ensures ZoneIs(e, InodeOff(zb, n), direct, i) {
        if i < 7 { assert zs[i] == if i < |direct| then direct[i] else 0; }
      }
      MapStays(d, e, IMAP, ni, NINODES + 1, ZMAP);
      MapStays(d, e, ZMAP, nz, nzones - (18 + zb), 1024 * (3 + zb));
      SuperStays(d, e, zb);
      d := e;
    }

    /** The double indirect block and the blocks below it. */
    method WriteDouble(rest: seq<nat>, ghost n: nat, ghost z0: nat) returns (r: Option<nat>)
      requires Valid() && 519 < n < 65536 && rest == Run(z0 + 519, n - 519) && NextZone() == z0 + n + 1 && 18 + zb <= z0
      modifies this`d, this`nz
      ensures Valid() && Keeps(old(d), d, zb, NINODES + 1, z0 + n + 1)
      ensures r.Some? <==> old(nz) + Inds(n) + 1 <= nzones - (18 + zb)
      ensures r.Some? ==> r.value == Double(n, z0) < 65536 && nz == old(nz) + Inds(n) + 1
      ensures r.Some? ==> DoubleUpTo(d, n, z0, Inds(n)) && Words(d, Double(n, z0), Run(z0 + n + 1, Inds(n)))
    {
      ghost var d0 := d;
      var inds := WriteInds(rest, n, z0);
      if inds.None? { return None; }
      ghost var d1 := d;
      r := WriteIndirect(inds.value);
      KeepsStep(d0, d1, d, zb, NINODES + 1, z0 + n + 1);
      if r.Some? { DoubleStays(d1, d, zb, n, z0); }
    }

    /** The pointer blocks of write_file: i_zone[7] and i_zone[8]. */
    method WritePointers(zones: seq<nat>, ghost n: nat, ghost z0: nat) returns (r: Option<(nat, nat)>)
      requires Valid() && n < 65536 && zones == Run(z0, n) && NextZone() == z0 + n && 18 + zb <= z0
      modifies this`d, this`nz
      ensures Valid() && Keeps(old(d), d, zb, NINODES + 1, z0 + n)
      ensures r.Some? <==> old(nz) + ZonesFor(n) - n <= nzones - (18 + zb)
      ensures r.Some? ==>
                && nz == old(nz) + ZonesFor(n) - n && PointersOk(d, n, z0)
                && r.value.0 == (if n > 7 then z0 + n else 0) && r.value.1 == (if n > 519 then Double(n, z0) else 0)
                && r.value.0 < 65536 && r.value.1 < 65536
    {
      if |zones| <= 7 { return Some((0, 0)); }
      ghost var d0 := d;
      var single := WriteIndirect(zones[7..Min(519, |zones|)]);
      if single.None? { return None; }
      SingleIs(d, n, z0);
      if |zones| <= 519 { return Some((single.value, 0)); }
      ghost var d1 := d;
      assert zones[519..] == Run(z0 + 519, n - 519);
      var dbl := WriteDouble(zones[519..], n, z0);
      KeepsStep(d0, d1, d, zb, NINODES + 1, z0 + n);
      if dbl.None? { return None; }
      SingleStays(d1, d, zb, n, z0);
      IndsAre(d, n, z0);
      return Some((single.value, dbl.value));
    }

    /** write_file; None is the exit with "out of inodes" or "out of zones". */
    method WriteFile(data: seq<Byte>, mode: nat, now: nat) returns (r: Option<nat>)
      requires Valid() && mode < 65536 && |data| < 0x1_0000_0000
      modifies this`d, this`nz, this`ni
      ensures Valid() && Keeps(old(d), d, zb, old(ni), old(NextZone()))
      ensures r.Some? <==> old(nz) + ZonesFor(BlocksFor(|data|)) <= nzones - (18 + zb) && old(ni) <= NINODES
      ensures r.Some? ==>
                && r.value == old(ni) && ni == old(ni) + 1 && nz == old(nz) + ZonesFor(BlocksFor(|data|))
                && Stored(d, zb, Placed(old(ni), mode, data, old(NextZone())))
    {
      ghost var d0, z0 := d, NextZone();
      var zones := WriteData(data);
      KeepsLess(d0, d, zb, NINODES + 1, ni, z0, z0);
      if zones.None? { return None; }
      ghost var d1 := d;
      var ino := AllocIno();
      ghost var d2 := d;
      KeepsStep(d0, d1, d2, zb, old(ni), z0);
      if ino.None? { return None; }
      assert DataAt(d2, z0, data, |data|);
      var ok := FinishFile(data, mode, zones.value, ino.value, now, z0);
      KeepsStep(d0, d2, d, zb, old(ni), z0);
      if !ok { return None; }
      return ino;
    }

    /** The second half of write_file: pointer blocks and inode. */
    method FinishFile(data: seq<Byte>, mode: nat, zones: seq<nat>, ino: nat, now: nat, ghost z0: nat) returns (ok: bool)
      requires Valid() && mode < 65536 && |data| < 0x1_0000_0000 && 0 < ino <= NINODES && 18 + zb <= z0
      requires zones == Run(z0, BlocksFor(|data|)) && NextZone() == z0 + BlocksFor(|data|)
               && DataAt(d, z0, data, |data|)
      modifies this`d, this`nz
      ensures Valid() && Keeps(old(d), d, zb, ino, z0)
      ensures ok <==> old(nz) + ZonesFor(BlocksFor(|data|)) - BlocksFor(|data|) <= nzones - (18 + zb)
      ensures ok ==>
                && nz == old(nz) + ZonesFor(BlocksFor(|data|)) - BlocksFor(|data|)
                && Stored(d, zb, Placed(ino, mode, data, z0))
    {
      ghost var d2, n := d, BlocksFor(|data|);
      var ptrs := WritePointers(zones, n, z0);
      ghost var d3 := d;
      KeepsLess(d2, d3, zb, NINODES + 1, ino, z0 + n, z0);
      if ptrs.None? { return false; }
      SetInode(ino, mode, |data|, zones[..Min(7, |zones|)], ptrs.value.0, ptrs.value.1, 1, now);
      KeepsStep(d2, d3, d, zb, ino, z0);
      FileIs(d2, d3, d, zb, Placed(ino, mode, data, z0));
      return true;
    }

    /** A directory of one zone: its entries, then its inode. */
    method WriteDir(ino: nat, z: nat, bytes: seq<Byte>, nlinks: Byte, now: nat)
      requires Valid() && 0 < ino <= NINODES && 18 + zb <= z < nzones && 0 < |bytes| <= 1024
      modifies this`d
      ensures Valid() && Stored(d, zb, Placed(ino, IFDIR_755, bytes, z))
      ensures Same(old(d), d, 1024 * (3 + zb), InodeOff(zb, ino)) && Same(old(d), d, InodeOff(zb, ino) + 32, 1024 * z)
      ensures Same(old(d), d, 1024 * (z + 1), |d|)
    {
      PutZone(z, bytes);
      ghost var e := d;
      assert DataAt(e, z, bytes, |bytes|);
      SetInode(ino, IFDIR_755, |bytes|, [z], 0, 0, nlinks, now);
      DirIs(e, d, zb, ino, z, bytes);
    }
  }

  /** 0o040755 */
  const IFDIR_755: nat := 0x41ED

  lemma DirIs(e: seq<Byte>, d: seq<Byte>, zb: nat, ino: nat, z: nat, bytes: seq<Byte>)
    requires 0 < ino <= NINODES && 18 + zb <= z && 1024 * (z + 1) <= |e| == |d| && 0 < |bytes| <= 1024
    requires DataAt(e, z, bytes, |bytes|) && Same(e, d, InodeOff(zb, ino) + 32, |d|)
    requires HeadOk(d, InodeOff(zb, ino), Placed(ino, IFDIR_755, bytes, z))
    requires forall i: nat :: ZoneIs(d, InodeOff(zb, ino), [z], i)
    ensures Stored(d, zb, Placed(ino, IFDIR_755, bytes, z))
  {
    assert BlocksFor(|bytes|) == 1 && [z] == Run(z, 1)[..1];
    assert PointersOk(e, 1, z);
    FileIs(e, e, d, zb, Placed(ino, IFDIR_755, bytes, z));
  }

  lemma KeepsLess(d: seq<Byte>, e: seq<Byte>, zb: nat, n: nat, n': nat, z: nat, z': nat)
    requires 0 < n' <= n && z' <= z && Keeps(d, e, zb, n, z)
    ensures Keeps(d, e, zb, n', z')
  {
  }

  /** Data, then the pointers, then the inode: the file is stored. */
  lemma FileIs(d2: seq<Byte>, d3: seq<Byte>, d: seq<Byte>, zb: nat, p: Placed)
    requires 0 < p.ino <= NINODES && 18 + zb <= p.z0 && p.N() < 65536
    requires 1024 * (p.z0 + ZonesFor(p.N())) <= |d2| == |d3| == |d|
    requires DataAt(d2, p.z0, p.data, |p.data|) && Same(d2, d3, 1024 * (18 + zb), 1024 * (p.z0 + p.N()))
    requires PointersOk(d3, p.N(), p.z0) && Same(d3, d, InodeOff(zb, p.ino) + 32, |d|)
             && HeadOk(d, InodeOff(zb, p.ino), p)
    requires forall i: nat :: ZoneIs(d, InodeOff(zb, p.ino), Run(p.z0, p.N())[..Min(7, p.N())], i)
    ensures Stored(d, zb, p)
  {
    var o, n, z0 := InodeOff(zb, p.ino), p.N(), p.z0;
    ZonesStay(d3, d, n, z0);
    forall i: nat ensures DirectOk(d, o, n, z0, i) { assert ZoneIs(d, o, Run(z0, n)[..Min(7, n)], i); }
    forall q: nat | q < |p.data| ensures d[1024 * z0 + q] == p.data[q] {
      assert d[1024 * z0 + q] == d3[1024 * z0 + q] && d3[1024 * z0 + q] == d2[1024 * z0 + q];
    }
  }

  lemma SingleIs(d: seq<Byte>, n: nat, z0: nat)
    requires n > 7 && Words(d, z0 + n, Run(z0, n)[7..Min(519, n)])
    ensures forall i: nat :: SingleOk(d, n, z0, i)
  {
    var some := Run(z0, n)[7..Min(519, n)];
    forall i: nat ensures SingleOk(d, n, z0, i) { if 7 <= i < n && i < 519 { assert some[i - 7] == z0 + i; } }
  }

  lemma SingleStays(d: seq<Byte>, e: seq<Byte>, zb: nat, n: nat, z0: nat)
    requires 18 + zb <= z0 && 1024 * (z0 + n) + 1024 <= |d| && Same(d, e, 1024 * (18 + zb), 1024 * (z0 + n + 1))
    requires forall i: nat :: SingleOk(d, n, z0, i)
    ensures forall i: nat :: SingleOk(e, n, z0, i)
  {
    forall i: nat ensures SingleOk(e, n, z0, i) {
      assert SingleOk(d, n, z0, i);
      if 7 <= i < n && i < 519 { Same16(d, e, 1024 * (18 + zb), 1024 * (z0 + n + 1), 1024 * (z0 + n) + 2 * (i - 7)); }
    }
  }

  lemma DoubleStays(d: seq<Byte>, e: seq<Byte>, zb: nat, n: nat, z0: nat)
    requires 18 + zb <= z0 && 1024 * Double(n, z0) <= |d| && Same(d, e, 1024 * (18 + zb), 1024 * Double(n, z0))
    requires DoubleUpTo(d, n, z0, Inds(n))
    ensures DoubleUpTo(e, n, z0, Inds(n))
  {
    forall i: nat | i < 519 + 512 * Inds(n) ensures DoubleOk(e, n, z0, i) {
      assert DoubleOk(d, n, z0, i);
      if 519 <= i < n {
        assert (i - 519) / 512 < Inds(n);
        Same16(d, e, 1024 * (18 + zb), 1024 * Double(n, z0),
               1024 * (z0 + n + 1 + (i - 519) / 512) + 2 * ((i - 519) % 512));
      }
    }
  }

  lemma IndsAre(d: seq<Byte>, n: nat, z0: nat)
    requires n > 519 && DoubleUpTo(d, n, z0, Inds(n)) && Words(d, Double(n, z0), Run(z0 + n + 1, Inds(n)))
    ensures forall i: nat :: DoubleOk(d, n, z0, i)
    ensures forall j: nat :: IndOk(d, n, z0, j)
  {
    forall i: nat ensures DoubleOk(d, n, z0, i) { assert i < n ==> i < 519 + 512 * Inds(n); }
    forall j: nat ensures IndOk(d, n, z0, j) {
      if j < Inds(n) { assert Run(z0 + n + 1, Inds(n))[j] == z0 + n + 1 + j; }
    }
  }

  predicate ZoneIs(d: seq<Byte>, o: nat, direct: seq<nat>, i: nat) {
    i < 7 ==> Zone(d, o, i) == if i < |direct| then direct[i] else 0
  }

  method EncodeInode(d: seq<Byte>, o: nat, mode: nat, size: nat, now: nat, nlinks: Byte, zs: seq<nat>)
      returns (e: seq<Byte>)
    requires o + 32 <= |d| && mode < 65536 && size < 0x1_0000_0000
    requires |zs| == 9 && forall i: nat | i < 9 :: zs[i] < 65536
    ensures Same(d, e, 0, o) && Same(d, e, o + 32, |d|)
    ensures Le16(e, o) == mode && Le32(e, o + 4) == size
    ensures forall i: nat {:trigger zs[i]} | i < 9 :: Zone(e, o, i) == zs[i]
  {
    var d0 := Put(d, o + 2, Pack16(0));
    e := Put(d0, o, Pack16(mode));
    Put16(d0, o, mode);
    ghost var d1 := e;
    e := Put(e, o + 4, Pack32(size));
    Put32(d1, o + 4, size);
    PutSame(d1, o + 4, Pack32(size), o, o + 4);
    Same16(d1, e, o, o + 4, o);
    ghost var d2 := e;
    e := Put(e, o + 8, Pack32(now) + [nlinks, 0]);
    PutSame(d2, o + 8, Pack32(now) + [nlinks, 0], o, o + 8);
    Same16(d2, e, o, o + 8, o);
    Same32(d2, e, o, o + 8, o + 4);
    e := EncodeZones(e, o, zs);
  }

  method EncodeZones(d: seq<Byte>, o: nat, zs: seq<nat>) returns (e: seq<Byte>)
    requires o + 32 <= |d| && |zs| == 9 && forall i: nat | i < 9 :: zs[i] < 65536
    ensures Same(d, e, 0, o + 14) && Same(d, e, o + 32, |d|)
    ensures Le16(e, o) == Le16(d, o) && Le32(e, o + 4) == Le32(d, o + 4)
    ensures forall i: nat {:trigger zs[i]} | i < 9 :: Zone(e, o, i) == zs[i]
  {
    e := d;
    for i := 0 to 9
      invariant Same(d, e, 0, o + 14) && Same(d, e, o + 32, |d|)
      invariant forall j: nat {:trigger zs[j]} | j < i :: Zone(e, o, j) == zs[j]
    {
      ghost var was := e;
      e := Put(e, o + 14 + 2 * i, Pack16(zs[i]));
      Put16(was, o + 14 + 2 * i, zs[i]);
      PutSame(was, o + 14 + 2 * i, Pack16(zs[i]), 0, o + 14 + 2 * i);
      forall j: nat | j < i ensures Zone(e, o, j) == zs[j] { Same16(was, e, 0, o + 14 + 2 * i, o + 14 + 2 * j); }
    }
    Same16(d, e, 0, o + 14, o);
    Same32(d, e, 0, o + 14, o + 4);
  }

  /** Zone z holds these zone numbers. */
  ghost predicate Words(d: seq<Byte>, z: nat, zones: seq<nat>) {
    1024 * z + 1024 <= |d| && forall i: nat {:trigger zones[i]} | i < |zones| :: Le16(d, 1024 * z + 2 * i) == zones[i]
  }

  method PackZones(zones: seq<nat>) returns (blk: seq<Byte>)
    requires |zones| <= PER_IND && forall i: nat | i < |zones| :: zones[i] < 65536
    ensures |blk| == 1024 && forall i: nat {:trigger zones[i]} | i < |zones| :: Le16(blk, 2 * i) == zones[i]
  {
    blk := Zeros(1024);
    for i := 0 to |zones|
      invariant |blk| == 1024 && forall j: nat {:trigger zones[j]} | j < i :: Le16(blk, 2 * j) == zones[j]
    {
      ghost var was := blk;
      blk := Put(blk, 2 * i, Pack16(zones[i]));
      Put16(was, 2 * i, zones[i]);
      PutSame(was, 2 * i, Pack16(zones[i]), 0, 2 * i);
      forall j: nat | j < i ensures Le16(blk, 2 * j) == zones[j] { Same16(was, blk, 0, 2 * i, 2 * j); }
    }
  }

  lemma BlockWords(d: seq<Byte>, z: nat, blk: seq<Byte>, zones: seq<nat>)
    requires 1024 * z + 1024 <= |d| && |blk| == 1024 && |zones| <= PER_IND
    requires forall i: nat {:trigger zones[i]} | i < |zones| :: Le16(blk, 2 * i) == zones[i]
    ensures Words(Put(d, 1024 * z, blk), z, zones)
  {
    var e := Put(d, 1024 * z, blk);
    forall i: nat | i < |zones| ensures Le16(e, 1024 * z + 2 * i) == zones[i] {
      assert e[1024 * z + 2 * i] == blk[2 * i] && e[1024 * z + 2 * i + 1] == blk[2 * i + 1];
    }
  }

  /** The first j indirect blocks below the double indirect one are right. */
  ghost predicate DoubleUpTo(d: seq<Byte>, n: nat, z0: nat, j: nat) {
    forall i: nat :: i < 519 + 512 * j ==> DoubleOk(d, n, z0, i)
  }

  lemma MoreDouble(d: seq<Byte>, e: seq<Byte>, zb: nat, n: nat, z0: nat, j: nat, some: seq<nat>)
    requires 18 + zb <= z0 && 519 + 512 * j < n && DoubleUpTo(d, n, z0, j)
             && Same(d, e, 1024 * (18 + zb), 1024 * (z0 + n + 1 + j))
    requires some == Run(z0 + 519, n - 519)[512 * j..Min(512 * j + 512, n - 519)] && Words(e, z0 + n + 1 + j, some)
    ensures DoubleUpTo(e, n, z0, j + 1)
  {
    forall i: nat | i < 519 + 512 * (j + 1) ensures DoubleOk(e, n, z0, i) {
      if 519 <= i < n {
        if i < 519 + 512 * j {
          assert DoubleOk(d, n, z0, i);
          Same16(d, e, 1024 * (18 + zb), 1024 * (z0 + n + 1 + j),
                 1024 * (z0 + n + 1 + (i - 519) / 512) + 2 * ((i - 519) % 512));
        } else {
          var k := i - 519 - 512 * j;
          assert some[k] == z0 + i;
          assert (i - 519) / 512 == j && (i - 519) % 512 == k;
        }
      }
    }
  }

  /** The first n bytes of data lie at zone z0. */
  ghost predicate DataAt(d: seq<Byte>, z0: nat, data: seq<Byte>, n: nat) {
    n <= |data| && 1024 * z0 + n <= |d| && forall q: nat {:trigger data[q]} | q < n :: d[1024 * z0 + q] == data[q]
  }

  lemma MoreData(d: seq<Byte>, e: seq<Byte>, z0: nat, data: seq<Byte>, i: nat)
    requires 1024 * i < |data| && 1024 * (z0 + i) + 1024 <= |d| && DataAt(d, z0, data, 1024 * i)
    requires e == Put(d, 1024 * (z0 + i), data[1024 * i..Min(1024 * i + 1024, |data|)])
    ensures DataAt(e, z0, data, Min(1024 * i + 1024, |data|))
  {
    forall q: nat | q < Min(1024 * i + 1024, |data|) ensures e[1024 * z0 + q] == data[q] {
      if q < 1024 * i { assert d[1024 * z0 + q] == data[q]; }
    }
  }

  lemma SuperStays(d: seq<Byte>, e: seq<Byte>, zb: nat)
    requires SuperOk(d, zb) && Same(d, e, 0, 2048)
    ensures SuperOk(e, zb)
  {
    Same16(d, e, 0, 2048, 1024 + 4);
    Same16(d, e, 0, 2048, 1024 + 6);
    Same16(d, e, 0, 2048, 1024 + 16);
  }
}
