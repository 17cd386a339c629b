/** Where mkminix puts a file, and that the reader finds it there. */
module MinixLayout {
  import opened Arith
  import opened Options
  import opened BlockMaps
  import opened FileReaders
  import opened ImageBytes
  import opened MinixFs

  const NINODES: nat := 480
  const PER_IND: nat := 512

  /** Blocks of a file of n bytes. */
  function BlocksFor(n: nat): nat { (n + 1023) / 1024 }

  /** Indirect blocks below the double indirect one. */
  function Inds(nblk: nat): nat { if nblk > 519 then (nblk - 519 + 511) / 512 else 0 }

  /** All zones of a file: data, then the single indirect block, then the indirect blocks of
      the double indirect block, then that block itself. */
  function ZonesFor(nblk: nat): nat {
    nblk + (if nblk > 7 then 1 else 0) + (if nblk > 519 then Inds(nblk) + 1 else 0)
  }

  /** A file whose zones start at z0. */
  datatype Placed = Placed(ino: nat, mode: nat, data: seq<Byte>, z0: nat) {
    function N(): nat { BlocksFor(|data|) }
  }

  function Double(nblk: nat, z0: nat): nat { z0 + nblk + 1 + Inds(nblk) }

  // ----- what the image holds for a file -----

  predicate DirectOk(d: seq<Byte>, o: nat, nblk: nat, z0: nat, i: nat) {
    i < 7 ==> Zone(d, o, i) == if i < nblk then z0 + i else 0
  }

  predicate SingleOk(d: seq<Byte>, nblk: nat, z0: nat, i: nat) {
    7 <= i < nblk && i < 519 ==> Le16(d, 1024 * (z0 + nblk) + 2 * (i - 7)) == z0 + i
  }

  predicate DoubleOk(d: seq<Byte>, nblk: nat, z0: nat, i: nat) {
    519 <= i < nblk ==> Le16(d, 1024 * (z0 + nblk + 1 + (i - 519) / 512) + 2 * ((i - 519) % 512)) == z0 + i
  }

  predicate IndOk(d: seq<Byte>, nblk: nat, z0: nat, j: nat) {
    j < Inds(nblk) ==> Le16(d, 1024 * Double(nblk, z0) + 2 * j) == z0 + nblk + 1 + j
  }

  predicate HeadOk(d: seq<Byte>, o: nat, p: Placed) {
    && Le16(d, o) == p.mode && Le32(d, o + 4) == |p.data|
    && Zone(d, o, 7) == (if p.N() > 7 then p.z0 + p.N() else 0)
    && Zone(d, o, 8) == (if p.N() > 519 then Double(p.N(), p.z0) else 0)
  }

  /** Offset of inode n in the inode table behind zb zone map blocks. */
  function InodeOff(zb: nat, n: nat): nat
    requires n > 0
  {
    1024 * (3 + zb) + 32 * (n - 1)
  }

  ghost predicate Stored(d: seq<Byte>, zb: nat, p: Placed)
    requires p.ino > 0
  {
    && 1024 * (p.z0 + ZonesFor(p.N())) <= |d| && p.z0 > 0
    && HeadOk(d, InodeOff(zb, p.ino), p)
    && (forall i: nat :: DirectOk(d, InodeOff(zb, p.ino), p.N(), p.z0, i))
    && PointersOk(d, p.N(), p.z0)
    && 1024 * p.z0 + |p.data| <= |d| && d[1024 * p.z0..1024 * p.z0 + |p.data|] == p.data
  }

  /** The super block fields the reader uses. */
  predicate SuperOk(d: seq<Byte>, zb: nat) {
    |d| >= 1024 * (18 + zb) && Le16(d, 1024 + 4) == 1 && Le16(d, 1024 + 6) == zb
      && Le16(d, 1024 + 16) == MINIX_SUPER_MAGIC
  }

  // ----- the reader finds it -----

  lemma BlockWord(d: seq<Byte>, b: nat, i: nat)
    requires 1024 * b + 1024 <= |d| && i + 2 <= 1024
    ensures Le16(ImgBlock(d, b), i) == Le16(d, 1024 * b + i)
  {
    var block := ImgBlock(d, b);
    assert block[i] == d[1024 * b + i] && block[i + 1] == d[1024 * b + (i + 1)];
  }

  lemma InodeIs(d: seq<Byte>, zb: nat, n: nat)
    requires SuperOk(d, zb) && 0 < n <= NINODES
    ensures InodeAt(d, n) == Decode(d, InodeOff(zb, n))
  {
    var b, o := 3 + zb + (n - 1) / 32, (n - 1) % 32 * 32;
    SuperWords(d, zb);
    assert InodeAt(d, n) == Decode(ImgBlock(d, b), o);
    InodePlace(n);
    DecodeBlock(d, b, o, InodeOff(zb, n));
  }

  lemma SuperWords(d: seq<Byte>, zb: nat)
    requires SuperOk(d, zb)
    ensures Le16(ImgBlock(d, 1), 4) == 1 && Le16(ImgBlock(d, 1), 6) == zb
            && Le16(ImgBlock(d, 1), 16) == MINIX_SUPER_MAGIC
  {
    BlockWord(d, 1, 4);
    BlockWord(d, 1, 6);
    BlockWord(d, 1, 16);
  }

  lemma InodePlace(n: nat)
    requires n > 0
    ensures 1024 * ((n - 1) / 32) + (n - 1) % 32 * 32 == 32 * (n - 1)
  {
  }

  lemma WordAt(d: seq<Byte>, b: nat, i: nat, k: nat)
    requires 1024 * b + 1024 <= |d| && i + 2 <= 1024 && k == 1024 * b + i
    ensures Le16(ImgBlock(d, b), i) == Le16(d, k)
  {
    BlockWord(d, b, i);
  }

  lemma DecodeBlock(d: seq<Byte>, b: nat, o: nat, off: nat)
    requires 1024 * b + 1024 <= |d| && o + 32 <= 1024 && off == 1024 * b + o
    ensures Decode(ImgBlock(d, b), o) == Decode(d, off)
  {
    WordAt(d, b, o, off);
    WordAt(d, b, o + 4, off + 4);
    WordAt(d, b, o + 6, off + 6);
    forall i: nat | i < 9 ensures Zone(ImgBlock(d, b), o, i) == Zone(d, off, i) {
      WordAt(d, b, o + 14 + 2 * i, off + 14 + 2 * i);
    }
  }

  lemma DoublePath(x: nat)
    ensures Digits(512, 1, x) == [x / 512, x % 512]
  {
    Powers(512);
    QuotRem(x, 512);
    assert Digits(512, 0, Rem(x, 512)) == [Rem(x, 512)];
  }

  /** The block behind single indirection, and behind double indirection. */
  lemma BlockSingle(dev: Device, zones: seq<nat>, i: nat)
    requires |zones| == 9 && 7 <= i < 519 && zones[7] > 0
    ensures BlockOf(Minix, dev, zones, i) == Some(Le16(dev(zones[7]), 2 * (i - 7)))
  {
    Powers(512);
    assert PathOf(Minix, i) == Some((1, [i - 7]));
    FollowOne(dev, zones[7], i - 7);
  }

  lemma BlockDouble(dev: Device, zones: seq<nat>, i: nat)
    requires |zones| == 9 && 519 <= i < 519 + 512 * 512 && zones[8] > 0
    requires Le16(dev(zones[8]), 2 * ((i - 519) / 512)) > 0
    ensures BlockOf(Minix, dev, zones, i) ==
            Some(Le16(dev(Le16(dev(zones[8]), 2 * ((i - 519) / 512))), 2 * ((i - 519) % 512)))
  {
    Powers(512);
    var x := i - 519;
    assert Locate(512, 2, 1, x) == Some((1, x));
    assert Locate(512, 2, 0, x + 512) == Some((1, x));
    DoublePath(x);
    FollowTwo(dev, zones[8], x / 512, x % 512);
  }

  /** dev is the image, block by block. */
  ghost predicate IsDisk(dev: Device, d: seq<Byte>) { forall b: nat :: dev(b) == ImgBlock(d, b) }

  /** The words of the image lead from the zones of an inode to zone z for block i. */
  predicate LeadsTo(d: seq<Byte>, zones: seq<nat>, i: nat, z: nat) {
    && |zones| == 9 && z > 0 && i < 519 + 512 * 512
    && if i < 7 then zones[i] == z
       else if i < 519 then zones[7] > 0 && Le16(ImgBlock(d, zones[7]), 2 * (i - 7)) == z
       else
         var b := Le16(ImgBlock(d, zones[8]), 2 * ((i - 519) / 512));
         zones[8] > 0 && b > 0 && Le16(ImgBlock(d, b), 2 * ((i - 519) % 512)) == z
  }

  lemma LeadsIs(d: seq<Byte>, dev: Device, zones: seq<nat>, i: nat, z: nat)
    requires IsDisk(dev, d) && LeadsTo(d, zones, i, z)
    ensures BlockOf(Minix, dev, zones, i) == Some(z)
  {
    if 7 <= i < 519 { BlockSingle(dev, zones, i); }
    if 519 <= i { BlockDouble(dev, zones, i); }
  }

  /** Block i of a stored file is zone z0 + i. */
  lemma StoredLeads(d: seq<Byte>, zb: nat, p: Placed, zones: seq<nat>, i: nat)
    requires p.ino > 0 && Stored(d, zb, p) && zones == Decode(d, InodeOff(zb, p.ino)).zones
    requires i < p.N() <= 519 + 512 * 512
    ensures LeadsTo(d, zones, i, p.z0 + i)
  {
    assert DirectOk(d, InodeOff(zb, p.ino), p.N(), p.z0, i);
    assert SingleOk(d, p.N(), p.z0, i) && DoubleOk(d, p.N(), p.z0, i);
    if 519 <= i { assert IndOk(d, p.N(), p.z0, (i - 519) / 512); }
    LeadsFrom(d, p.N(), p.z0, zones, i);
  }

  lemma LeadsFrom(d: seq<Byte>, n: nat, z0: nat, zones: seq<nat>, i: nat)
    requires z0 > 0 && i < n <= 519 + 512 * 512 && |zones| == 9 && 1024 * (z0 + ZonesFor(n)) <= |d|
    requires (i < 7 ==> zones[i] == z0 + i) && (n > 7 ==> zones[7] == z0 + n) && (n > 519 ==> zones[8] == Double(n, z0))
    requires SingleOk(d, n, z0, i) && DoubleOk(d, n, z0, i) && (519 <= i ==> IndOk(d, n, z0, (i - 519) / 512))
    ensures LeadsTo(d, zones, i, z0 + i)
  {
    if 7 <= i < 519 { BlockWord(d, z0 + n, 2 * (i - 7)); }
    if 519 <= i { DoubleWords(d, n, z0, i); }
  }

  lemma DoubleWords(d: seq<Byte>, n: nat, z0: nat, i: nat)
    requires 519 <= i < n <= 519 + 512 * 512 && 1024 * (z0 + ZonesFor(n)) <= |d|
    requires DoubleOk(d, n, z0, i) && IndOk(d, n, z0, (i - 519) / 512)
    ensures var j, k := (i - 519) / 512, (i - 519) % 512;
            && Le16(ImgBlock(d, Double(n, z0)), 2 * j) == z0 + n + 1 + j
            && Le16(ImgBlock(d, z0 + n + 1 + j), 2 * k) == z0 + i
  {
    var j, k := (i - 519) / 512, (i - 519) % 512;
    assert j < Inds(n) <= 512;
    BlockWord(d, Double(n, z0), 2 * j);
    BlockWord(d, z0 + n + 1 + j, 2 * k);
  }

  lemma FollowOne(dev: Device, num: nat, i: nat)
    requires num > 0
    ensures Follow(dev, false, num, [i]) == Le16(dev(num), 2 * i)
  {
    assert [i][1..] == [];
  }

  lemma FollowTwo(dev: Device, num: nat, i: nat, j: nat)
    requires num > 0 && Le16(dev(num), 2 * i) > 0
    ensures Follow(dev, false, num, [i, j]) == Le16(dev(Le16(dev(num), 2 * i)), 2 * j)
  {
    assert [i, j][1..] == [j];
    FollowOne(dev, Le16(dev(num), 2 * i), j);
  }

  lemma ByteOfBlock(d: seq<Byte>, dev: Device, zones: seq<nat>, q: nat, z0: nat, b: Byte)
    requires IsDisk(dev, d) && z0 > 0 && LeadsTo(d, zones, q / 1024, z0 + q / 1024)
    requires 1024 * (z0 + q / 1024) + 1024 <= |d| && d[1024 * z0 + q] == b
    ensures FileByte(Minix, dev, zones, q) == b && ReadableAt(Minix, dev, zones, q)
  {
    QuotRem(q, 1024);
    LeadsIs(d, dev, zones, q / 1024, z0 + q / 1024);
    var z, r := z0 + q / 1024, q % 1024;
    assert 1024 * z + r == 1024 * z0 + q;
    assert FileBlock(Minix, dev, zones, q / 1024) == ImgBlock(d, z);
    assert ImgBlock(d, z)[r] == d[1024 * z + r];
  }

  lemma StoredByte(d: seq<Byte>, dev: Device, zb: nat, p: Placed, zones: seq<nat>, q: nat)
    requires IsDisk(dev, d) && p.ino > 0 && Stored(d, zb, p) && zones == Decode(d, InodeOff(zb, p.ino)).zones
    requires p.N() <= 519 + 512 * 512 && q < |p.data|
    ensures FileByte(Minix, dev, zones, q) == p.data[q] && ReadableAt(Minix, dev, zones, q)
  {
    StoredLeads(d, zb, p, zones, q / 1024);
    assert d[1024 * p.z0 + q] == d[1024 * p.z0..1024 * p.z0 + |p.data|][q];
    ByteOfBlock(d, dev, zones, q, p.z0, p.data[q]);
  }

  lemma StoredSlice(d: seq<Byte>, dev: Device, zb: nat, p: Placed, zones: seq<nat>)
    requires IsDisk(dev, d) && p.ino > 0 && Stored(d, zb, p) && zones == Decode(d, InodeOff(zb, p.ino)).zones
    requires p.N() <= 519 + 512 * 512
    ensures Slice(Minix, dev, zones, 0, |p.data|) == p.data && Readable(Minix, dev, zones, 0, |p.data|)
  {
    forall q: nat | 0 <= q < 0 + |p.data|
      ensures FileByte(Minix, dev, zones, q) == p.data[q] && ReadableAt(Minix, dev, zones, q) {
      StoredByte(d, dev, zb, p, zones, q);
    }
  }

  /** A stored file reads back: size and mode from its inode, and its bytes, none of them from
      a hole. */
  lemma StoredReads(d: seq<Byte>, zb: nat, p: Placed)
    requires SuperOk(d, zb) && 0 < p.ino <= NINODES && Stored(d, zb, p) && p.N() <= 519 + 512 * 512
    ensures var n := InodeAt(d, p.ino);
            && n.mode == p.mode && n.size == |p.data|
            && Slice(Minix, Disk(d), n.zones, 0, n.size) == p.data && Readable(Minix, Disk(d), n.zones, 0, n.size)
  {
    InodeIs(d, zb, p.ino);
    StoredSlice(d, Disk(d), zb, p, InodeAt(d, p.ino).zones);
  }

  // ----- and it stays -----

  /** A stored file stays stored while its inode and its zones are left alone. */
  lemma StoredStays(d: seq<Byte>, e: seq<Byte>, zb: nat, p: Placed)
    requires 0 < p.ino <= NINODES && Stored(d, zb, p) && |d| >= 1024 * (18 + zb) && p.N() <= 519 + 512 * 512
    requires Same(d, e, InodeOff(zb, p.ino), InodeOff(zb, p.ino) + 32)
    requires Same(d, e, 1024 * p.z0, 1024 * (p.z0 + ZonesFor(p.N())))
    ensures Stored(e, zb, p)
  {
    var o, n, z0 := InodeOff(zb, p.ino), p.N(), p.z0;
    HeadStays(d, e, o, p);
    forall i: nat ensures DirectOk(e, o, n, z0, i) {
      assert DirectOk(d, o, n, z0, i);
      if i < 7 { Same16(d, e, o, o + 32, o + 14 + 2 * i); }
    }
    ZonesStay(d, e, n, z0);
    assert |e| == |d|;
    forall q: nat | q < |p.data| ensures e[1024 * z0 + q] == p.data[q] {
      assert d[1024 * z0 + q] == d[1024 * z0..1024 * z0 + |p.data|][q];
    }
  }

  lemma HeadStays(d: seq<Byte>, e: seq<Byte>, o: nat, p: Placed)
    requires HeadOk(d, o, p) && o + 32 <= |d| && Same(d, e, o, o + 32)
    ensures HeadOk(e, o, p)
  {
    Same16(d, e, o, o + 32, o);
    Same32(d, e, o, o + 32, o + 4);
    Same16(d, e, o, o + 32, o + 28);
    Same16(d, e, o, o + 32, o + 30);
  }

  /** The indirect blocks. */
  ghost predicate PointersOk(d: seq<Byte>, n: nat, z0: nat) {
    && (forall i: nat :: SingleOk(d, n, z0, i))
    && (forall i: nat :: DoubleOk(d, n, z0, i))
    && (forall j: nat :: IndOk(d, n, z0, j))
  }

  lemma ZonesStay(d: seq<Byte>, e: seq<Byte>, n: nat, z0: nat)
    requires PointersOk(d, n, z0) && 1024 * (z0 + ZonesFor(n)) <= |d| && n <= 519 + 512 * 512
    requires Same(d, e, 1024 * z0, 1024 * (z0 + ZonesFor(n)))
    ensures PointersOk(e, n, z0)
  {
    var lo, hi := 1024 * z0, 1024 * (z0 + ZonesFor(n));
    forall i: nat ensures SingleOk(e, n, z0, i) {
      assert SingleOk(d, n, z0, i);
      if 7 <= i < n && i < 519 { Same16(d, e, lo, hi, 1024 * (z0 + n) + 2 * (i - 7)); }
    }
    forall i: nat ensures DoubleOk(e, n, z0, i) {
      assert DoubleOk(d, n, z0, i);
      if 519 <= i < n {
        assert (i - 519) / 512 < Inds(n);
        Same16(d, e, lo, hi, 1024 * (z0 + n + 1 + (i - 519) / 512) + 2 * ((i - 519) % 512));
      }
    }
    forall j: nat ensures IndOk(e, n, z0, j) {
      assert IndOk(d, n, z0, j);
      if j < Inds(n) {
        assert Inds(n) <= 512;
        Same16(d, e, lo, hi, 1024 * Double(n, z0) + 2 * j);
      }
    }
  }
}
