/** Reading a file through its index tree: block_map, buf_read_file and read_file, which ext2fs.c
    and minixfs.c share up to the constants in Geometry and the treatment of holes. */
module FileReaders {
  import opened Arith
  import opened Options
  import opened BlockMaps

  /** The cached indirect block of a level is the disk block whose number is cached with it. */
  predicate CacheOk(dev: Device, blkno: seq<int>, blk: seq<seq<Byte>>, level: nat) {
    level < |blkno| && level < |blk| && blkno[level] > 0 ==> blk[level] == dev(blkno[level])
  }

  lemma BlockBehind(g: Geometry, dev: Device, zones: seq<nat>, fb: nat, level: nat, x: nat)
    requires g.Ok() && |zones| == g.nd + g.ni && fb >= g.nd && level < g.ni
             && Locate(g.n, g.ni, 0, fb - g.nd) == Some((level, x))
    ensures BlockOf(g, dev, zones, fb) == Some(Follow(dev, g.wide, zones[g.nd + level], Digits(g.n, level, x)))
  {
  }

  ghost predicate DevOk(g: Geometry, dev: Device) { forall b: nat :: |dev(b)| == g.bs }

  function Zeros(n: nat): (r: seq<Byte>)
    ensures |r| == n
  {
    seq(n, _ => 0)
  }

  // ----- the logical file -----

  /** Block fb of the file; a hole, or a block that is not mapped, reads as zeros. */
  function FileBlock(g: Geometry, dev: Device, zones: seq<nat>, fb: nat): seq<Byte>
    requires g.Ok() && |zones| == g.nd + g.ni
  {
    match BlockOf(g, dev, zones, fb)
    case None => Zeros(g.bs)
    case Some(b) => if b == 0 then Zeros(g.bs) else dev(b)
  }

  function FileByte(g: Geometry, dev: Device, zones: seq<nat>, q: nat): Byte
    requires g.Ok() && |zones| == g.nd + g.ni
  {
    var block, i := FileBlock(g, dev, zones, Quot(q, g.bs)), Rem(q, g.bs);
    if i < |block| then block[i] else 0
  }

  /** Bytes lo .. lo+n-1 of the file. */
  function Slice(g: Geometry, dev: Device, zones: seq<nat>, lo: nat, n: nat): (r: seq<Byte>)
    requires g.Ok() && |zones| == g.nd + g.ni
    ensures |r| == n
  {
    seq<Byte>(n, j requires 0 <= j < n => FileByte(g, dev, zones, lo + j))
  }

  /** What a read straight into the caller's buffer stores. */
  function DirectBlock(g: Geometry, dev: Device, b: nat): seq<Byte> {
    if b == 0 && g.zeroHoles then Zeros(g.bs) else dev(b)
  }

  /** The direct path agrees with the file unless it meets a hole that it does not recognise
      and block 0 of the disk is not blank. */
  lemma DirectIsFile(g: Geometry, dev: Device, zones: seq<nat>, fb: nat)
    requires g.Ok() && |zones| == g.nd + g.ni && BlockOf(g, dev, zones, fb).Some?
    ensures DirectBlock(g, dev, BlockOf(g, dev, zones, fb).value) == FileBlock(g, dev, zones, fb)
       <==> g.zeroHoles || BlockOf(g, dev, zones, fb) != Some(0) || dev(0) == Zeros(g.bs)
  {
  }

  /** The pieces buf_read_file hands out: part of the buffered block, or a whole block read
      straight into the caller's buffer. */
  datatype Piece = NotInFile | Buffered(data: seq<Byte>) | Direct(block: seq<Byte>, count: nat)

  lemma ByteNear(g: Geometry, dev: Device, zones: seq<nat>, lo: nat, j: nat)
    requires g.Ok() && |zones| == g.nd + g.ni && Rem(lo, g.bs) + j < g.bs
             && |FileBlock(g, dev, zones, Quot(lo, g.bs))| == g.bs
    ensures FileByte(g, dev, zones, lo + j) == FileBlock(g, dev, zones, Quot(lo, g.bs))[Rem(lo, g.bs) + j]
  {
    QuotNear(lo, g.bs, j);
  }

  lemma SliceOfBlock(g: Geometry, dev: Device, zones: seq<nat>, lo: nat, n: nat)
    requires g.Ok() && |zones| == g.nd + g.ni && Rem(lo, g.bs) + n <= g.bs && DevOk(g, dev)
    ensures |FileBlock(g, dev, zones, Quot(lo, g.bs))| == g.bs
    ensures Slice(g, dev, zones, lo, n) == FileBlock(g, dev, zones, Quot(lo, g.bs))[Rem(lo, g.bs)..Rem(lo, g.bs) + n]
  {
    var block, off := FileBlock(g, dev, zones, Quot(lo, g.bs)), Rem(lo, g.bs);
    assert |block| == g.bs;
    forall j: nat | j < n ensures Slice(g, dev, zones, lo, n)[j] == block[off..off + n][j] {
      ByteNear(g, dev, zones, lo, j);
    }
  }

  lemma SliceMore(g: Geometry, dev: Device, zones: seq<nat>, lo: nat, n: nat, m: nat)
    requires g.Ok() && |zones| == g.nd + g.ni
    ensures Slice(g, dev, zones, lo, n) + Slice(g, dev, zones, lo + n, m) == Slice(g, dev, zones, lo, n + m)
  {
  }

  lemma SlicePrefix(g: Geometry, dev: Device, zones: seq<nat>, lo: nat, n: nat, m: nat)
    requires g.Ok() && |zones| == g.nd + g.ni && m <= n
    ensures Slice(g, dev, zones, lo, n)[..m] == Slice(g, dev, zones, lo, m)
  {
  }

  /** These bytes of the file are mapped, and none lies in a hole unless holes read as zeros. */
  ghost predicate Readable(g: Geometry, dev: Device, zones: seq<nat>, lo: nat, n: nat)
    requires g.Ok() && |zones| == g.nd + g.ni
  {
    forall q: nat | lo <= q < lo + n :: ReadableAt(g, dev, zones, q)
  }

  predicate ReadableAt(g: Geometry, dev: Device, zones: seq<nat>, q: nat)
    requires g.Ok() && |zones| == g.nd + g.ni
  {
    var b := BlockOf(g, dev, zones, Quot(q, g.bs));
    b.Some? && (g.zeroHoles || b != Some(0))
  }

  /** Everything asked for lies in the file and can be read. */
  ghost predicate InFile(g: Geometry, dev: Device, zones: seq<nat>, size: nat, lo: nat, n: nat)
    requires g.Ok() && |zones| == g.nd + g.ni
  {
    lo + n <= size && Readable(g, dev, zones, lo, n)
  }

  /** How many bytes one call of buf_read_file brings: the rest of the block, the file or the
      request, whichever ends first; only a hole that is cleared directly counts as a whole
      block even where the file ends inside it. */
  function PieceLen(g: Geometry, dev: Device, zones: seq<nat>, size: nat, offset: nat, left: nat, aligned: bool): nat
    requires g.Ok() && |zones| == g.nd + g.ni && offset < size
  {
    if Rem(offset, g.bs) == 0 && left >= g.bs && aligned && ClearedHole(g, dev, zones, offset) then g.bs
    else Min(left, Min(g.bs - Rem(offset, g.bs), size - offset))
  }

  predicate ClearedHole(g: Geometry, dev: Device, zones: seq<nat>, q: nat)
    requires g.Ok() && |zones| == g.nd + g.ni
  {
    g.zeroHoles && BlockOf(g, dev, zones, Quot(q, g.bs)) == Some(0)
  }

  predicate MappedAt(g: Geometry, dev: Device, zones: seq<nat>, q: nat)
    requires g.Ok() && |zones| == g.nd + g.ni
  {
    BlockOf(g, dev, zones, Quot(q, g.bs)).Some?
  }

  ghost predicate Mapped(g: Geometry, dev: Device, zones: seq<nat>, lo: nat, hi: nat)
    requires g.Ok() && |zones| == g.nd + g.ni
  {
    forall q: nat | lo <= q < hi :: MappedAt(g, dev, zones, q)
  }

  /** The request ends with the block the file ends in, and that block is a cleared hole. */
  predicate Overshoots(g: Geometry, dev: Device, zones: seq<nat>, size: nat, lo: nat, n: nat, addr: nat, rec: nat)
    requires g.Ok() && |zones| == g.nd + g.ni && rec > 0
  {
    && n >= g.bs && Rem(lo + n - g.bs, g.bs) == 0 && lo + n - g.bs < size < lo + n
    && ClearedHole(g, dev, zones, lo + n - g.bs) && (addr + n - g.bs) % rec == 0
  }

  /** When read_file succeeds: nothing is asked for, or all of it is mapped and lies in the file,
      or it lies in the file but for the end of a hole that is read directly. */
  ghost predicate Succeeds(g: Geometry, dev: Device, zones: seq<nat>, size: nat, lo: nat, n: nat, addr: nat, rec: nat)
    requires g.Ok() && |zones| == g.nd + g.ni && rec > 0
  {
    n == 0 || (&& lo < size && Mapped(g, dev, zones, lo, Min(lo + n, size))
               && (lo + n <= size || Overshoots(g, dev, zones, size, lo, n, addr, rec)))
  }

  /** memcpy, or a device read, of data to place at. */
  method Store(mem: array<Byte>, at: nat, data: seq<Byte>)
    requires at + |data| <= mem.Length
    modifies mem
    ensures mem[..] == old(mem[..at]) + data + old(mem[at + |data|..])
  {
    forall j | 0 <= j < |data| { mem[at + j] := data[j]; }
  }

  class FileReader {
    const g: Geometry
    const dev: Device
    var nindir: seq<nat>      // f_nindir
    var zones: seq<nat>       // block numbers of the inode, direct ones first
    var size: nat             // i_size
    var blkno: seq<int>       // f_blkno
    var blk: seq<seq<Byte>>   // f_blk
    var bufBlkno: int         // f_buf_blkno
    var buf: seq<Byte>        // f_buf

    ghost predicate Mounted()
      reads this
    {
      && g.Ok() && |zones| == g.nd + g.ni && |nindir| == g.ni && |blkno| == g.ni && |blk| == g.ni
      && (forall l: nat | l < g.ni :: nindir[l] == Power(g.n, l + 1))
      && (forall l: nat | l < g.ni :: CacheOk(dev, blkno, blk, l))
    }

    /** The level block_map uses for block x behind the direct ones. */
    method FindLevel(x: nat) returns (r: Option<(nat, nat)>)
      requires Mounted()
      ensures r == Locate(g.n, g.ni, 0, x)
      ensures r.Some? ==> r.value.0 < g.ni
    {
      var level, y := 0, x;
      while level < g.ni
        invariant level <= g.ni && Locate(g.n, g.ni, level, y) == Locate(g.n, g.ni, 0, x)
      {
        if y < nindir[level] { return Some((level, y)); }
        level, y := level + 1, y - nindir[level];
      }
      return None;
    }

    /** The indirect block num, from the cache of its level or from the device. */
    method IndirectBlock(level: nat, num: nat) returns (data: seq<Byte>)
      requires Mounted() && level < g.ni && num > 0
      modifies this`blkno, this`blk
      ensures Mounted() && data == dev(num)
    {
      assert CacheOk(dev, blkno, blk, level);
      if blkno[level] == num { return blk[level]; }
      data := dev(num);
      blkno, blk := blkno[level := num], blk[level := data];
      forall l: nat | l < g.ni ensures CacheOk(dev, blkno, blk, l) { assert CacheOk(dev, old(blkno), old(blk), l); }
    }

    /** block_map gives the block an uncached walk of the index tree gives, whatever earlier
        calls have left in the caches. */
    method BlockMap(fb: nat) returns (r: Option<nat>)
      requires Mounted()
      modifies this`blkno, this`blk
      ensures Mounted() && r == BlockOf(g, dev, zones, fb)
    {
      if fb < g.nd { return Some(zones[fb]); }
      var found := FindLevel(fb - g.nd);
      if found.None? { return None; }
      BlockBehind(g, dev, zones, fb, found.value.0, found.value.1);
      var level: int, x := found.value.0, found.value.1;
      var num := zones[g.nd + level];
      ghost var goal := Follow(dev, g.wide, num, Digits(g.n, level, x));
      while level >= 0
        invariant Mounted() && -1 <= level < g.ni
        invariant if level >= 0 then Follow(dev, g.wide, num, Digits(g.n, level, x)) == goal else num == goal
      {
        if num == 0 { break; }
        var data := IndirectBlock(level, num);
        var idx := x;
        if level > 0 { idx, x := Quot(x, nindir[level - 1]), Rem(x, nindir[level - 1]); }
        num := Ptr(g.wide, data, idx);
        level := level - 1;
      }
      return Some(num);
    }
  
    ghost predicate Valid()
      reads this
    {
      && Mounted() && DevOk(g, dev)
      && (bufBlkno >= 0 ==> BlockOf(g, dev, zones, bufBlkno).Some? && buf == FileBlock(g, dev, zones, bufBlkno))
    }

    /** mount_fs computes f_nindir; no inode has been read yet. */
    constructor (g: Geometry, dev: Device)
      requires g.Ok() && DevOk(g, dev)
      ensures Valid() && this.g == g && this.dev == dev && size == 0
    {
      this.g, this.dev := g, dev;
      var mult, level, counts := 1, 0, [];
      while level < g.ni
        invariant level <= g.ni && |counts| == level && mult == Power(g.n, level)
        invariant forall l: nat | l < level :: counts[l] == Power(g.n, l + 1)
      {
        mult := Times(g.n, mult);
        counts, level := counts + [mult], level + 1;
      }
      nindir := counts;
      zones, size := seq(g.nd + g.ni, _ => 0), 0;
      blkno, blk := seq(g.ni, _ => -1), seq(g.ni, _ => []);
      bufBlkno, buf := -1, [];
    }

    /** The end of read_inode: a new inode, and no buffers. */
    method SetInode(zones: seq<nat>, size: nat)
      requires Valid() && |zones| == g.nd + g.ni
      modifies this
      ensures Valid() && this.zones == zones && this.size == size
    {
      this.zones, this.size := zones, size;
      var level := 0;
      while level < g.ni
        invariant level <= g.ni && |blkno| == g.ni && |blk| == g.ni && forall l: nat | l < level :: blkno[l] == -1
        invariant this.zones == zones && this.size == size && nindir == old(nindir)
      {
        blkno, blk := blkno[level := -1], blk[level := []];
        level := level + 1;
      }
      bufBlkno, buf := -1, [];
    }

    /** Make block fb the buffered block. */
    method FillBuffer(fb: nat) returns (ok: bool)
      requires Valid()
      modifies this`blkno, this`blk, this`bufBlkno, this`buf
      ensures Valid() && ok == BlockOf(g, dev, zones, fb).Some?
      ensures ok ==> bufBlkno == fb
    {
      if fb == bufBlkno { return true; }
      var b := BlockMap(fb);
      if b.None? { return false; }
      buf := if b.value == 0 then Zeros(g.bs) else dev(b.value);
      bufBlkno := fb;
      return true;
    }
  
    /** buf_read_file.  want is the size of the caller's buffer, None if there is none, and
        aligned says whether it starts on a device record. */
    method BufRead(offset: nat, want: Option<nat>, aligned: bool) returns (r: Piece)
      requires Valid()
      modifies this`blkno, this`blk, this`bufBlkno, this`buf
      ensures Valid()
      ensures r.NotInFile? <==> offset >= size || BlockOf(g, dev, zones, Quot(offset, g.bs)).None?
      ensures r.Buffered? ==>
                && bufBlkno == Quot(offset, g.bs) && |r.data| > 0
                && r.data == Slice(g, dev, zones, offset, Min(g.bs - Rem(offset, g.bs), size - offset))
      ensures r.Direct? <==> !r.NotInFile? && Rem(offset, g.bs) == 0 && want.Some? && want.value >= g.bs && aligned
      ensures r.Direct? ==>
                && r.block == DirectBlock(g, dev, BlockOf(g, dev, zones, Quot(offset, g.bs)).value)
                && r.count == (if BlockOf(g, dev, zones, Quot(offset, g.bs)) == Some(0) && g.zeroHoles
                               then g.bs else Min(g.bs, size - offset))
    {
      if offset >= size { return NotInFile; }
      var off, fb := Rem(offset, g.bs), Quot(offset, g.bs);
      if off != 0 || want.None? || want.value < g.bs || !aligned {
        var ok := FillBuffer(fb);
        if !ok { return NotInFile; }
        var n := Min(g.bs - off, size - offset);
        SliceOfBlock(g, dev, zones, offset, n);
        return Buffered(buf[off..off + n]);
      }
      var b := BlockMap(fb);
      if b.None? { return NotInFile; }
      if b.value == 0 && g.zeroHoles { return Direct(Zeros(g.bs), g.bs); }
      return Direct(dev(b.value), Min(g.bs, size - offset));
    }
  
    /** One turn of the loop of read_file: c bytes from offset on go to place at. */
    method ReadPiece(offset: nat, mem: array<Byte>, at: nat, left: nat, aligned: bool) returns (c: nat)
      requires Valid() && left > 0 && at + left <= mem.Length
      modifies this`blkno, this`blk, this`bufBlkno, this`buf, mem
      ensures Valid() && c <= left
      ensures mem[..at] == old(mem[..at]) && mem[at + left..] == old(mem[at + left..])
      ensures InFile(g, dev, zones, size, offset, left) ==>
                c > 0 && mem[at..at + c] == Slice(g, dev, zones, offset, c)
      ensures c == if offset >= size || !MappedAt(g, dev, zones, offset) then 0
                   else PieceLen(g, dev, zones, size, offset, left, aligned)
    {
      var piece := BufRead(offset, Some(left), aligned);
      assert Readable(g, dev, zones, offset, left) ==> ReadableAt(g, dev, zones, offset);
      if piece.NotInFile? { return 0; }
      c := Min(left, if piece.Buffered? then |piece.data| else piece.count);
      var bytes := if piece.Buffered? then piece.data[..c] else piece.block;
      if InFile(g, dev, zones, size, offset, left) {
        PieceIsSlice(g, dev, zones, size, offset, left, piece);
      }
      Store(mem, at, bytes);
    }

    /** read_file: n bytes from offset on, to place start of memory whose first byte has address
        base on a device with records of rec bytes.  Whichever mix of buffered and direct reads
        is taken, the caller gets exactly that part of the file. */
    method ReadFile(offset: nat, mem: array<Byte>, start: nat, n: nat, base: nat, rec: nat) returns (ok: bool)
      requires Valid() && start + n <= mem.Length && rec > 0
      modifies this`blkno, this`blk, this`bufBlkno, this`buf, mem
      ensures Valid()
      ensures mem[..start] == old(mem[..start]) && mem[start + n..] == old(mem[start + n..])
      ensures InFile(g, dev, zones, size, offset, n) ==>
              ok && mem[start..start + n] == Slice(g, dev, zones, offset, n)
      ensures ok <==> Succeeds(g, dev, zones, size, offset, n, base + start, rec)
    {
      var done := 0;
      ghost var m0 := mem[..];
      if InFile(g, dev, zones, size, offset, n) {
        InFileSucceeds(g, dev, zones, size, offset, n, base + start, rec);
      }
      while done < n
        invariant Valid() && done <= n && Copied(g, dev, zones, size, offset, m0, mem[..], start, n, done)
        invariant Undecided(g, dev, zones, size, offset, n, base + start, rec, done)
      {
        done, ok := ReadMore(offset, mem, start, n, base, rec, done, m0);
        if !ok { return; }
      }
      return true;
    }

    /** One turn, seen from the whole request. */
    method ReadMore(offset: nat, mem: array<Byte>, start: nat, n: nat, base: nat, rec: nat, done: nat,
                    ghost m0: seq<Byte>)
        returns (done': nat, ok: bool)
      requires Valid() && start + n <= mem.Length == |m0| && rec > 0 && done < n
      requires Copied(g, dev, zones, size, offset, m0, mem[..], start, n, done)
      requires Undecided(g, dev, zones, size, offset, n, base + start, rec, done)
      modifies this`blkno, this`blk, this`bufBlkno, this`buf, mem
      ensures Valid() && done <= done' <= n && Copied(g, dev, zones, size, offset, m0, mem[..], start, n, done')
      ensures if ok then done < done' && Undecided(g, dev, zones, size, offset, n, base + start, rec, done')
              else !Succeeds(g, dev, zones, size, offset, n, base + start, rec)
    {
      ghost var before := mem[..];
      ReadableRest(g, dev, zones, size, offset, n, done);
      var c := ReadPiece(offset + done, mem, start + done, n - done, (base + start + done) % rec == 0);
      StillUndecided(g, dev, zones, size, offset, n, base + start, rec, done, c);
      CopiedMore(g, dev, zones, size, offset, before, mem[..], m0, start, n, done, c);
      return done + c, c > 0;
    }
  }

  lemma InFileSucceeds(g: Geometry, dev: Device, zones: seq<nat>, size: nat, lo: nat, n: nat, addr: nat, rec: nat)
    requires g.Ok() && |zones| == g.nd + g.ni && rec > 0 && InFile(g, dev, zones, size, lo, n)
    ensures Succeeds(g, dev, zones, size, lo, n, addr, rec)
  {
    forall q: nat | lo <= q < lo + n ensures MappedAt(g, dev, zones, q) { assert ReadableAt(g, dev, zones, q); }
  }

  /** In the middle of a request that found memory as m0: done of its n bytes have been read. */
  ghost predicate Copied(g: Geometry, dev: Device, zones: seq<nat>, size: nat, offset: nat, m0: seq<Byte>, m: seq<Byte>,
                         start: nat, n: nat, done: nat)
    requires g.Ok() && |zones| == g.nd + g.ni && start + n <= |m0| && done <= n
  {
    && |m| == |m0| && m[..start] == m0[..start] && m[start + n..] == m0[start + n..]
    && (InFile(g, dev, zones, size, offset, n) ==> m[start..start + done] == Slice(g, dev, zones, offset, done))
  }

  /** Whether the request succeeds is whether its rest does. */
  ghost predicate Undecided(g: Geometry, dev: Device, zones: seq<nat>, size: nat, offset: nat, n: nat, addr: nat,
                            rec: nat, done: nat)
    requires g.Ok() && |zones| == g.nd + g.ni && rec > 0 && done <= n
  {
    Succeeds(g, dev, zones, size, offset + done, n - done, addr + done, rec)
    <==> Succeeds(g, dev, zones, size, offset, n, addr, rec)
  }

  lemma SliceRead(g: Geometry, dev: Device, zones: seq<nat>, offset: nat, m: seq<Byte>, m': seq<Byte>, start: nat,
                  done: nat, c: nat)
    requires g.Ok() && |zones| == g.nd + g.ni && start + done + c <= |m| == |m'|
    requires m[start..start + done] == Slice(g, dev, zones, offset, done) && m'[..start + done] == m[..start + done]
    requires m'[start + done..start + done + c] == Slice(g, dev, zones, offset + done, c)
    ensures m'[start..start + (done + c)] == Slice(g, dev, zones, offset, done + c)
  {
    SliceMore(g, dev, zones, offset, done, c);
    assert m'[start..start + done] == m'[..start + done][start..];
    assert m[start..start + done] == m[..start + done][start..];
    assert m'[start..start + (done + c)] == m'[start..start + done] + m'[start + done..start + done + c];
  }

  lemma CopiedMore(g: Geometry, dev: Device, zones: seq<nat>, size: nat, offset: nat, m: seq<Byte>, m': seq<Byte>,
                   m0: seq<Byte>, start: nat, n: nat, done: nat, c: nat)
    requires g.Ok() && |zones| == g.nd + g.ni && start + n <= |m0| && done + c <= n && |m'| == |m0|
    requires Copied(g, dev, zones, size, offset, m0, m, start, n, done)
    requires m'[..start + done] == m[..start + done] && m'[start + n..] == m[start + n..]
    requires InFile(g, dev, zones, size, offset, n) ==>
             m'[start + done..start + done + c] == Slice(g, dev, zones, offset + done, c)
    ensures Copied(g, dev, zones, size, offset, m0, m', start, n, done + c)
  {
    assert m'[..start] == m'[..start + done][..start];
    assert m[..start] == m[..start + done][..start];
    if InFile(g, dev, zones, size, offset, n) { SliceRead(g, dev, zones, offset, m, m', start, done, c); }
  }

  lemma ReadableRest(g: Geometry, dev: Device, zones: seq<nat>, size: nat, lo: nat, n: nat, done: nat)
    requires g.Ok() && |zones| == g.nd + g.ni && done <= n
    ensures InFile(g, dev, zones, size, lo, n) ==> InFile(g, dev, zones, size, lo + done, n - done)
  {
  }

  lemma NoPiece(g: Geometry, dev: Device, zones: seq<nat>, size: nat, lo: nat, n: nat, addr: nat, rec: nat)
    requires g.Ok() && |zones| == g.nd + g.ni && rec > 0 && n > 0
    requires lo >= size || !MappedAt(g, dev, zones, lo)
    ensures !Succeeds(g, dev, zones, size, lo, n, addr, rec)
  {
  }

  /** The only block boundary from lo on, inside its block, is lo itself. */
  lemma BlockStart(bs: nat, lo: nat, c: nat, b: nat)
    requires bs > 0 && lo <= b < lo + c && c <= bs - Rem(lo, bs) && Rem(b, bs) == 0
    ensures b == lo
  {
    QuotNear(lo, bs, b - lo);
  }

  /** Taking one piece off a request does not change what is mapped of the rest. */
  lemma MappedRest(g: Geometry, dev: Device, zones: seq<nat>, lo: nat, c: nat, hi: nat)
    requires g.Ok() && |zones| == g.nd + g.ni && MappedAt(g, dev, zones, lo) && c <= g.bs - Rem(lo, g.bs)
    ensures Mapped(g, dev, zones, lo, hi) <==> Mapped(g, dev, zones, lo + c, hi)
  {
    if Mapped(g, dev, zones, lo + c, hi) {
      forall q: nat | lo <= q < hi ensures MappedAt(g, dev, zones, q) {
        if q < lo + c { QuotNear(lo, g.bs, q - lo); }
      }
    }
  }

  /** One turn of the loop does not change whether the request succeeds. */
  lemma SucceedsOn(g: Geometry, dev: Device, zones: seq<nat>, size: nat, lo: nat, n: nat, addr: nat, rec: nat, c: nat)
    requires g.Ok() && |zones| == g.nd + g.ni && rec > 0 && n > 0 && lo < size && MappedAt(g, dev, zones, lo)
    requires c == PieceLen(g, dev, zones, size, lo, n, addr % rec == 0)
    ensures 0 < c <= n
    ensures Succeeds(g, dev, zones, size, lo, n, addr, rec)
       <==> Succeeds(g, dev, zones, size, lo + c, n - c, addr + c, rec)
  {
    MappedRest(g, dev, zones, lo, c, Min(lo + n, size));
    if Overshoots(g, dev, zones, size, lo, n, addr, rec) && lo + n - g.bs < lo + c {
      BlockStart(g.bs, lo, c, lo + n - g.bs);
    }
  }

  lemma StillUndecided(g: Geometry, dev: Device, zones: seq<nat>, size: nat, offset: nat, n: nat, addr: nat, rec: nat,
                       done: nat, c: nat)
    requires g.Ok() && |zones| == g.nd + g.ni && rec > 0 && done < n
    requires Undecided(g, dev, zones, size, offset, n, addr, rec, done)
    requires c == if offset + done >= size || !MappedAt(g, dev, zones, offset + done) then 0
                  else PieceLen(g, dev, zones, size, offset + done, n - done, (addr + done) % rec == 0)
    ensures done + c <= n
    ensures if c > 0 then Undecided(g, dev, zones, size, offset, n, addr, rec, done + c)
            else !Succeeds(g, dev, zones, size, offset, n, addr, rec)
  {
    if offset + done >= size || !MappedAt(g, dev, zones, offset + done) {
      NoPiece(g, dev, zones, size, offset + done, n - done, addr + done, rec);
    } else {
      SucceedsOn(g, dev, zones, size, offset + done, n - done, addr + done, rec, c);
    }
  }

  /** The bytes a piece brings are the bytes of the file. */
  lemma PieceIsSlice(g: Geometry, dev: Device, zones: seq<nat>, size: nat, offset: nat, left: nat, p: Piece)
    requires g.Ok() && |zones| == g.nd + g.ni && DevOk(g, dev) && 0 < left && offset + left <= size
             && Readable(g, dev, zones, offset, left)
    requires p.Buffered? ==> |p.data| > 0 && p.data == Slice(g, dev, zones, offset, |p.data|)
    requires p.Direct? ==>
               && Rem(offset, g.bs) == 0 && left >= g.bs && BlockOf(g, dev, zones, Quot(offset, g.bs)).Some?
               && p.block == DirectBlock(g, dev, BlockOf(g, dev, zones, Quot(offset, g.bs)).value)
               && (p.count == g.bs || p.count == Min(g.bs, size - offset))
    ensures p.Buffered? ==> p.data[..Min(left, |p.data|)] == Slice(g, dev, zones, offset, Min(left, |p.data|))
    ensures p.Direct? ==> p.count == g.bs && p.block == Slice(g, dev, zones, offset, g.bs)
  {
    match p
    case NotInFile =>
    case Buffered(data) => SlicePrefix(g, dev, zones, offset, |data|, Min(left, |data|));
    case Direct(block, count) =>
      assert ReadableAt(g, dev, zones, offset);
      SliceOfBlock(g, dev, zones, offset, g.bs);
      DirectIsFile(g, dev, zones, Quot(offset, g.bs));
  }
}
