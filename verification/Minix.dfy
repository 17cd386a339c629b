/** Reading a Minix file system image: inodes, directories and paths. */
module MinixFs {
  import opened Arith
  import opened Options
  import opened BlockMaps
  import opened FileReaders
  import opened PathWalk

  const BS: nat := 1024
  const MINIX_SUPER_MAGIC: nat := 0x137F
  const MINIX_ROOTINO: nat := 1
  const MINIX_MAXNAMLEN: nat := 14
  const INODES_PER_BLOCK: nat := 32
  const DIRENT: nat := 16

  /** Block b of an image; the device has nothing behind the image. */
  function ImgBlock(img: seq<Byte>, b: nat): (r: seq<Byte>)
    ensures |r| == BS
  {
    if BS * b + BS <= |img| then img[BS * b..BS * b + BS] else Zeros(BS)
  }

  function Disk(img: seq<Byte>): Device { (b: nat) => ImgBlock(img, b) }

  // ----- inodes -----

  datatype Inode = Inode(mode: nat, size: nat, zones: seq<nat>)

  function Zone(data: seq<Byte>, o: nat, i: nat): nat { Le16(data, o + 14 + 2 * i) }

  /** struct minix_inode at offset o. */
  function Decode(data: seq<Byte>, o: nat): (r: Inode)
    ensures |r.zones| == 9
  {
    Inode(Le16(data, o), Le32(data, o + 4),
          [Zone(data, o, 0), Zone(data, o, 1), Zone(data, o, 2), Zone(data, o, 3), Zone(data, o, 4),
           Zone(data, o, 5), Zone(data, o, 6), Zone(data, o, 7), Zone(data, o, 8)])
  }

  /** read_inode: minix_ino2blk, then minix_itoo inodes into that block. */
  function InodeAt(img: seq<Byte>, ino: nat): (r: Inode)
    requires ino > 0
    ensures |r.zones| == 9
  {
    var super := ImgBlock(img, 1);
    var b := 2 + Le16(super, 4) + Le16(super, 6) + (ino - 1) / INODES_PER_BLOCK;
    Decode(ImgBlock(img, b), (ino - 1) % INODES_PER_BLOCK * 32)
  }

  /** S_IFMT and S_IFDIR: the top four of the 16 mode bits. */
  predicate IsDirectory(n: Inode) { n.mode / 0x1000 % 16 == 4 }

  // ----- directories -----

  /** A name of at most 14 bytes, ended by a 0 if it is shorter. */
  function CName(data: seq<Byte>): (r: seq<Byte>)
    ensures |r| <= |data|
  {
    if data == [] || data[0] == 0 then [] else [data[0]] + CName(data[1..])
  }

  datatype Found = Entry(ino: nat) | NotThere | NotMapped

  predicate IsEntry(bytes: seq<Byte>, name: seq<Byte>)
    requires |bytes| == DIRENT
  {
    Le16(bytes, 0) != 0 && CName(bytes[2..]) == name
  }

  /** search_directory from entry offset off on: the first used entry with this name. */
  function Search(img: seq<Byte>, n: Inode, name: seq<Byte>, off: nat): (r: Found)
    requires |n.zones| == 9
    ensures r.Entry? ==> r.ino > 0
    decreases n.size - off
  {
    if off >= n.size then NotThere
    else if BlockOf(Minix, Disk(img), n.zones, Quot(off, BS)).None? then NotMapped
    else
      var bytes := Slice(Minix, Disk(img), n.zones, off, DIRENT);
      if IsEntry(bytes, name) then Entry(Le16(bytes, 0)) else Search(img, n, name, off + DIRENT)
  }

  // ----- paths -----

  datatype Result = File(node: Inode) | Err(code: Outcome) | Unmapped | InvalidFs

  function Walk(img: seq<Byte>, n: Inode, path: Name): (r: Result)
    requires |n.zones| == 9
    ensures r.File? ==> |r.node.zones| == 9
    decreases |path|
  {
    if path == [] then File(n)
    else if !IsDirectory(n) then Err(NotDirectory)
    else
      var p := SkipSlashes(path);
      var bad := BadName(Head(p), 0, MINIX_MAXNAMLEN);
      if bad.Some? then Err(bad.value)
      else
        match Search(img, n, Head(p), 0)
        case NotThere => Err(NoEntry)
        case NotMapped => Unmapped
        case Entry(ino) => Walk(img, InodeAt(img, ino), Tail(p))
  }

  /** An entry holds at most 14 characters of a name. */
  lemma {:induction false} LongNameMissing(img: seq<Byte>, n: Inode, name: seq<Byte>, off: nat)
    requires |n.zones| == 9 && |name| > MINIX_MAXNAMLEN
    ensures !Search(img, n, name, off).Entry?
    decreases n.size - off
  {
    if off < n.size { LongNameMissing(img, n, name, off + DIRENT); }
  }

  /** The length check lets 15 characters through.  Such a component is looked for, and never
      found; only from 16 on is it an error of its own. */
  lemma LongComponent(img: seq<Byte>, n: Inode, path: Name)
    requires |n.zones| == 9 && path != [] && IsDirectory(n)
    requires var c := Head(SkipSlashes(path));
             |c| > MINIX_MAXNAMLEN && forall j: nat | j <= MINIX_MAXNAMLEN :: c[j] < 128
    ensures if |Head(SkipSlashes(path))| == MINIX_MAXNAMLEN + 1
            then Walk(img, n, path) == Err(NoEntry) || Walk(img, n, path) == Unmapped
            else Walk(img, n, path) == Err(NameTooLong)
  {
    var c := Head(SkipSlashes(path));
    BadNameExact(c, MINIX_MAXNAMLEN);
    LongNameMissing(img, n, c, 0);
  }

  /** minixfs_open_file. */
  function Open(img: seq<Byte>, path: Name): (r: Result)
    ensures r.File? ==> |r.node.zones| == 9
  {
    if path == [] then Err(NoEntry)
    else if Le16(ImgBlock(img, 1), 16) != MINIX_SUPER_MAGIC then InvalidFs
    else Walk(img, InodeAt(img, MINIX_ROOTINO), path)
  }

  // ----- what searching and walking mean -----

  /** A name ends at the first 0. */
  lemma {:induction false} CNameStops(name: Name, more: seq<Byte>)
    requires 0 !in name
    ensures CName(name + [0] + more) == name && CName(name) == name
  {
    if name == [] {
      assert name + [0] + more == [0] + more;
    } else {
      assert (name + [0] + more)[1..] == name[1..] + [0] + more;
      CNameStops(name[1..], more);
    }
  }

  lemma SearchHere(img: seq<Byte>, n: Inode, name: seq<Byte>, off: nat, bytes: Option<seq<Byte>>)
    requires |n.zones| == 9 && off < n.size && bytes.None? == BlockOf(Minix, Disk(img), n.zones, Quot(off, BS)).None?
    requires bytes.Some? ==> bytes.value == Slice(Minix, Disk(img), n.zones, off, DIRENT)
    ensures Search(img, n, name, off) ==
              if bytes.None? then NotMapped
              else if IsEntry(bytes.value, name) then Entry(Le16(bytes.value, 0))
              else Search(img, n, name, off + DIRENT)
  {
  }

  predicate HasEntry(img: seq<Byte>, n: Inode, k: nat)
    requires |n.zones| == 9
  {
    BlockOf(Minix, Disk(img), n.zones, Quot(DIRENT * k, BS)).Some?
  }

  function EntryBytes(img: seq<Byte>, n: Inode, k: nat): (r: seq<Byte>)
    requires |n.zones| == 9
    ensures |r| == DIRENT
  {
    Slice(Minix, Disk(img), n.zones, DIRENT * k, DIRENT)
  }

  /** Entry k is there and is not the one looked for: it is unused or has another name. */
  predicate Passes(img: seq<Byte>, n: Inode, name: Name, k: nat)
    requires |n.zones| == 9
  {
    DIRENT * k < n.size && HasEntry(img, n, k) && !IsEntry(EntryBytes(img, n, k), name)
  }

  lemma {:induction false} SearchPast(img: seq<Byte>, n: Inode, name: Name, j: nat, k: nat)
    requires |n.zones| == 9 && j <= k && forall i: nat | j <= i < k :: Passes(img, n, name, i)
    ensures Search(img, n, name, DIRENT * j) == Search(img, n, name, DIRENT * k)
    decreases k - j
  {
    if j < k {
      assert Passes(img, n, name, j);
      SearchHere(img, n, name, DIRENT * j, Some(EntryBytes(img, n, j)));
      assert DIRENT * j + DIRENT == DIRENT * (j + 1);
      SearchPast(img, n, name, j + 1, k);
    }
  }

  /** A search goes past the entries that do not match; the first one that does not let it pass
      decides: it ends the directory, or is not mapped, or is used and has the name. */
  lemma SearchStops(img: seq<Byte>, n: Inode, name: Name, k: nat)
    requires |n.zones| == 9 && forall j: nat | j < k :: Passes(img, n, name, j)
    ensures DIRENT * k >= n.size ==> Search(img, n, name, 0) == NotThere
    ensures DIRENT * k < n.size && !HasEntry(img, n, k) ==> Search(img, n, name, 0) == NotMapped
    ensures DIRENT * k < n.size && HasEntry(img, n, k) ==>
              var bytes := EntryBytes(img, n, k);
              Le16(bytes, 0) != 0 && CName(bytes[2..]) == name ==> Search(img, n, name, 0) == Entry(Le16(bytes, 0))
  {
    SearchPast(img, n, name, 0, k);
    if DIRENT * k < n.size {
      var bytes := if HasEntry(img, n, k) then Some(EntryBytes(img, n, k)) else None;
      SearchHere(img, n, name, DIRENT * k, bytes);
    }
  }

  /** The walk ends with the path, goes on only in a directory, and ignores slashes in front of
      a component. */
  lemma WalkLaws(img: seq<Byte>, n: Inode, path: Name)
    requires |n.zones| == 9
    ensures Walk(img, n, []) == File(n)
    ensures path != [] && !IsDirectory(n) ==> Walk(img, n, path) == Err(NotDirectory)
    ensures path != [] ==> Walk(img, n, [SLASH] + path) == Walk(img, n, path)
  {
    assert ([SLASH] + path)[1..] == path;
  }

  /** A component leads to the inode of its entry, where the rest of the path goes on. */
  lemma WalkInto(img: seq<Byte>, n: Inode, c: Name, rest: Name)
    requires |n.zones| == 9 && IsDirectory(n) && c != [] && SLASH !in c && (rest == [] || rest[0] == SLASH)
    requires |c| <= MINIX_MAXNAMLEN + 1 && forall i: nat | i < |c| :: c[i] < 128
    ensures Walk(img, n, c + rest) ==
            match Search(img, n, c, 0)
            case NotThere => Err(NoEntry)
            case NotMapped => Unmapped
            case Entry(ino) => Walk(img, InodeAt(img, ino), rest)
  {
    assert c[0] in c;
    SplitAt(c, rest);
    BadNameExact(c, MINIX_MAXNAMLEN);
  }

  // ----- the reader -----

  ghost predicate Reads(f: FileReader, img: seq<Byte>)
    reads f
  {
    f.Valid() && f.g == Minix && f.dev == Disk(img)
  }

  /** mount_fs on a good super block. */
  method Mount(img: seq<Byte>) returns (f: FileReader)
    ensures fresh(f) && Reads(f, img)
  {
    f := new FileReader(Minix, Disk(img));
  }

  method ReadInode(f: FileReader, img: seq<Byte>, ino: nat) returns (n: Inode)
    requires Reads(f, img) && ino > 0
    modifies f
    ensures Reads(f, img) && n == InodeAt(img, ino) && f.zones == n.zones && f.size == n.size
  {
    n := InodeAt(img, ino);
    f.SetInode(n.zones, n.size);
  }

  /** An entry lies in one block. */
  lemma EntryInBlock(off: nat)
    requires off % DIRENT == 0
    ensures Rem(off, BS) + DIRENT <= BS
  {
    QuotRem(off, BS);
  }

  /** The directory entry at offset off, in the block buffer. */
  method ReadEntry(f: FileReader, ghost img: seq<Byte>, off: nat) returns (r: Option<seq<Byte>>)
    requires Reads(f, img) && off < f.size && off % DIRENT == 0
    modifies f`blkno, f`blk, f`bufBlkno, f`buf
    ensures Reads(f, img)
    ensures r.None? <==> BlockOf(Minix, Disk(img), f.zones, Quot(off, BS)).None?
    ensures r.Some? ==> r.value == Slice(Minix, Disk(img), f.zones, off, DIRENT)
  {
    var piece := f.BufRead(off, None, false);
    if piece.NotInFile? { return None; }
    EntryInBlock(off);
    SliceOfBlock(Minix, f.dev, f.zones, off, DIRENT);
    return Some(f.buf[Rem(off, BS)..Rem(off, BS) + DIRENT]);
  }

  /** One turn of the loop of search_directory. */
  method SearchTurn(f: FileReader, ghost img: seq<Byte>, ghost n: Inode, name: seq<Byte>, off: nat)
      returns (r: Option<Found>)
    requires Reads(f, img) && f.zones == n.zones && f.size == n.size && off < f.size && off % DIRENT == 0
    modifies f`blkno, f`blk, f`bufBlkno, f`buf
    ensures Reads(f, img) && (off + DIRENT) % DIRENT == 0
    ensures Search(img, n, name, off) == if r.Some? then r.value else Search(img, n, name, off + DIRENT)
  {
    var bytes := ReadEntry(f, img, off);
    SearchHere(img, n, name, off, bytes);
    if bytes.None? { return Some(NotMapped); }
    if IsEntry(bytes.value, name) { return Some(Entry(Le16(bytes.value, 0))); }
    return None;
  }

  /** search_directory. */
  method SearchDirectory(f: FileReader, ghost img: seq<Byte>, ghost n: Inode, name: seq<Byte>) returns (r: Found)
    requires Reads(f, img) && f.zones == n.zones && f.size == n.size
    modifies f`blkno, f`blk, f`bufBlkno, f`buf
    ensures Reads(f, img) && r == Search(img, n, name, 0)
  {
    var off := 0;
    ghost var goal := Search(img, n, name, 0);
    while off < f.size
      invariant Reads(f, img) && off % DIRENT == 0 && Search(img, n, name, off) == goal
    {
      var found := SearchTurn(f, img, n, name, off);
      if found.Some? { return found.value; }
      off := off + DIRENT;
    }
    return NotThere;
  }

  /** minixfs_open_file: on success the reader is set to the inode that was found. */
  method OpenFile(img: seq<Byte>, path: Name) returns (r: Result, f: FileReader)
    ensures fresh(f) && Reads(f, img) && r == Open(img, path)
    ensures r.File? ==> f.zones == r.node.zones && f.size == r.node.size
  {
    f := Mount(img);
    if |path| == 0 { return Err(NoEntry), f; }
    if Le16(ImgBlock(img, 1), 16) != MINIX_SUPER_MAGIC { return InvalidFs, f; }
    var n := ReadInode(f, img, MINIX_ROOTINO);
    var rest := path;
    ghost var ino := MINIX_ROOTINO;
    while rest != []
      invariant fresh(f) && Reads(f, img) && ino > 0 && n == InodeAt(img, ino) && f.zones == n.zones && f.size == n.size
      invariant Walk(img, n, rest) == Open(img, path)
      decreases |rest|
    {
      if !IsDirectory(n) { return Err(NotDirectory), f; }
      var p := SkipSlashes(rest);
      var bad := BadName(Head(p), 0, MINIX_MAXNAMLEN);
      if bad.Some? { return Err(bad.value), f; }
      var found := SearchDirectory(f, img, n, Head(p));
      match found {
        case NotThere => return Err(NoEntry), f;
        case NotMapped => return Unmapped, f;
        case Entry(i) =>
          n := ReadInode(f, img, i);
          ino, rest := i, Tail(p);
      }
    }
    return File(n), f;
  }
}
