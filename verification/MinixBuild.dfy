/** The whole image: building it, and reading every file of it back. */
module MinixBuild {
  import opened Options
  import opened BlockMaps
  import opened FileReaders
  import opened ImageBytes
  import opened PathWalk
  import opened BootConf
  import opened MinixFs
  import opened MinixLayout
  import opened MinixDirs
  import opened MkMinix

  const DOT: Name := [46]
  const DOTDOT: Name := [46, 46]
  const MACH_SERVERS: Name := [109, 97, 99, 104, 95, 115, 101, 114, 118, 101, 114, 115]
  const BOOTSTRAP_CONF: Name := [98, 111, 111, 116, 115, 116, 114, 97, 112, 46, 99, 111, 110, 102]

  /** All file contents in the order they are written: bootstrap.conf first. */
  function Datas(files: seq<Spec>): (r: seq<seq<Byte>>)
    ensures |r| == |files| + 1
  {
    [Conf(files)] + seq(|files|, k requires 0 <= k < |files| => files[k].data)
  }

  /** Zones used by the first k files. */
  function Start(datas: seq<seq<Byte>>, k: nat): nat
    requires k <= |datas|
  {
    if k == 0 then 0 else Start(datas, k - 1) + ZonesFor(BlocksFor(|datas[k - 1]|))
  }

  /** 0o100644 for bootstrap.conf, 0o100755 for the others. */
  function Mode(k: nat): nat { if k == 0 then 0x81A4 else 0x81ED }

  /** Where file k goes: inodes 1 and 2 and the first two zones are for the directories. */
  function FileAt(zb: nat, datas: seq<seq<Byte>>, k: nat): Placed
    requires k < |datas|
  {
    Placed(3 + k, Mode(k), datas[k], 20 + zb + Start(datas, k))
  }

  /** The entries of /mach_servers and of the root. */
  function Entries(files: seq<Spec>): (r: seq<Ent>)
    ensures |r| == |files| + 3
    ensures forall k: nat | k < |files| :: r[3 + k] == Ent(4 + k, files[k].name)
  {
    [Ent(2, DOT), Ent(1, DOTDOT), Ent(3, BOOTSTRAP_CONF)] +
      seq(|files|, k requires 0 <= k < |files| => Ent(4 + k, files[k].name))
  }

  function RootEntries(): seq<Ent> { [Ent(1, DOT), Ent(1, DOTDOT), Ent(2, MACH_SERVERS)] }

  ghost predicate NamesFit(files: seq<Spec>) { forall k: nat | k < |files| :: |files[k].name| <= 14 }

  lemma EntriesFit(files: seq<Spec>)
    requires NamesFit(files)
    ensures AllFit(Entries(files)) && AllFit(RootEntries())
  {
    var es := Entries(files);
    forall e | e in es ensures EntFits(e) {
      var j :| 0 <= j < |es| && es[j] == e;
      if j >= 3 { assert es[3 + (j - 3)] == Ent(4 + (j - 3), files[j - 3].name); }
    }
  }

  /** nzones: the size of the existing image in zones, but at least 1440 and at most 65535. */
  function NumZones(size: nat): nat {
    var n := if size / 1024 > 1440 then size / 1024 else 1440;
    if n > 65535 then 65535 else n
  }

  ghost predicate FilesStored(d: seq<Byte>, zb: nat, datas: seq<seq<Byte>>, m: nat)
    requires m <= |datas|
  {
    forall k: nat | k < m :: Stored(d, zb, FileAt(zb, datas, k))
  }

  /** Everything the image holds: the files, /mach_servers with entries es and the root. */
  ghost predicate Holdings(d: seq<Byte>, zb: nat, datas: seq<seq<Byte>>, es: seq<Ent>, root: seq<Ent>)
    requires AllFit(es) && AllFit(root)
  {
    && SuperOk(d, zb) && FilesStored(d, zb, datas, |datas|)
    && Stored(d, zb, Placed(2, IFDIR_755, DirBytes(es), 19 + zb))
    && Stored(d, zb, Placed(1, IFDIR_755, DirBytes(root), 18 + zb))
  }

  lemma {:induction false} StartGrows(datas: seq<seq<Byte>>, k: nat, m: nat)
    requires k <= m <= |datas|
    ensures Start(datas, k) <= Start(datas, m)
    ensures k < m ==> Start(datas, k) + ZonesFor(BlocksFor(|datas[k]|)) <= Start(datas, m)
    decreases m
  {
    if k < m { StartGrows(datas, k, m - 1); }
  }

  /** Earlier files stay while later ones are written. */
  lemma FilesKept(d: seq<Byte>, e: seq<Byte>, zb: nat, datas: seq<seq<Byte>>, m: nat)
    requires m <= |datas| && m <= 100 && FilesStored(d, zb, datas, m) && 1024 * (18 + zb) <= |d|
             && 20 + zb + Start(datas, m) <= 65536
    requires Same(d, e, InodeOff(zb, 3), InodeOff(zb, 3 + m))
             && Same(d, e, 1024 * (20 + zb), 1024 * (20 + zb + Start(datas, m)))
    ensures FilesStored(e, zb, datas, m)
  {
    forall k: nat | k < m ensures Stored(e, zb, FileAt(zb, datas, k)) {
      var p := FileAt(zb, datas, k);
      assert Stored(d, zb, p);
      StartGrows(datas, k, m);
      StartGrows(datas, 0, k);
      StoredStays(d, e, zb, p);
    }
  }

  lemma FilesMore(d: seq<Byte>, zb: nat, datas: seq<seq<Byte>>, k: nat)
    requires k < |datas| && FilesStored(d, zb, datas, k)
    requires Stored(d, zb, Placed(3 + k, Mode(k), datas[k], 20 + zb + Start(datas, k)))
    ensures FilesStored(d, zb, datas, k + 1)
  {
    forall j: nat | j < k + 1 ensures Stored(d, zb, FileAt(zb, datas, j)) {
      if j < k { assert Stored(d, zb, FileAt(zb, datas, j)); }
    }
  }

  /** File k, after those before it. */
  method WriteNext(img: Image, datas: seq<seq<Byte>>, k: nat, now: nat) returns (ok: bool)
    requires img.Valid() && k < |datas| <= 62 && |datas[k]| < 0x1_0000_0000
    requires img.nz == 3 + Start(datas, k) && img.ni == 3 + k && FilesStored(img.d, img.zb, datas, k)
    modifies img`d, img`nz, img`ni
    ensures img.Valid()
    ensures ok <==> 3 + Start(datas, k + 1) <= img.nzones - (18 + img.zb)
    ensures ok ==> img.nz == 3 + Start(datas, k + 1) && img.ni == 3 + k + 1 && FilesStored(img.d, img.zb, datas, k + 1)
  {
    ghost var d := img.d;
    var n := img.WriteFile(datas[k], Mode(k), now);
    if n.None? { return false; }
    FilesKept(d, img.d, img.zb, datas, k);
    FilesMore(img.d, img.zb, datas, k);
    return true;
  }

  /** bootstrap.conf and then every file. */
  method WriteAll(img: Image, datas: seq<seq<Byte>>, now: nat) returns (ok: bool)
    requires img.Valid() && img.nz == 3 && img.ni == 3 && |datas| <= 62
    requires forall k: nat | k < |datas| :: |datas[k]| < 0x1_0000_0000
    modifies img`d, img`nz, img`ni
    ensures img.Valid()
    ensures ok <==> 3 + Start(datas, |datas|) <= img.nzones - (18 + img.zb)
    ensures ok ==> FilesStored(img.d, img.zb, datas, |datas|)
  {
    var k := 0;
    while k < |datas|
      invariant 0 <= k <= |datas| && img.Valid() && img.nz == 3 + Start(datas, k) && img.ni == 3 + k
      invariant FilesStored(img.d, img.zb, datas, k)
    {
      ok := WriteNext(img, datas, k, now);
      StartGrows(datas, k + 1, |datas|);
      if !ok { return; }
      k := k + 1;
    }
    return true;
  }

  /** The directories are written last, into the zones and inodes taken first. */
  method WriteDirs(img: Image, ghost datas: seq<seq<Byte>>, es: seq<Ent>, root: seq<Ent>, now: nat)
    requires img.Valid() && AllFit(es) && AllFit(root) && 0 < |es| <= 64 && 0 < |root| <= 64 && |datas| <= 62
    requires FilesStored(img.d, img.zb, datas, |datas|) && 20 + img.zb + Start(datas, |datas|) <= img.nzones
    modifies img`d
    ensures img.Valid() && Holdings(img.d, img.zb, datas, es, root)
  {
    ghost var d0, zb := img.d, img.zb;
    var buf := DirBytes(es);
    img.WriteDir(2, 19 + img.zb, buf, 2, now);
    ghost var d1 := img.d;
    FilesKept(d0, d1, zb, datas, |datas|);
    img.WriteDir(1, 18 + img.zb, DirBytes(root), 3, now);
    FilesKept(d1, img.d, zb, datas, |datas|);
    StoredStays(d1, img.d, zb, Placed(2, IFDIR_755, buf, 19 + zb));
  }

  lemma PutPart(d: seq<Byte>, off: nat, bytes: seq<Byte>, i: nat, n: nat)
    requires off + |bytes| <= |d| && i + n <= |bytes|
    ensures Put(d, off, bytes)[off + i..off + i + n] == bytes[i..i + n]
  {
  }

  /** Why at most 61 files: mach_servers has one zone, and its entries fill it then.  The
      builder does not check; the entries of further files are written over the zone
      behind, where the data of bootstrap.conf begins. */
  lemma DirectoryOverruns(d: seq<Byte>, zb: nat, files: seq<Spec>)
    requires NamesFit(files)
    ensures AllFit(Entries(files)) && (|DirBytes(Entries(files))| <= 1024 <==> |files| <= 61)
    ensures FileAt(zb, Datas(files), 0).z0 == 20 + zb
    ensures |files| > 61 && 1024 * (19 + zb) + |DirBytes(Entries(files))| <= |d| ==>
              var e := Put(d, 1024 * (19 + zb), DirBytes(Entries(files)));
              e[1024 * (20 + zb)..1024 * (20 + zb) + DIRENT] == Dirent(Ent(65, files[61].name))
  {
    EntriesFit(files);
    var es := Entries(files);
    if |files| > 61 && 1024 * (19 + zb) + |DirBytes(es)| <= |d| {
      DirentAt(es, 64);
      assert es[3 + 61] == Ent(4 + 61, files[61].name);
      PutPart(d, 1024 * (19 + zb), DirBytes(es), 1024, DIRENT);
    }
  }

  lemma {:induction false} LinesBegin(files: seq<Spec>)
    requires files != []
    ensures |Lines(files)| >= |Line(files[0])| && Lines(files)[..|Line(files[0])|] == Line(files[0])
  {
    if |files| > 1 {
      LinesBegin(files[..|files| - 1]);
      Longer(Lines(files[..|files| - 1]), Line(files[|files| - 1]), Line(files[0]));
    } else {
      assert files[..0] == [] && Lines([]) == [];
      assert [] + Line(files[0]) == Line(files[0]);
    }
  }

  lemma Longer(a: seq<Byte>, b: seq<Byte>, c: seq<Byte>)
    requires |a| >= |c| && a[..|c|] == c
    ensures |a + b| >= |c| && (a + b)[..|c|] == c
  {
  }

  lemma HeldByte(d: seq<Byte>, zb: nat, p: Placed, q: nat)
    requires p.ino > 0 && q < |p.data| && 1024 * p.z0 + q < |d|
    ensures Stored(d, zb, p) ==> d[1024 * p.z0 + q] == p.data[q]
  {
    if Stored(d, zb, p) { assert d[1024 * p.z0..1024 * p.z0 + |p.data|][q] == p.data[q]; }
  }

  /** With more files bootstrap.conf cannot be read back: the second byte of the entry written
      over it is 0, and its own is not. */
  lemma OverrunUnreadable(d: seq<Byte>, zb: nat, files: seq<Spec>)
    requires NamesFit(files) && |files| > 61 && 0 !in files[0].name
    requires 1024 * (19 + zb) + DIRENT * (|files| + 3) <= |d|
    ensures AllFit(Entries(files))
    ensures !Stored(Put(d, 1024 * (19 + zb), DirBytes(Entries(files))), zb, FileAt(zb, Datas(files), 0))
  {
    DirectoryOverruns(d, zb, files);
    LinesBegin(files);
    var e, lo, conf := Put(d, 1024 * (19 + zb), DirBytes(Entries(files))), 1024 * (20 + zb), Conf(files);
    var line := Line(files[0]);
    assert |line| >= 2 && line[1] != 0 && conf[..|line|][1] == line[1];
    assert e[lo..lo + DIRENT][1] == Dirent(Ent(65, files[61].name))[1] == 0;
    HeldByte(e, zb, FileAt(zb, Datas(files), 0), 1);
  }

  /** build: None is an exit because a name is too long or the image is full. */
  method Build(size: nat, files: seq<Spec>, now: nat) returns (r: Option<seq<Byte>>)
    requires |files| <= 61 && forall k: nat | k <= |files| :: |Datas(files)[k]| < 0x1_0000_0000
    ensures r.Some? <==>
              && NamesFit(files)
              && 3 + Start(Datas(files), |files| + 1) <= NumZones(size) - (18 + ZmapBlocks(NumZones(size)))
    ensures r.Some? ==>
              && AllFit(Entries(files)) && AllFit(RootEntries())
              && Holdings(r.value, ZmapBlocks(NumZones(size)), Datas(files), Entries(files), RootEntries())
    ensures r.Some? ==> |r.value| == 1024 * NumZones(size)
  {
    var k := 0;
    while k < |files|
      invariant 0 <= k <= |files| && forall j: nat | j < k :: |files[j].name| <= 14
    {
      if |files[k].name| > 14 { return None; }
      k := k + 1;
    }
    EntriesFit(files);
    var img := new Image(NumZones(size));
    var root := img.AllocIno();
    var rz := img.AllocZone();
    var dino := img.AllocIno();
    var dz := img.AllocZone();
    var datas, es, rs := Datas(files), Entries(files), RootEntries();
    var ok := WriteAll(img, datas, now);
    if !ok { return None; }
    WriteDirs(img, datas, es, rs, now);
    return Some(img.d);
  }

  // ----- opening -----

  /** A component the reader accepts. */
  ghost predicate Plain(c: Name) { |c| <= 14 && SLASH !in c && forall i: nat | i < |c| :: 0 < c[i] < 128 }

  /** One component of a path that starts with a slash. */
  lemma WalkStep(img: seq<Byte>, n: Inode, c: Name, rest: Name, ino: nat)
    requires |n.zones| == 9 && IsDirectory(n) && Plain(c) && (rest == [] || rest[0] == SLASH)
    requires ino > 0 && Search(img, n, c, 0) == Entry(ino) && (c == [] ==> rest == [])
    ensures Walk(img, n, [SLASH] + c + rest) == Walk(img, InodeAt(img, ino), rest)
  {
    var path := [SLASH] + c + rest;
    assert path[1..] == c + rest;
    SplitAt(c, rest);
    BadNameExact(c, MINIX_MAXNAMLEN);
    assert SkipSlashes(c + rest) == c + rest;
  }

  lemma DirMode(n: Inode)
    requires n.mode == IFDIR_755
    ensures IsDirectory(n)
  {
  }

  /** From a stored directory, the name of its entry k leads to the inode of that entry. */
  lemma WalkDir(d: seq<Byte>, zb: nat, p: Placed, es: seq<Ent>, k: nat, rest: Name)
    requires SuperOk(d, zb) && 0 < p.ino <= NINODES && Stored(d, zb, p) && p.mode == IFDIR_755
    requires AllOk(es) && Distinct(es) && k < |es| <= 64 && p.data == DirBytes(es)
    requires Plain(es[k].name) && (rest == [] || rest[0] == SLASH) && (es[k].name == [] ==> rest == [])
    ensures Walk(d, InodeAt(d, p.ino), [SLASH] + es[k].name + rest) == Walk(d, InodeAt(d, es[k].ino), rest)
  {
    StoredReads(d, zb, p);
    DirFinds(d, zb, p, es, k);
    DirMode(InodeAt(d, p.ino));
    WalkStep(d, InodeAt(d, p.ino), es[k].name, rest, es[k].ino);
  }

  /** Opening "/ms/<name of entry k>" in an image with these directories. */
  lemma OpenFinds(d: seq<Byte>, zb: nat, datas: seq<seq<Byte>>, es: seq<Ent>, root: seq<Ent>, ms: Name, k: nat)
    requires AllOk(es) && AllOk(root) && Holdings(d, zb, datas, es, root) && Distinct(es) && Distinct(root)
    requires k < |es| <= 64 && 2 < |root| <= 64 && root[2] == Ent(2, ms) && Plain(ms) && ms != [] && Plain(es[k].name)
    ensures Open(d, [SLASH] + ms + ([SLASH] + es[k].name)) == File(InodeAt(d, es[k].ino))
  {
    var c := es[k].name;
    WalkDir(d, zb, Placed(1, IFDIR_755, DirBytes(root), 18 + zb), root, 2, [SLASH] + c);
    WalkDir(d, zb, Placed(2, IFDIR_755, DirBytes(es), 19 + zb), es, k, []);
    assert [SLASH] + c + [] == [SLASH] + c;
    BlockWord(d, 1, 16);
  }

  // ----- the round trip -----

  /** The path of a file of /mach_servers. */
  function PathTo(name: Name): Name { [SLASH] + MACH_SERVERS + ([SLASH] + name) }

  /** Distinct names the reader accepts, none of them taken already. */
  ghost predicate Legal(files: seq<Spec>) {
    && (forall k: nat | k < |files| ::
          Plain(files[k].name) && files[k].name != DOT && files[k].name != DOTDOT && files[k].name != BOOTSTRAP_CONF)
    && forall j: nat, k: nat | j < k < |files| :: files[j].name != files[k].name
  }

  /** Name and contents of file k of the directory; 0 is bootstrap.conf. */
  function NameOf(files: seq<Spec>, k: nat): Name
    requires k <= |files|
  {
    if k == 0 then BOOTSTRAP_CONF else files[k - 1].name
  }

  lemma EntriesOk(files: seq<Spec>)
    requires Legal(files) && |files| <= 61
    ensures AllOk(Entries(files)) && Distinct(Entries(files))
    ensures forall k: nat | k <= |files| :: Entries(files)[2 + k] == Ent(3 + k, NameOf(files, k))
  {
    EntriesFit(files);
    var es := Entries(files);
    forall k: nat | k <= |files| ensures es[2 + k] == Ent(3 + k, NameOf(files, k)) {
      if k > 0 { assert es[3 + (k - 1)] == Ent(4 + (k - 1), files[k - 1].name); }
    }
    forall j: nat | j < |es| ensures EntOk(es[j]) {
      if j >= 3 { assert es[3 + (j - 3)] == Ent(4 + (j - 3), files[j - 3].name) && Plain(files[j - 3].name); }
    }
    forall i: nat, j: nat | i < j < |es| ensures es[i].name != es[j].name {
      if j >= 3 { assert es[3 + (j - 3)] == Ent(4 + (j - 3), files[j - 3].name); }
      if i >= 3 { assert es[3 + (i - 3)] == Ent(4 + (i - 3), files[i - 3].name); }
    }
  }

  lemma ServersPlain()
    ensures Plain(MACH_SERVERS) && MACH_SERVERS != []
  {
  }

  lemma ConfPlain()
    ensures Plain(BOOTSTRAP_CONF)
  {
  }

  lemma RootOk()
    ensures AllOk(RootEntries()) && Distinct(RootEntries())
    ensures |RootEntries()| == 3 && RootEntries()[2] == Ent(2, MACH_SERVERS)
  {
    ServersPlain();
    var a, b, c := Ent(1, DOT), Ent(1, DOTDOT), Ent(2, MACH_SERVERS);
    assert |a.name| == 1 && |b.name| == 2 && |c.name| == 12;
    var es := [a, b, c];
    assert EntOk(a) && EntOk(b) && EntOk(c);
    assert RootEntries() == es;
  }

  /** File k of an image with these holdings, found by its path. */
  lemma FileOpens(d: seq<Byte>, zb: nat, datas: seq<seq<Byte>>, es: seq<Ent>, root: seq<Ent>, ms: Name, k: nat)
    requires AllOk(es) && AllOk(root) && Holdings(d, zb, datas, es, root) && Distinct(es) && Distinct(root)
    requires k < |datas| <= 62 && 2 + k < |es| <= 64 && es[2 + k].ino == 3 + k && 2 < |root| <= 64
             && root[2] == Ent(2, ms)
    requires Plain(ms) && ms != [] && Plain(es[2 + k].name) && |d| <= 1024 * 65535
    ensures var r := Open(d, [SLASH] + ms + ([SLASH] + es[2 + k].name));
            && r.File? && r.node.mode == Mode(k) && r.node.size == |datas[k]|
            && Slice(Minix, Disk(d), r.node.zones, 0, r.node.size) == datas[k]
            && Readable(Minix, Disk(d), r.node.zones, 0, r.node.size)
  {
    OpenFinds(d, zb, datas, es, root, ms, 2 + k);
    var p := FileAt(zb, datas, k);
    assert Stored(d, zb, p);
    assert p.N() <= ZonesFor(p.N()) <= 65535;
    StoredReads(d, zb, p);
  }

  /** The whole-image round trip: opening /mach_servers/<name> in a built image gives an inode
      through which exactly the original bytes are read. */
  lemma WholeImage(d: seq<Byte>, zb: nat, files: seq<Spec>, k: nat)
    requires Legal(files) && |files| <= 61 && k <= |files| && |d| <= 1024 * 65535
    requires AllFit(Entries(files)) && AllFit(RootEntries())
             && Holdings(d, zb, Datas(files), Entries(files), RootEntries())
    ensures var r := Open(d, PathTo(NameOf(files, k)));
            && r.File? && r.node.mode == Mode(k) && r.node.size == |Datas(files)[k]|
            && Slice(Minix, Disk(d), r.node.zones, 0, r.node.size) == Datas(files)[k]
            && Readable(Minix, Disk(d), r.node.zones, 0, r.node.size)
  {
    EntriesOk(files);
    RootOk();
    ServersPlain();
    ConfPlain();
    assert Entries(files)[2 + k] == Ent(3 + k, NameOf(files, k));
    FileOpens(d, zb, Datas(files), Entries(files), RootEntries(), MACH_SERVERS, k);
  }

  /** Open a file and read all of it. */
  method ReadBack(img: seq<Byte>, path: Name, base: nat, rec: nat) returns (bytes: Option<seq<Byte>>)
    requires rec > 0
    ensures var r := Open(img, path);
            r.File? && Readable(Minix, Disk(img), r.node.zones, 0, r.node.size) ==>
              bytes == Some(Slice(Minix, Disk(img), r.node.zones, 0, r.node.size))
  {
    var r, f := MinixFs.OpenFile(img, path);
    if !r.File? { return None; }
    var mem := new Byte[f.size](i => 0);
    var ok := f.ReadFile(0, mem, 0, f.size, base, rec);
    if !ok { return None; }
    assert mem[0..0 + f.size] == mem[..];
    return Some(mem[..]);
  }

  /** Opening "/<name of entry k>" of the root. */
  lemma RootOpens(d: seq<Byte>, zb: nat, root: seq<Ent>, k: nat)
    requires SuperOk(d, zb) && AllOk(root) && Stored(d, zb, Placed(1, IFDIR_755, DirBytes(root), 18 + zb))
    requires Distinct(root) && k < |root| <= 64 && Plain(root[k].name)
    ensures Open(d, [SLASH] + root[k].name) == File(InodeAt(d, root[k].ino))
  {
    WalkDir(d, zb, Placed(1, IFDIR_755, DirBytes(root), 18 + zb), root, k, []);
    assert [SLASH] + root[k].name + [] == [SLASH] + root[k].name;
    BlockWord(d, 1, 16);
  }

  /** A stored directory is one, and reads as its entries. */
  lemma DirReads(d: seq<Byte>, zb: nat, ino: nat, es: seq<Ent>, z: nat)
    requires SuperOk(d, zb) && 0 < ino <= NINODES && AllFit(es) && |es| <= 64
    requires Stored(d, zb, Placed(ino, IFDIR_755, DirBytes(es), z))
    ensures var n := InodeAt(d, ino);
            IsDirectory(n) && Slice(Minix, Disk(d), n.zones, 0, n.size) == DirBytes(es)
  {
    StoredReads(d, zb, Placed(ino, IFDIR_755, DirBytes(es), z));
    DirMode(InodeAt(d, ino));
  }

  lemma DotsPlain()
    ensures Plain(DOT) && Plain(DOTDOT)
  {
  }

  /** Two directories that name themselves and each other. */
  ghost predicate Linked(es: seq<Ent>, root: seq<Ent>, ms: Name, dot: Name, dotdot: Name) {
    && AllOk(es) && AllOk(root) && Distinct(es) && Distinct(root) && 2 <= |es| <= 64 && 2 < |root| <= 64
    && root[0] == Ent(1, dot) && root[1] == Ent(1, dotdot) && root[2] == Ent(2, ms)
    && es[0] == Ent(2, dot) && es[1] == Ent(1, dotdot)
    && Plain(ms) && ms != [] && Plain(dot) && Plain(dotdot)
  }

  lemma DirsOpen(d: seq<Byte>, zb: nat, datas: seq<seq<Byte>>, es: seq<Ent>, root: seq<Ent>,
                 ms: Name, dot: Name, dotdot: Name)
    requires Linked(es, root, ms, dot, dotdot) && Holdings(d, zb, datas, es, root)
    ensures Open(d, [SLASH] + dot) == Open(d, [SLASH] + dotdot) == File(InodeAt(d, 1))
    ensures Open(d, [SLASH] + ms + ([SLASH] + dotdot)) == File(InodeAt(d, 1))
    ensures Open(d, [SLASH] + ms) == Open(d, [SLASH] + ms + ([SLASH] + dot)) == File(InodeAt(d, 2))
  {
    RootOpens(d, zb, root, 0);
    RootOpens(d, zb, root, 1);
    RootOpens(d, zb, root, 2);
    OpenFinds(d, zb, datas, es, root, ms, 0);
    OpenFinds(d, zb, datas, es, root, ms, 1);
  }

  lemma EntriesLinked(files: seq<Spec>)
    requires Legal(files) && |files| <= 61
    ensures Linked(Entries(files), RootEntries(), MACH_SERVERS, DOT, DOTDOT)
  {
    EntriesOk(files);
    RootOk();
    ServersPlain();
    DotsPlain();
  }

  /** "." and "..": both of the root are the root, those of mach_servers are itself and the root. */
  lemma DotsOpen(d: seq<Byte>, zb: nat, files: seq<Spec>)
    requires Legal(files) && |files| <= 61 && AllFit(Entries(files)) && AllFit(RootEntries())
    requires Holdings(d, zb, Datas(files), Entries(files), RootEntries())
    ensures var root, servers := Open(d, [SLASH] + DOT), Open(d, [SLASH] + MACH_SERVERS);
            && root.File? && IsDirectory(root.node) && servers.File? && IsDirectory(servers.node)
            && Slice(Minix, Disk(d), root.node.zones, 0, root.node.size) == DirBytes(RootEntries())
            && Slice(Minix, Disk(d), servers.node.zones, 0, servers.node.size) == DirBytes(Entries(files))
            && Open(d, [SLASH] + DOTDOT) == root && Open(d, PathTo(DOT)) == servers && Open(d, PathTo(DOTDOT)) == root
  {
    var es, rs := Entries(files), RootEntries();
    EntriesLinked(files);
    DirsOpen(d, zb, Datas(files), es, rs, MACH_SERVERS, DOT, DOTDOT);
    DirReads(d, zb, 1, rs, 18 + zb);
    DirReads(d, zb, 2, es, 19 + zb);
  }

  /** The type of a file is the top digit of its mode. */
  lemma ModeType(n: Inode, kind: nat, perm: nat)
    requires kind < 16 && perm < 0x1000 && n.mode == 0x1000 * kind + perm
    ensures IsDirectory(n) <==> kind == 4
  {
  }

  /** Nothing is below a file: its permissions are rw-r--r-- or rwxr-xr-x, its type is 8. */
  lemma FileIsLeaf(d: seq<Byte>, zb: nat, files: seq<Spec>, k: nat, more: Name)
    requires Legal(files) && |files| <= 61 && k <= |files| && |d| <= 1024 * 65535
    requires AllFit(Entries(files)) && AllFit(RootEntries())
             && Holdings(d, zb, Datas(files), Entries(files), RootEntries())
    ensures var r := Open(d, PathTo(NameOf(files, k)));
            && r.File? && r.node.mode == 0x8000 + (if k == 0 then 6 * 64 + 4 * 8 + 4 else 7 * 64 + 5 * 8 + 5)
            && !IsDirectory(r.node)
    ensures NameOf(files, k) != [] ==> Open(d, PathTo(NameOf(files, k)) + ([SLASH] + more)) == Err(NotDirectory)
  {
    EntriesOk(files);
    RootOk();
    ServersPlain();
    ConfPlain();
    assert Entries(files)[2 + k] == Ent(3 + k, NameOf(files, k));
    NothingBelow(d, zb, Datas(files), Entries(files), RootEntries(), MACH_SERVERS, k, more);
  }

  lemma NothingBelow(d: seq<Byte>, zb: nat, datas: seq<seq<Byte>>, es: seq<Ent>, root: seq<Ent>, ms: Name, k: nat,
                     more: Name)
    requires AllOk(es) && AllOk(root) && Holdings(d, zb, datas, es, root) && Distinct(es) && Distinct(root)
    requires k < |datas| <= 62 && 2 + k < |es| <= 64 && es[2 + k].ino == 3 + k && 2 < |root| <= 64
             && root[2] == Ent(2, ms)
    requires Plain(ms) && ms != [] && Plain(es[2 + k].name) && |d| <= 1024 * 65535
    ensures var r := Open(d, [SLASH] + ms + ([SLASH] + es[2 + k].name));
            && r.File? && r.node.mode == 0x8000 + (if k == 0 then 6 * 64 + 4 * 8 + 4 else 7 * 64 + 5 * 8 + 5)
            && !IsDirectory(r.node)
    ensures es[2 + k].name != [] ==>
              Open(d, [SLASH] + ms + ([SLASH] + es[2 + k].name) + ([SLASH] + more)) == Err(NotDirectory)
  {
    FileOpens(d, zb, datas, es, root, ms, k);
    OpenFinds(d, zb, datas, es, root, ms, 2 + k);
    var n := InodeAt(d, 3 + k);
    ModeType(n, 8, n.mode - 0x8000);
    if es[2 + k].name != [] {
      OpenBelow(d, zb, datas, es, root, ms, 2 + k, [SLASH] + more);
      NoWalk(d, n, [SLASH] + more);
    }
  }

  lemma NoWalk(img: seq<Byte>, n: Inode, path: Name)
    requires |n.zones| == 9 && !IsDirectory(n) && path != []
    ensures Walk(img, n, path) == Err(NotDirectory)
  {
  }

  /** Opening "/ms/<name of entry k>" and more. */
  lemma OpenBelow(d: seq<Byte>, zb: nat, datas: seq<seq<Byte>>, es: seq<Ent>, root: seq<Ent>, ms: Name, k: nat,
                  more: Name)
    requires AllOk(es) && AllOk(root) && Holdings(d, zb, datas, es, root) && Distinct(es) && Distinct(root)
    requires k < |es| <= 64 && 2 < |root| <= 64 && root[2] == Ent(2, ms) && Plain(ms) && ms != []
    requires Plain(es[k].name) && es[k].name != [] && more != [] && more[0] == SLASH
    ensures Open(d, [SLASH] + ms + ([SLASH] + es[k].name) + more) == Walk(d, InodeAt(d, es[k].ino), more)
  {
    var c := es[k].name;
    WalkDir(d, zb, Placed(1, IFDIR_755, DirBytes(root), 18 + zb), root, 2, [SLASH] + c + more);
    WalkDir(d, zb, Placed(2, IFDIR_755, DirBytes(es), 19 + zb), es, k, more);
    Regroup([SLASH] + ms, [SLASH] + c, more);
    BlockWord(d, 1, 16);
  }

  // ----- sizes -----

  /** How many zones an image has and a file needs: a block is 1024 bytes, an inode has 7 direct
      zones, and an indirect block holds 512 zone numbers. */
  lemma Sizes(size: nat, n: nat)
    ensures NumZones(size) == (if size < 1440 * 1024 then 1440 else if size >= 65535 * 1024 then 65535 else size / 1024)
    ensures 8192 * (ZmapBlocks(n) - 1) <= n < 8192 * ZmapBlocks(n)
    ensures 1024 * BlocksFor(n) >= n && (n > 0 ==> 1024 * (BlocksFor(n) - 1) < n)
    ensures n <= 7 ==> ZonesFor(n) == n
    ensures 7 < n <= 7 + 512 ==> ZonesFor(n) == n + 1
    ensures n > 7 + 512 ==> exists m: nat :: 512 * (m - 1) < n - 519 <= 512 * m && ZonesFor(n) == n + 2 + m
  {
    if n > 519 { assert 512 * (Inds(n) - 1) < n - 519 <= 512 * Inds(n); }
  }

  // ----- the whole way -----

  /** What file k of /mach_servers should read as; 0 is bootstrap.conf. */
  ghost predicate Expected(files: seq<Spec>, k: nat, bytes: seq<Byte>)
    requires k <= |files|
  {
    if k > 0 then bytes == files[k - 1].data
    else if files == [] then Configures(bytes, [Spec(DEFAULT_PAGER, [], [])])
    else AllTame(files) ==> Configures(bytes, files)
  }

  lemma DatasExpected(files: seq<Spec>, k: nat)
    requires k <= |files|
    ensures |Datas(files)| == |files| + 1 && Expected(files, k, Datas(files)[k])
  {
    if k == 0 { ConfExact(files); }
  }

  /** mkminix and the reader undo each other: the file at this path has the contents it was
      given, or is the right bootstrap.conf. */
  method RoundTrip(size: nat, files: seq<Spec>, now: nat, k: nat, path: Name, base: nat, rec: nat)
      returns (built: bool, bytes: Option<seq<Byte>>)
    requires |files| <= 61 && k <= |files| && rec > 0 && Legal(files)
    requires forall j: nat | j <= |files| :: |Datas(files)[j]| < 0x1_0000_0000
    requires path == [SLASH] + MACH_SERVERS + ([SLASH] + if k == 0 then BOOTSTRAP_CONF else files[k - 1].name)
    ensures built <==> 3 + Start(Datas(files), |files| + 1) <= NumZones(size) - (18 + ZmapBlocks(NumZones(size)))
    ensures built ==> bytes == Some(Datas(files)[k]) && Expected(files, k, bytes.value)
  {
    var d := Build(size, files, now);
    if d.None? { return false, None; }
    WholeImage(d.value, ZmapBlocks(NumZones(size)), files, k);
    bytes := ReadBack(d.value, path, base, rec);
    DatasExpected(files, k);
    built := true;
  }

  /** The fixed names, spelled. */
  lemma Spelled(i: nat)
    ensures |MACH_SERVERS| == |"mach_servers"| && (i < |MACH_SERVERS| ==> MACH_SERVERS[i] == "mach_servers"[i] as int)
    ensures |BOOTSTRAP_CONF| == |"bootstrap.conf"|
            && (i < |BOOTSTRAP_CONF| ==> BOOTSTRAP_CONF[i] == "bootstrap.conf"[i] as int)
    ensures |DEFAULT_PAGER| == |"default_pager"|
            && (i < |DEFAULT_PAGER| ==> DEFAULT_PAGER[i] == "default_pager"[i] as int)
    ensures DOT == ['.' as int] && DOTDOT == ['.' as int, '.' as int] && SLASH == '/' as int
    ensures BLANK == ' ' as int && NEWLINE == '\n' as int
  {
  }
}
