/** Directories as mkminix writes them and as the reader searches them. */
module MinixDirs {
  import opened Arith
  import opened BlockMaps
  import opened FileReaders
  import opened ImageBytes
  import opened PathWalk
  import opened MinixFs
  import opened MinixLayout

  datatype Ent = Ent(ino: nat, name: Name)

  predicate EntFits(e: Ent) { |e.name| <= 14 }

  predicate EntOk(e: Ent) { 0 < e.ino < 65536 && |e.name| <= 14 && 0 !in e.name }

  ghost predicate AllFit(es: seq<Ent>) { forall e | e in es :: EntFits(e) }

  ghost predicate AllOk(es: seq<Ent>) { AllFit(es) && forall j: nat | j < |es| :: EntOk(es[j]) }

  /** dirent: the inode number and the name padded with zeros. */
  function Dirent(e: Ent): (r: seq<Byte>)
    requires EntFits(e)
    ensures |r| == DIRENT
  {
    Pack16(e.ino) + e.name + Zeros(14 - |e.name|)
  }

  lemma {:induction false} CNamePadded(name: Name, n: nat)
    requires 0 !in name
    ensures CName(name + Zeros(n)) == name
  {
    if name == [] {
      assert name + Zeros(n) == Zeros(n);
    } else {
      assert (name + Zeros(n))[1..] == name[1..] + Zeros(n);
      CNamePadded(name[1..], n);
    }
  }

  /** An entry is found under its name and no other. */
  lemma DirentIs(e: Ent, name: Name)
    requires EntOk(e)
    ensures Le16(Dirent(e), 0) == e.ino && (IsEntry(Dirent(e), name) <==> name == e.name)
  {
    var b := Dirent(e);
    assert b[0] == e.ino % 256 && b[1] == e.ino / 256 % 256;
    assert b[2..] == e.name + Zeros(14 - |e.name|);
    CNamePadded(e.name, 14 - |e.name|);
  }

  function DirBytes(es: seq<Ent>): (r: seq<Byte>)
    requires AllFit(es)
    ensures |r| == DIRENT * |es|
  {
    if es == [] then [] else DirBytes(es[..|es| - 1]) + Dirent(es[|es| - 1])
  }

  lemma {:induction false} DirentAt(es: seq<Ent>, j: nat)
    requires AllFit(es) && j < |es|
    ensures DirBytes(es)[DIRENT * j..DIRENT * j + DIRENT] == Dirent(es[j])
  {
    if j < |es| - 1 {
      DirentAt(es[..|es| - 1], j);
      assert DirBytes(es)[DIRENT * j..DIRENT * j + DIRENT] == DirBytes(es[..|es| - 1])[DIRENT * j..DIRENT * j + DIRENT];
    }
  }

  /** The first entry with this name from entry j on. */
  function FirstEntry(es: seq<Ent>, name: Name, j: nat): Found
    decreases |es| - j
  {
    if j >= |es| then NotThere else if es[j].name == name then Entry(es[j].ino) else FirstEntry(es, name, j + 1)
  }

  /** Entry j of the directory is mapped and reads as es[j]. */
  ghost predicate ReadsAs(img: seq<Byte>, n: Inode, es: seq<Ent>, j: nat)
    requires AllFit(es) && |n.zones| == 9
  {
    j < |es| ==>
      && BlockOf(Minix, Disk(img), n.zones, Quot(DIRENT * j, BS)).Some?
      && Slice(Minix, Disk(img), n.zones, DIRENT * j, DIRENT) == Dirent(es[j])
  }

  ghost predicate AllRead(img: seq<Byte>, n: Inode, es: seq<Ent>)
    requires AllFit(es) && |n.zones| == 9
  {
    forall j: nat :: ReadsAs(img, n, es, j)
  }

  lemma EntryReads(img: seq<Byte>, n: Inode, es: seq<Ent>, j: nat)
    requires |n.zones| == 9 && AllFit(es) && n.size == DIRENT * |es|
    requires Slice(Minix, Disk(img), n.zones, 0, n.size) == DirBytes(es)
             && Readable(Minix, Disk(img), n.zones, 0, n.size)
    ensures ReadsAs(img, n, es, j)
  {
    if j < |es| {
      assert ReadableAt(Minix, Disk(img), n.zones, DIRENT * j);
      SliceWithin(Minix, Disk(img), n.zones, n.size, DIRENT * j, DIRENT);
      DirentAt(es, j);
    }
  }

  lemma SearchStep(img: seq<Byte>, n: Inode, es: seq<Ent>, name: Name, j: nat, off: nat)
    requires |n.zones| == 9 && AllOk(es) && n.size == DIRENT * |es| && ReadsAs(img, n, es, j) && j < |es|
             && off == DIRENT * j
    ensures Search(img, n, name, off) ==
            if es[j].name == name then Entry(es[j].ino) else Search(img, n, name, off + DIRENT)
  {
    DirentIs(es[j], name);
  }

  /** search_directory finds the first entry of that name. */
  lemma {:induction false} SearchIs(img: seq<Byte>, n: Inode, es: seq<Ent>, name: Name, j: nat, off: nat)
    requires |n.zones| == 9 && AllOk(es) && n.size == DIRENT * |es| && AllRead(img, n, es) && off == DIRENT * j
    ensures Search(img, n, name, off) == FirstEntry(es, name, j)
    decreases |es| - j
  {
    if j >= |es| {
      SearchEnd(img, n, name, off);
    } else {
      assert ReadsAs(img, n, es, j);
      SearchStep(img, n, es, name, j, off);
      if es[j].name != name { SearchIs(img, n, es, name, j + 1, off + DIRENT); }
    }
  }

  lemma SearchEnd(img: seq<Byte>, n: Inode, name: Name, off: nat)
    requires |n.zones| == 9 && off >= n.size
    ensures Search(img, n, name, off) == NotThere
  {
  }

  lemma SliceWithin(g: Geometry, dev: Device, zones: seq<nat>, n: nat, lo: nat, m: nat)
    requires g.Ok() && |zones| == g.nd + g.ni && lo + m <= n
    ensures Slice(g, dev, zones, lo, m) == Slice(g, dev, zones, 0, n)[lo..lo + m]
  {
  }

  ghost predicate Distinct(es: seq<Ent>) { forall i: nat, j: nat | i < j < |es| :: es[i].name != es[j].name }

  lemma {:induction false} FirstIs(es: seq<Ent>, k: nat, j: nat)
    requires Distinct(es) && j <= k < |es|
    ensures FirstEntry(es, es[k].name, j) == Entry(es[k].ino)
    decreases k - j
  {
    if j < k { FirstIs(es, k, j + 1); }
  }

  /** A directory stored as inode ino: searching it for the name of entry k gives its inode. */
  lemma DirFinds(d: seq<Byte>, zb: nat, p: Placed, es: seq<Ent>, k: nat)
    requires SuperOk(d, zb) && 0 < p.ino <= NINODES && Stored(d, zb, p) && |p.data| <= 1024
    requires AllOk(es) && Distinct(es) && k < |es| && p.data == DirBytes(es)
    ensures Search(d, InodeAt(d, p.ino), es[k].name, 0) == Entry(es[k].ino)
  {
    StoredReads(d, zb, p);
    var n := InodeAt(d, p.ino);
    forall j: nat ensures ReadsAs(d, n, es, j) { EntryReads(d, n, es, j); }
    SearchIs(d, n, es, es[k].name, 0, 0);
    FirstIs(es, k, 0);
  }
}
