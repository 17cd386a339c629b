/** Pagein: what the kernel is told about each page of a request. */
module Pageins {
  import opened Arith
  import opened ClusterMaps

  /** The replies of vs_cluster_read: memory_object_data_supply, _unavailable and _error. */
  datatype Reply<P> = Supply(off: nat, pages: seq<P>) | Unavailable(off: nat, n: nat) | Error(off: nat, n: nat)

  /** What a reply says about one page. */
  datatype Answer<P> = Data(page: P) | Absent | Failed

  /** The page address of page i of the cluster of an entry. */
  function PageAddr(e: Entry, cls: nat, i: nat): nat { e.cloff * cls + i }

  /** What the map says about page q; dev gives the page at a page address of a segment. */
  function AnswerAt<P>(m: seq<Entry>, cls: nat, dev: (nat, nat) -> P, q: nat): Answer<P>
    requires cls > 0
  {
    var e, i := At(m, Quot(q, cls)), Rem(q, cls);
    if IsErr(e) then (if e.cloff != 0 then Failed else Absent)
    else if Live(e) && i in e.bmap then Data(dev(e.ps, PageAddr(e, cls, i)))
    else Absent
  }

  /** The n pages from a page address of segment ps on. */
  function PagesAt<P>(dev: (nat, nat) -> P, ps: nat, page: nat, n: nat): (r: seq<P>)
    ensures |r| == n && forall j: nat | j < n :: r[j] == dev(ps, page + j)
  {
    seq(n, j requires 0 <= j < n => dev(ps, page + j))
  }

  ghost function Expected<P>(m: seq<Entry>, cls: nat, dev: (nat, nat) -> P, lo: nat, n: nat): seq<(int, Answer<P>)>
    requires cls > 0
  {
    seq(n, j requires 0 <= j < n => (lo + j, AnswerAt(m, cls, dev, lo + j)))
  }

  /** The pages a reply speaks about, in order, each with its answer. */
  ghost function Told<P>(r: Reply<P>): seq<(int, Answer<P>)> {
    match r
    case Supply(off, pages) => seq(|pages|, j requires 0 <= j < |pages| => (off + j, Data(pages[j])))
    case Unavailable(off, n) => seq(n, j requires 0 <= j < n => (off + j, Absent))
    case Error(off, n) => seq(n, j requires 0 <= j < n => (off + j, Failed))
  }

  ghost function AllTold<P>(rs: seq<Reply<P>>): seq<(int, Answer<P>)> {
    if |rs| == 0 then [] else AllTold(rs[..|rs| - 1]) + Told(rs[|rs| - 1])
  }

  /** The effect of having answered pages lo .. hi-1 on page q: a valid page in the range is
      gone, and everything else is as before. */
  ghost predicate ReadAt(m: seq<Entry>, m': seq<Entry>, cls: nat, lo: nat, hi: nat, q: nat)
    requires cls > 0
  {
    var e, e', i := At(m, Quot(q, cls)), At(m', Quot(q, cls)), Rem(q, cls);
    if IsErr(e) then e' == e
    else
      && !IsErr(e')
      && (i in e'.bmap <==> i in e.bmap && !(lo <= q < hi))
      && (i in e'.alloc <==> i in e.alloc && !(lo <= q < hi && i in e.bmap))
      && (Live(e') ==> Live(e) && LocOf(e') == LocOf(e))
  }

  ghost predicate PagesRead(m: seq<Entry>, m': seq<Entry>, cls: nat, lo: nat, hi: nat)
    requires cls > 0
  {
    |m'| == |m| && forall q: nat :: ReadAt(m, m', cls, lo, hi, q)
  }

  lemma ReadTrans(m0: seq<Entry>, m1: seq<Entry>, m2: seq<Entry>, cls: nat, lo: nat, mid: nat, hi: nat)
    requires cls > 0 && lo <= mid <= hi && PagesRead(m0, m1, cls, lo, mid) && PagesRead(m1, m2, cls, mid, hi)
    ensures PagesRead(m0, m2, cls, lo, hi)
  {
    forall q: nat ensures ReadAt(m0, m2, cls, lo, hi, q) {
      assert ReadAt(m0, m1, cls, lo, mid, q) && ReadAt(m1, m2, cls, mid, hi, q);
    }
  }

  /** While the map is being read, it keeps giving the original answers for the pages that are
      still to come: a cluster is only given back when no valid page is left in it. */
  lemma StillExpected<P>(m: seq<Entry>, m': seq<Entry>, cls: nat, dev: (nat, nat) -> P, lo: nat, mid: nat, n: nat)
    requires cls > 0 && PagesRead(m, m', cls, lo, mid) && EntriesOk(m) && EntriesOk(m')
    ensures Expected(m', cls, dev, mid, n) == Expected(m, cls, dev, mid, n)
  {
    forall q: nat | q >= mid ensures AnswerAt(m', cls, dev, q) == AnswerAt(m, cls, dev, q) {
      assert ReadAt(m, m', cls, lo, mid, q);
      assert EntryOk(At(m, Quot(q, cls))) && EntryOk(At(m', Quot(q, cls)));
    }
  }

  lemma ExpectedPart<P>(m: seq<Entry>, cls: nat, dev: (nat, nat) -> P, lo: nat, cnt: nat, i: nat, n: nat)
    requires cls > 0 && i + n <= cnt
    ensures Expected(m, cls, dev, lo, cnt)[i..i + n] == Expected(m, cls, dev, lo + i, n)
  {
  }

  /** Passing over n pages of one cluster, none of which is valid. */
  lemma PassPages(m: seq<Entry>, cls: nat, lo: nat, n: nat)
    requires cls > 0 && Rem(lo, cls) + n <= cls
    requires var e := At(m, Quot(lo, cls)); IsErr(e) || e.bmap !! Bits(Rem(lo, cls), n)
    ensures PagesRead(m, m, cls, lo, lo + n)
  {
    var hi := lo + n;
    forall q: nat ensures ReadAt(m, m, cls, lo, hi, q) { ChunkPages(cls, lo, n, q); }
  }

  /** Supplying n valid pages of one cluster, which unmaps them. */
  lemma SupplyPages(m: seq<Entry>, cls: nat, lo: nat, n: nat)
    requires cls > 0 && Rem(lo, cls) + n <= cls && Quot(lo, cls) < |m|
    requires var e := m[Quot(lo, cls)]; Live(e) && EntryOk(e) && Bits(Rem(lo, cls), n) <= e.bmap
    ensures var k := Quot(lo, cls);
            PagesRead(m, m[k := Unmapped(m[k], Bits(Rem(lo, cls), n))], cls, lo, lo + n)
  {
    var k, hi := Quot(lo, cls), lo + n;
    var m' := m[k := Unmapped(m[k], Bits(Rem(lo, cls), n))];
    forall q: nat ensures ReadAt(m, m', cls, lo, hi, q) { ChunkPages(cls, lo, n, q); }
  }

  /** All n pages from lo on, of one cluster, get the same kind of answer. */
  lemma SameAnswers<P>(m: seq<Entry>, cls: nat, dev: (nat, nat) -> P, lo: nat, n: nat, r: Reply<P>)
    requires cls > 0 && Rem(lo, cls) + n <= cls
    requires var e, i := At(m, Quot(lo, cls)), Rem(lo, cls);
             match r
             case Error(off, c) => off == lo && c == n && IsErr(e) && e.cloff != 0
             case Unavailable(off, c) =>
               off == lo && c == n && (if IsErr(e) then e.cloff == 0 else e.bmap !! Bits(i, n))
             case Supply(off, pages) =>
               off == lo && Live(e) && Bits(i, n) <= e.bmap && pages == PagesAt(dev, e.ps, PageAddr(e, cls, i), n)
    ensures Told(r) == Expected(m, cls, dev, lo, n)
  {
    forall j: nat | j < n ensures Told(r)[j] == (lo + j, AnswerAt(m, cls, dev, lo + j)) {
      ChunkPages(cls, lo, n, lo + j);
    }
  }
}
