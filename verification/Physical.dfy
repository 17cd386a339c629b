/** Where a page of a cluster lies on the device. */
module Physical {
  import opened Arith
  import opened Options
  import opened ClusterMaps
  import opened Pageins
  import opened PagingSpaces
  import opened Segments

  /** The byte offset ps_clmap returns for page i of cluster c. */
  function ByteOffset(pageShift: nat, clshift: nat, c: nat, i: nat): nat {
    c * Pow2(pageShift) * Pow2(clshift) + i * Pow2(pageShift)
  }

  /** The first device record of that page, as ps_read_device and ps_write_device compute it. */
  function FirstRecord(g: Segment, pageShift: nat, c: nat, i: nat): nat
    requires g.recordShift <= pageShift
  {
    g.offset + Shr(ByteOffset(pageShift, g.clshift, c, i), pageShift - g.recordShift)
  }

  /** A page occupies Pow2(recordShift) records from there on. */
  predicate HasRecord(g: Segment, pageShift: nat, c: nat, i: nat, rec: nat)
    requires g.recordShift <= pageShift
  {
    FirstRecord(g, pageShift, c, i) <= rec < FirstRecord(g, pageShift, c, i) + Pow2(g.recordShift)
  }

  lemma {:induction false} PowSplit(a: nat, b: nat)
    ensures Pow2(a + b) == Pow2(a) * Pow2(b)
  {
    if a > 0 {
      PowSplit(a - 1, b);
      MulTwice(Pow2(a - 1), Pow2(b));
    }
  }

  lemma MulTwice(a: nat, b: nat)
    ensures 2 * a * b == 2 * (a * b)
  {
  }

  /** Shifting right undoes a multiplication. */
  lemma {:induction false} ShrMul(y: nat, n: nat)
    ensures Shr(y * Pow2(n), n) == y
  {
    if n > 0 {
      MulTwice(Pow2(n - 1), y);
      assert y * Pow2(n) == 2 * (y * Pow2(n - 1));
      ShrMul(y, n - 1);
    }
  }

  /** Shifting right is the whole part of a division. */
  lemma {:induction false} ShrExact(x: nat, n: nat)
    ensures Shr(x, n) * Pow2(n) <= x < (Shr(x, n) + 1) * Pow2(n)
  {
    if n > 0 {
      ShrExact(x / 2, n - 1);
      Halved(Shr(x, n), Pow2(n - 1), x);
    }
  }

  lemma Halved(q: nat, p: nat, x: nat)
    requires q * p <= x / 2 < (q + 1) * p
    ensures q * (2 * p) <= x < (q + 1) * (2 * p)
  {
    MulSwap(q, 2, p);
    MulSwap(q + 1, 2, p);
  }

  /** A segment has as many clusters as whole clusters fit in its records. */
  lemma AllClusters(recnum: nat, recordShift: nat, clshift: nat)
    ensures var c, size := ClustersIn(recnum, recordShift, clshift), Pow2(clshift) * Pow2(recordShift);
            c * size <= recnum < (c + 1) * size
  {
    var pages := Shr(recnum, recordShift);
    ShrExact(recnum, recordShift);
    ShrExact(pages, clshift);
    TwoSteps(recnum, pages, Shr(pages, clshift), Pow2(recordShift), Pow2(clshift));
  }

  lemma TwoSteps(x: nat, y: nat, z: nat, p: nat, q: nat)
    requires y * p <= x < (y + 1) * p && z * q <= y < (z + 1) * q
    ensures z * (q * p) <= x < (z + 1) * (q * p)
  {
    MulLe(z * q, y, p);
    MulLe(y + 1, (z + 1) * q, p);
    MulSwap(z, p, q);
    MulSwap(z + 1, p, q);
  }

  /** c * p * n + i * p for p == q * r. */
  lemma Factor(c: nat, i: nat, n: nat, q: nat, r: nat, p: nat)
    requires p == q * r
    ensures c * p * n + i * p == (c * n + i) * r * q
  {
    MulSwap(c, p, n);
    Distribute(c * n, i, p);
    MulSwap(c * n + i, q, r);
  }

  /** The shifts cancel: page P of the segment starts P * Pow2(recordShift) records into it. */
  lemma RecordOfPage(g: Segment, pageShift: nat, c: nat, i: nat)
    requires g.recordShift <= pageShift
    ensures FirstRecord(g, pageShift, c, i) == g.offset + (c * Pow2(g.clshift) + i) * Pow2(g.recordShift)
  {
    var d := pageShift - g.recordShift;
    PowSplit(d, g.recordShift);
    Factor(c, i, Pow2(g.clshift), Pow2(d), Pow2(g.recordShift), Pow2(pageShift));
    ShrMul((c * Pow2(g.clshift) + i) * Pow2(g.recordShift), d);
  }

  /** Different pages of a segment get different page numbers. */
  lemma PageInjective(n: nat, c: nat, i: nat, c': nat, i': nat)
    requires i < n && i' < n && c * n + i == c' * n + i'
    ensures c == c' && i == i'
  {
    DivModUnique(n, c * n + i, c, i);
    DivModUnique(n, c * n + i, c', i');
  }

  /** A page stays inside its segment. */
  lemma InsideSegment(g: Segment, pageShift: nat, c: nat, i: nat)
    requires g.recordShift <= pageShift && Geometry(g) && c < g.ncls && i < Pow2(g.clshift)
    ensures g.offset <= FirstRecord(g, pageShift, c, i)
    ensures FirstRecord(g, pageShift, c, i) + Pow2(g.recordShift) <= g.offset + g.recnum
  {
    var r, n := Pow2(g.recordShift), Pow2(g.clshift);
    var page := c * n + i;
    RecordOfPage(g, pageShift, c, i);
    MulLess(c, g.ncls, n);
    ShrExact(g.pgnum, g.clshift);
    MulLess(page, g.pgnum, r);
    ShrExact(g.recnum, g.recordShift);
  }

  lemma DisjointInSegment(g: Segment, pageShift: nat, c: nat, i: nat, c': nat, i': nat, rec: nat)
    requires g.recordShift <= pageShift && i < Pow2(g.clshift) && i' < Pow2(g.clshift)
    requires HasRecord(g, pageShift, c, i, rec) && HasRecord(g, pageShift, c', i', rec)
    ensures c == c' && i == i'
  {
    var r, n := Pow2(g.recordShift), Pow2(g.clshift);
    RecordOfPage(g, pageShift, c, i);
    RecordOfPage(g, pageShift, c', i');
    var p, p' := c * n + i, c' * n + i';
    if p < p' { MulLess(p, p', r); }
    if p' < p { MulLess(p', p, r); }
    PageInjective(n, c, i, c', i');
  }

  /** Physical disjointness: no device record belongs to two different (segment, cluster, page)
      triples, and the records of a page lie inside its segment. */
  lemma RecordsDisjoint(segs: seq<Option<Segment>>, max: nat, count: nat, cursor: seq<int>, pageShift: nat,
                        j: nat, c: nat, i: nat, j': nat, c': nat, i': nat, rec: nat)
    requires TableOk(segs, max, count, cursor) && j < |segs| && j' < |segs| && segs[j].Some? && segs[j'].Some?
    requires var g, g' := segs[j].value, segs[j'].value;
             && g.device == g'.device && g.recordShift <= pageShift && g'.recordShift <= pageShift
             && c < g.ncls && i < Pow2(g.clshift) && c' < g'.ncls && i' < Pow2(g'.clshift)
             && HasRecord(g, pageShift, c, i, rec) && HasRecord(g', pageShift, c', i', rec)
    ensures j == j' && c == c' && i == i'
    ensures segs[j].value.offset <= rec < segs[j].value.offset + segs[j].value.recnum
  {
    var g, g' := segs[j].value, segs[j'].value;
    assert SlotOk(segs, count, j) && SlotOk(segs, count, j');
    InsideSegment(g, pageShift, c, i);
    InsideSegment(g', pageShift, c', i');
    assert ApartOk(segs, j, j') && ApartOk(segs, j', j);
    DisjointInSegment(g, pageShift, c, i, c', i', rec);
  }

  // ----- the page addresses of the cluster map -----

  /** A page address is the byte offset ps_clmap returns, counted in pages. */
  lemma AddrBytes(e: Entry, pageShift: nat, clshift: nat, i: nat)
    ensures PageAddr(e, Pow2(clshift), i) * Pow2(pageShift) == ByteOffset(pageShift, clshift, e.cloff, i)
  {
    MulSwap(e.cloff, Pow2(pageShift), Pow2(clshift));
    Distribute(e.cloff * Pow2(clshift), i, Pow2(pageShift));
  }

  /** Two pages of a segment have the same address only if they are the same page. */
  lemma AddrInjective(e: Entry, e': Entry, clshift: nat, i: nat, i': nat)
    requires i < Pow2(clshift) && i' < Pow2(clshift)
    requires PageAddr(e, Pow2(clshift), i) == PageAddr(e', Pow2(clshift), i')
    ensures e.cloff == e'.cloff && i == i'
  {
    PageInjective(Pow2(clshift), e.cloff, i, e'.cloff, i');
  }

  /** dev reads pages of segment ps from the records of its device, as ps_read_device does from
      the byte offset of the page. */
  ghost predicate ReadsRecords<R>(dev: (nat, nat) -> seq<R>, disk: nat -> R, g: Segment, ps: nat, pageShift: nat)
    requires g.recordShift <= pageShift
  {
    forall page: nat :: ReadsRecordsAt(dev, disk, g, ps, pageShift, page)
  }

  ghost predicate ReadsRecordsAt<R>(dev: (nat, nat) -> seq<R>, disk: nat -> R, g: Segment, ps: nat, pageShift: nat,
                                    page: nat)
    requires g.recordShift <= pageShift
  {
    var first := g.offset + Shr(page * Pow2(pageShift), pageShift - g.recordShift);
    |dev(ps, page)| == Pow2(g.recordShift) && forall k: nat | k < |dev(ps, page)| :: dev(ps, page)[k] == disk(first + k)
  }

  /** A page the pager supplies is made of the records of that page of its cluster: those that
      RecordsDisjoint shows to belong to no other page. */
  lemma SuppliedRecords<R>(m: seq<Entry>, clshift: nat, g: Segment, pageShift: nat, dev: (nat, nat) -> seq<R>,
                           disk: nat -> R, q: nat, k: nat)
    requires Pow2(clshift) > 0 && g.recordShift <= pageShift && g.clshift == clshift
    requires AnswerAt(m, Pow2(clshift), dev, q).Data?
    requires ReadsRecords(dev, disk, g, At(m, Quot(q, Pow2(clshift))).ps, pageShift)
    ensures var e, i := At(m, Quot(q, Pow2(clshift))), Rem(q, Pow2(clshift));
            var page := AnswerAt(m, Pow2(clshift), dev, q).page;
            && i < Pow2(clshift) && |page| == Pow2(g.recordShift)
            && (k < |page| ==>
                  && HasRecord(g, pageShift, e.cloff, i, FirstRecord(g, pageShift, e.cloff, i) + k)
                  && page[k] == disk(FirstRecord(g, pageShift, e.cloff, i) + k))
  {
    var e, i := At(m, Quot(q, Pow2(clshift))), Rem(q, Pow2(clshift));
    AddrBytes(e, pageShift, clshift, i);
    assert ReadsRecordsAt(dev, disk, g, e.ps, pageShift, PageAddr(e, Pow2(clshift), i));
  }
}
