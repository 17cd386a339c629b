/** The table of paging segments: selecting a segment, allocating and freeing clusters. */
module PagingSpaces {
  import opened Options
  import opened Arith
  import opened Segments
  import opened ClusterMaps

  const MAX_NUM_PAGING_SEGMENTS: nat := 31
  const MAXPRI: nat := 4   // BS_MAXPRI; BS_MINPRI is 0
  const NOPRI: int := -1   // no segment of this priority
  const FULLPRI: int := -2 // no room at this priority

  // ----- the circular scan -----

  /** How many probes a scan of n slots that starts behind slot `start` needs to reach slot s. */
  function Turn(n: nat, start: nat, s: nat): (d: nat)
    requires start < n && s < n
    ensures 1 <= d <= n
  {
    if s > start then s - start else s - start + n
  }

  /** The slot behind j, coming back to 0 behind slot max. */
  function NextSlot(max: nat, j: int): int { if j + 1 > max then 0 else j + 1 }

  /** The slot that probe k (counted from 0) of a scan from `start` looks at. */
  function Probe(max: nat, start: int, k: nat): int {
    NextSlot(max, if k == 0 then start else Probe(max, start, k - 1))
  }

  /** From a slot index the first max + 1 probes stay in the table and visit different slots. */
  lemma {:induction false} ProbeTurn(max: nat, start: nat, k: nat)
    requires start <= max && k <= max
    ensures 0 <= Probe(max, start, k) <= max && Turn(max + 1, start, Probe(max, start, k)) == k + 1
  {
    if k > 0 { ProbeTurn(max, start, k - 1); }
  }

  /** They visit every slot, `start` last: there the scan gives up. */
  lemma ProbeCovers(max: nat, start: nat, s: nat)
    requires start <= max && s <= max
    ensures Probe(max, start, Turn(max + 1, start, s) - 1) == s && Probe(max, start, max) == start
  {
    ProbeTurn(max, start, Turn(max + 1, start, s) - 1);
    ProbeTurn(max, start, max);
  }

  /** From BS_FULLPRI the scan looks at slot -1 first and never comes back to its start, so it
      cannot give up. */
  lemma {:induction false} FullScan(max: nat, k: nat)
    ensures Probe(max, FULLPRI, k) == (if k == 0 then -1 else (k - 1) % (max + 1))
    ensures Probe(max, FULLPRI, k) != FULLPRI
  {
    if k > 1 {
      FullScan(max, k - 1);
      Wrap(max + 1, k - 2);
    }
  }

  lemma Wrap(n: nat, x: nat)
    requires n > 0
    ensures (x + 1) % n == if x % n + 1 == n then 0 else x % n + 1
  {
    var q, r := x / n, x % n;
    if r + 1 == n {
      Distribute(q, 1, n);
      DivModUnique(n, x + 1, q + 1, 0);
    } else {
      DivModUnique(n, x + 1, q, r + 1);
    }
  }

  /** j is the available slot that a scan from `start` reaches first. */
  ghost predicate IsPick(n: nat, start: nat, avail: set<nat>, j: nat) {
    && start < n && j < n && j in avail
    && forall s | s in avail && s < n :: Turn(n, start, j) <= Turn(n, start, s)
  }

  /** Segment j is on line, has room, has this priority and large enough clusters. */
  predicate Available(segs: seq<Option<Segment>>, j: nat, pri: nat, shift: nat) {
    && j < |segs| && segs[j].Some?
    && var g := segs[j].value; g.priority == pri && !g.goingAway && g.clcount > 0 && g.clshift >= shift
  }

  ghost function AvailableSlots(segs: seq<Option<Segment>>, n: nat, pri: nat, shift: nat): (r: set<nat>)
    ensures forall j: nat :: j in r <==> j < n && Available(segs, j, pri, shift)
  {
    set j: nat | j < n && Available(segs, j, pri, shift)
  }

  /** ps_select_array after a selection that found slot j at priority i (i is -1 if none). */
  function CursorAfter(cursor: seq<int>, i: int, j: int): (r: seq<int>)
    ensures |r| == |cursor|
  {
    seq(|cursor|, p requires 0 <= p < |cursor| =>
      if p > i && cursor[p] != NOPRI then FULLPRI else if p == i then j else cursor[p])
  }

  /** No full cursor will be scanned: a priority above each has room.  ps_select_segment does
      not check this. */
  ghost predicate ScanReady(segs: seq<Option<Segment>>, count: nat, cursor: seq<int>, shift: nat)
    requires |cursor| == MAXPRI + 1
  {
    forall i: nat | i <= MAXPRI && cursor[i] == FULLPRI ::
      exists p: nat :: i < p <= MAXPRI && AvailableSlots(segs, count, p, shift) != {}
  }

  lemma ReadyHere(segs: seq<Option<Segment>>, count: nat, cursor: seq<int>, shift: nat, i: nat)
    requires |cursor| == MAXPRI + 1 && i <= MAXPRI && ScanReady(segs, count, cursor, shift)
    requires forall p: nat | i < p <= MAXPRI :: AvailableSlots(segs, count, p, shift) == {}
    ensures cursor[i] != FULLPRI
  {
  }

  /** What a selection does to ps_select_array. */
  ghost predicate Moved(segs: seq<Option<Segment>>, count: nat, c: seq<int>, shift: nat, r: Option<nat>, d: seq<int>)
    requires |c| == MAXPRI + 1
  {
    if count <= 1 then d == c
    else match r
      case None =>
        && d == CursorAfter(c, -1, -1)
        && forall p: nat | p <= MAXPRI :: AvailableSlots(segs, count, p, shift) == {}
      case Some(j) =>
        && j < |segs| && segs[j].Some? && segs[j].value.priority <= MAXPRI
        && var i := segs[j].value.priority;
           && d == CursorAfter(c, i, j)
           && 0 <= c[i] && IsPick(count, c[i], AvailableSlots(segs, count, i, shift), j)
           && forall p: nat | i < p <= MAXPRI :: AvailableSlots(segs, count, p, shift) == {}
  }

  /** What a selection does: it takes one reservation in the segment it found. */
  ghost predicate Selected(segs: seq<Option<Segment>>, count: nat, c: seq<int>, shift: nat, r: Option<nat>,
                           segs': seq<Option<Segment>>, d: seq<int>)
    requires |c| == MAXPRI + 1
  {
    && Moved(segs, count, c, shift, r, d)
    && (r.None? ==> segs' == segs)
    && (r.Some? ==>
          && r.value < count && r.value < |segs| && segs[r.value].Some?
          && var g := segs[r.value].value;
             !g.goingAway && g.clcount > 0 && g.priority <= MAXPRI && segs' == segs[r.value := Some(Reserve(g))])
  }

  /** A segment can serve clusters of this size. */
  predicate CanServe(g: Segment, shift: nat) { !g.goingAway && g.clcount > 0 && g.clshift >= shift }

  /** Among several segments, the one selected can serve the request and has the highest priority
      of those that can; nothing is selected only if none can. */
  lemma SelectsHighest(segs: seq<Option<Segment>>, count: nat, c: seq<int>, shift: nat, r: Option<nat>,
                       segs': seq<Option<Segment>>, d: seq<int>, j: nat)
    requires |c| == MAXPRI + 1 && count > 1 && Selected(segs, count, c, shift, r, segs', d)
    requires j < count && j < |segs| && segs[j].Some? && segs[j].value.priority <= MAXPRI
    ensures r.None? ==> !CanServe(segs[j].value, shift)
    ensures r.Some? ==>
              && CanServe(segs[r.value].value, shift)
              && (CanServe(segs[j].value, shift) ==> segs[j].value.priority <= segs[r.value].value.priority)
  {
    var i := segs[j].value.priority;
    assert CanServe(segs[j].value, shift) <==> j in AvailableSlots(segs, count, i, shift);
    assert r.Some? ==> r.value in AvailableSlots(segs, count, segs[r.value].value.priority, shift);
  }

  /** Record ranges of two segments on one device do not overlap. */
  predicate DisjointRecords(g: Segment, h: Segment) {
    g.device != h.device || g.offset >= h.offset + h.recnum || g.offset + g.recnum <= h.offset
  }

  /** A cursor is a slot index or says why there is none; a priority that is in use has one. */
  ghost predicate CursorOk(segs: seq<Option<Segment>>, max: nat, cursor: seq<int>, i: nat)
    requires i < |cursor|
  {
    && (cursor[i] == NOPRI || cursor[i] == FULLPRI || 0 <= cursor[i] <= max)
    && (cursor[i] == NOPRI ==> forall j: nat | j < |segs| && segs[j].Some? :: segs[j].value.priority != i)
  }

  /** The bit of this cluster is set. */
  predicate Taken(segs: seq<Option<Segment>>, loc: Loc) {
    && loc.ps < |segs| && segs[loc.ps].Some?
    && loc.cloff < segs[loc.ps].value.ncls && IsSet(segs[loc.ps].value.bmap, loc.cloff)
  }

  /** ps_pgnum and ps_ncls: whole pages in the records, whole clusters in the pages. */
  predicate Geometry(g: Segment) { g.pgnum == Shr(g.recnum, g.recordShift) && g.ncls == Shr(g.pgnum, g.clshift) }

  function ClustersIn(recnum: nat, recordShift: nat, clshift: nat): nat { Shr(Shr(recnum, recordShift), clshift) }

  ghost predicate SlotOk(segs: seq<Option<Segment>>, count: nat, j: nat) {
    j < |segs| ==>
      && (segs[j].Some? <==> j < count)
      && (segs[j].Some? ==>
            && Segments.Valid(segs[j].value, 0) && segs[j].value.priority <= MAXPRI
            && segs[j].value.ncls <= ENTRY_NULL && Geometry(segs[j].value))
  }

  ghost predicate ApartOk(segs: seq<Option<Segment>>, j: nat, k: nat) {
    j < k < |segs| && segs[j].Some? && segs[k].Some? ==> DisjointRecords(segs[k].value, segs[j].value)
  }

  /** Segments fill the table from the bottom, since none is ever deleted; on one device they
      do not overlap. */
  ghost predicate TableOk(segs: seq<Option<Segment>>, max: nat, count: nat, cursor: seq<int>) {
    && |segs| == MAX_NUM_PAGING_SEGMENTS && |cursor| == MAXPRI + 1
    && count <= |segs| && max == (if count == 0 then 0 else count - 1)
    && (forall j: nat :: SlotOk(segs, count, j))
    && (forall i: nat | i <= MAXPRI :: CursorOk(segs, max, cursor, i))
    && (forall j: nat, k: nat :: ApartOk(segs, j, k))
  }

  /** Same segment, possibly with a different bitmap, count and hint. */
  predicate SameSegment(g: Segment, h: Segment) {
    && h.device == g.device && h.offset == g.offset && h.recnum == g.recnum && h.ncls == g.ncls
    && h.recordShift == g.recordShift && h.clshift == g.clshift && h.pgnum == g.pgnum
    && h.priority == g.priority && h.goingAway == g.goingAway
  }

  /** Cursors may move inside the table or be marked full. */
  predicate CursorMove(max: nat, c: seq<int>, d: seq<int>) {
    |d| == |c| && forall p: nat | p < |c| :: d[p] == c[p] || (c[p] != NOPRI && (d[p] == FULLPRI || 0 <= d[p] <= max))
  }

  lemma UpdateKeeps(segs: seq<Option<Segment>>, max: nat, count: nat, c: seq<int>, d: seq<int>, ps: nat, h: Segment)
    requires TableOk(segs, max, count, c) && ps < count && segs[ps].Some? && SameSegment(segs[ps].value, h)
             && Segments.Valid(h, 0)
    requires CursorMove(max, c, d)
    ensures TableOk(segs[ps := Some(h)], max, count, d)
  {
    var t := segs[ps := Some(h)];
    forall j: nat ensures SlotOk(t, count, j) { assert SlotOk(segs, count, j) && SlotOk(segs, count, ps); }
    forall p: nat | p <= MAXPRI ensures CursorOk(t, max, d, p) { assert CursorOk(segs, max, c, p); }
    forall j: nat, k: nat ensures ApartOk(t, j, k) { assert ApartOk(segs, j, k); }
  }

  /** ps_enter. */
  lemma EnterKeeps(segs: seq<Option<Segment>>, max: nat, count: nat, c: seq<int>, d: seq<int>, g: Segment)
    requires TableOk(segs, max, count, c) && count < MAX_NUM_PAGING_SEGMENTS && Checked(segs, count, g)
    requires d == if c[g.priority] == NOPRI then c[g.priority := 0] else c
    ensures TableOk(segs[count := Some(g)], count, count + 1, d)
  {
    var t, n := segs[count := Some(g)], count + 1;
    forall j: nat ensures SlotOk(t, n, j) { assert SlotOk(segs, count, j); }
    forall p: nat | p <= MAXPRI ensures CursorOk(t, count, d, p) { assert CursorOk(segs, max, c, p); }
    forall j: nat, k: nat ensures ApartOk(t, j, k) {
      assert ApartOk(segs, j, k) && SlotOk(segs, count, k) && SlotOk(segs, count, j);
    }
  }

  /** A segment as default_pager_add_segment makes it, checked against the table. */
  ghost predicate Checked(segs: seq<Option<Segment>>, count: nat, g: Segment) {
    && Segments.Valid(g, 0) && g.priority <= MAXPRI && g.ncls <= ENTRY_NULL && Geometry(g)
    && forall j: nat | j < count && j < |segs| :: segs[j].Some? ==> DisjointRecords(g, segs[j].value)
  }

  /** The list lock is dropped between the overlap check and ps_enter.  Two segments that both
      passed the check on the same table can be entered exactly if they do not overlap. */
  lemma EnterBoth(segs: seq<Option<Segment>>, max: nat, count: nat, c: seq<int>, g: Segment, h: Segment)
    requires TableOk(segs, max, count, c) && count + 1 < MAX_NUM_PAGING_SEGMENTS
    requires Checked(segs, count, g) && Checked(segs, count, h)
    ensures var d := if c[g.priority] == NOPRI then c[g.priority := 0] else c;
            var d' := if d[h.priority] == NOPRI then d[h.priority := 0] else d;
            TableOk(segs[count := Some(g)][count + 1 := Some(h)], count + 1, count + 2, d') <==> DisjointRecords(h, g)
  {
    var d := if c[g.priority] == NOPRI then c[g.priority := 0] else c;
    EnterKeeps(segs, max, count, c, d, g);
    var t := segs[count := Some(g)];
    if DisjointRecords(h, g) {
      EnterKeeps(t, count, count + 1, d, if d[h.priority] == NOPRI then d[h.priority := 0] else d, h);
    } else {
      assert !ApartOk(t[count + 1 := Some(h)], count, count + 1);
    }
  }

  /** Committing a clear bit takes exactly that cluster. */
  lemma CommitTaken(segs: seq<Option<Segment>>, ps: nat, h: Segment, c: nat)
    requires ps < |segs| && segs[ps].Some? && SameSegment(segs[ps].value, h) && h.bmap == segs[ps].value.bmap
    requires c < h.ncls && c / 8 < |h.bmap| && !IsSet(h.bmap, c)
    ensures !Taken(segs, Loc(ps, c))
    ensures forall loc: Loc :: Taken(segs[ps := Some(Commit(h, c))], loc) <==> Taken(segs, loc) || loc == Loc(ps, c)
  {
  }

  // ----- full cursors -----

  /** The search gets down to priority i, having found nothing above it. */
  ghost predicate Reached(segs: seq<Option<Segment>>, count: nat, cursor: seq<int>, shift: nat, i: nat)
    requires |cursor| == MAXPRI + 1
  {
    forall p: nat | i < p <= MAXPRI :: cursor[p] != FULLPRI && AvailableSlots(segs, count, p, shift) == {}
  }

  /** ScanReady says exactly that every scan the search comes to starts inside the table. */
  lemma ScanReadyExact(segs: seq<Option<Segment>>, max: nat, count: nat, cursor: seq<int>, shift: nat)
    requires TableOk(segs, max, count, cursor)
    ensures ScanReady(segs, count, cursor, shift) <==>
            forall i: nat | i <= MAXPRI && Reached(segs, count, cursor, shift, i) && cursor[i] != NOPRI ::
              0 <= Probe(max, cursor[i], 0) <= max
  {
    forall i: nat | i <= MAXPRI && cursor[i] != NOPRI
      ensures 0 <= Probe(max, cursor[i], 0) <= max <==> cursor[i] != FULLPRI {
      assert CursorOk(segs, max, cursor, i);
    }
    if ScanReady(segs, count, cursor, shift) {
      forall i: nat | i <= MAXPRI && Reached(segs, count, cursor, shift, i) ensures cursor[i] != FULLPRI {
        ReadyHere(segs, count, cursor, shift, i);
      }
    } else {
      var i: nat :| i <= MAXPRI && cursor[i] == FULLPRI &&
                    forall p: nat | i < p <= MAXPRI :: AvailableSlots(segs, count, p, shift) == {};
      var h := HighestFull(cursor, i);
      assert Reached(segs, count, cursor, shift, h);
    }
  }

  lemma HighestFull(cursor: seq<int>, i: nat) returns (h: nat)
    requires |cursor| == MAXPRI + 1 && i <= MAXPRI && cursor[i] == FULLPRI
    ensures i <= h <= MAXPRI && cursor[h] == FULLPRI && forall p: nat | h < p <= MAXPRI :: cursor[p] != FULLPRI
    decreases MAXPRI - i
  {
    h := i;
    if p: nat :| i < p <= MAXPRI && cursor[p] == FULLPRI { h := HighestFull(cursor, p); }
  }

  /** A selection that finds nothing leaves every priority in use full, so that the next
      selection would look at slot -1. */
  lemma NothingLeft(segs: seq<Option<Segment>>, max: nat, count: nat, c: seq<int>, shift: nat, d: seq<int>)
    requires TableOk(segs, max, count, c) && count > 1 && Moved(segs, count, c, shift, None, d)
    ensures forall p: nat | p <= MAXPRI :: d[p] == if c[p] == NOPRI then NOPRI else FULLPRI
    ensures !ScanReady(segs, count, d, shift)
  {
    assert SlotOk(segs, count, 0);
    var i := segs[0].value.priority;
    assert CursorOk(segs, max, c, i);
    assert d[i] == FULLPRI;
  }

  /** Freeing a cluster of priority i makes the next selection safe exactly if no higher
      priority is in use: ps_deallocate_cluster resets only the cursor of priority i. */
  lemma FreeMakesReady(segs: seq<Option<Segment>>, max: nat, count: nat, c: seq<int>, shift: nat, loc: Loc)
    requires TableOk(segs, max, count, c) && Taken(segs, loc)
    requires forall p: nat | p <= MAXPRI :: c[p] == NOPRI || c[p] == FULLPRI
    requires forall p: nat | p <= MAXPRI :: AvailableSlots(segs, count, p, shift) == {}
    requires var g := segs[loc.ps].value; !g.goingAway && g.clshift >= shift
    ensures var g := segs[loc.ps].value;
            && g.priority <= MAXPRI && loc.cloff / 8 < |g.bmap|
            && (ScanReady(segs[loc.ps := Some(Release(g, loc.cloff))], count, c[g.priority := 0], shift) <==>
                forall p: nat | g.priority < p <= MAXPRI :: c[p] == NOPRI)
  {
    assert SlotOk(segs, count, loc.ps);
    var g := segs[loc.ps].value;
    var i, t, d := g.priority, segs[loc.ps := Some(Release(g, loc.cloff))], c[g.priority := 0];
    assert Available(t, loc.ps, i, shift);
    assert loc.ps in AvailableSlots(t, count, i, shift);
    forall p: nat | p <= MAXPRI && p != i ensures AvailableSlots(t, count, p, shift) == {} {
      SameAvailable(segs, t, count, p, shift, loc.ps);
    }
    if p: nat :| i < p <= MAXPRI && c[p] != NOPRI {
      assert d[p] == FULLPRI;
    } else {
      forall q: nat | q <= MAXPRI && d[q] == FULLPRI ensures q < i && AvailableSlots(t, count, i, shift) != {} {}
    }
  }

  /** Entering a segment in that state makes the next selection safe exactly if its priority had
      no segments and no higher priority is in use: ps_enter resets only a cursor that says
      BS_NOPRI. */
  lemma AddMakesReady(segs: seq<Option<Segment>>, max: nat, count: nat, c: seq<int>, shift: nat, g: Segment)
    requires TableOk(segs, max, count, c) && count < MAX_NUM_PAGING_SEGMENTS && g.priority <= MAXPRI
    requires forall p: nat | p <= MAXPRI :: c[p] == NOPRI || c[p] == FULLPRI
    requires forall p: nat | p <= MAXPRI :: AvailableSlots(segs, count, p, shift) == {}
    requires !g.goingAway && g.clcount > 0 && g.clshift >= shift
    ensures var d := if c[g.priority] == NOPRI then c[g.priority := 0] else c;
            ScanReady(segs[count := Some(g)], count + 1, d, shift) <==>
            forall p: nat | g.priority <= p <= MAXPRI :: c[p] == NOPRI
  {
    var i, n, t := g.priority, count + 1, segs[count := Some(g)];
    var d := if c[i] == NOPRI then c[i := 0] else c;
    assert Available(t, count, i, shift);
    assert count in AvailableSlots(t, n, i, shift);
    forall p: nat | p <= MAXPRI && p != i ensures AvailableSlots(t, n, p, shift) == {} {
      forall j: nat ensures j !in AvailableSlots(t, n, p, shift) {
        assert j !in AvailableSlots(segs, count, p, shift);
      }
    }
    if p: nat :| i <= p <= MAXPRI && c[p] != NOPRI {
      assert d[p] == FULLPRI;
    } else {
      forall q: nat | q <= MAXPRI && d[q] == FULLPRI
        ensures q < i && AvailableSlots(t, n, i, shift) != {} {}
    }
  }

  lemma SameAvailable(segs: seq<Option<Segment>>, t: seq<Option<Segment>>, count: nat, p: nat, shift: nat, j: nat)
    requires j < |segs| && segs[j].Some? && segs[j].value.priority != p
    requires |t| == |segs| && t == segs[j := t[j]] && t[j].Some? && t[j].value.priority != p
    ensures AvailableSlots(t, count, p, shift) == AvailableSlots(segs, count, p, shift)
  {
  }

  // ----- fairness -----

  datatype Table = Table(segs: seq<Option<Segment>>, cursor: seq<int>)

  /** What changes the table once its segments are there: a selection, the bit of a reserved
      cluster being set, and the two critical sections of ps_deallocate_cluster. */
  datatype Move = Select(r: Option<nat>) | Take(loc: Loc) | Free(loc: Loc) | Reset(pri: nat)

  ghost predicate Moves(count: nat, shift: nat, s: Table, mv: Move, t: Table) {
    && |s.cursor| == MAXPRI + 1
    && match mv
       case Select(r) => Selected(s.segs, count, s.cursor, shift, r, t.segs, t.cursor)
       case Take(loc) => t.cursor == s.cursor && SetBit(s.segs, loc, t.segs)
       case Free(loc) => t.cursor == s.cursor && BitCleared(s.segs, loc, t.segs)
       case Reset(pri) => t.segs == s.segs && pri <= MAXPRI && t.cursor == ResetAt(s.cursor, pri)
  }

  /** The bit of a reserved cluster is set. */
  predicate SetBit(segs: seq<Option<Segment>>, loc: Loc, t: seq<Option<Segment>>) {
    && loc.ps < |segs| && segs[loc.ps].Some? && loc.cloff / 8 < |segs[loc.ps].value.bmap|
    && t == segs[loc.ps := Some(Commit(segs[loc.ps].value, loc.cloff))]
  }

  /** The bit of a cluster is cleared. */
  predicate BitCleared(segs: seq<Option<Segment>>, loc: Loc, t: seq<Option<Segment>>) {
    && Taken(segs, loc) && loc.cloff / 8 < |segs[loc.ps].value.bmap|
    && t == segs[loc.ps := Some(Release(segs[loc.ps].value, loc.cloff))]
  }

  /** A full priority is scanned from slot 0 again. */
  function ResetAt(c: seq<int>, pri: nat): seq<int>
    requires pri < |c|
  {
    if c[pri] == FULLPRI then c[pri := 0] else c
  }

  /** This move is a selection that found a segment of priority i. */
  predicate PicksAt(s: Table, mv: Move, i: nat) {
    && mv.Select? && mv.r.Some? && mv.r.value < |s.segs| && s.segs[mv.r.value].Some?
    && s.segs[mv.r.value].value.priority == i
  }

  function Picks(tr: seq<Table>, mvs: seq<Move>, i: nat): (n: nat)
    requires |tr| == |mvs| + 1
    ensures n <= |mvs|
  {
    if mvs == [] then 0 else (if PicksAt(tr[0], mvs[0], i) then 1 else 0) + Picks(tr[1..], mvs[1..], i)
  }

  lemma FairStep(count: nat, shift: nat, s: Table, mv: Move, t: Table, i: nat, j: nat)
    requires count > 1 && i <= MAXPRI && Moves(count, shift, s, mv, t) && mv != Select(Some(j))
    requires j in AvailableSlots(s.segs, count, i, shift) && 0 <= s.cursor[i] < count
    ensures |t.cursor| == MAXPRI + 1 && 0 <= t.cursor[i] < count
    ensures Turn(count, t.cursor[i], j) + (if PicksAt(s, mv, i) then 1 else 0) <= Turn(count, s.cursor[i], j)
  {
  }

  /** Fairness over every run of selections, bits set and cleared, and cursors reset: while segment j
      has room, fewer selections than it has probes to wait (at most count) can pick another
      segment of its priority. */
  lemma {:induction false} FairRun(count: nat, shift: nat, tr: seq<Table>, mvs: seq<Move>, i: nat, j: nat)
    requires |tr| == |mvs| + 1 && count > 1 && i <= MAXPRI
    requires forall n: nat | n < |mvs| :: Moves(count, shift, tr[n], mvs[n], tr[n + 1]) && mvs[n] != Select(Some(j))
    requires forall n: nat | n < |tr| :: j in AvailableSlots(tr[n].segs, count, i, shift)
    requires |tr[0].cursor| == MAXPRI + 1 && 0 <= tr[0].cursor[i] < count
    ensures j < count && Picks(tr, mvs, i) < Turn(count, tr[0].cursor[i], j)
    decreases |mvs|
  {
    if mvs != [] {
      assert Moves(count, shift, tr[0], mvs[0], tr[0 + 1]);
      FairStep(count, shift, tr[0], mvs[0], tr[1], i, j);
      var tr', mvs' := tr[1..], mvs[1..];
      forall n: nat | n < |mvs'|
        ensures Moves(count, shift, tr'[n], mvs'[n], tr'[n + 1]) && mvs'[n] != Select(Some(j)) {
        assert Moves(count, shift, tr[n + 1], mvs[n + 1], tr[n + 1 + 1]) && mvs[n + 1] != Select(Some(j));
      }
      FairRun(count, shift, tr', mvs', i, j);
    }
  }

  /** A selection that finds nothing keeps the table sound. */
  lemma NoneAvailable(segs: seq<Option<Segment>>, max: nat, count: nat, c: seq<int>, shift: nat, d: seq<int>)
    requires TableOk(segs, max, count, c) && Moved(segs, count, c, shift, None, d)
    ensures TableOk(segs, max, count, d)
    ensures forall j: nat, p: nat | j < count :: count > 1 && p <= MAXPRI ==> !Available(segs, j, p, shift)
  {
    forall j: nat, p: nat | j < count && count > 1 && p <= MAXPRI ensures !Available(segs, j, p, shift) {
      assert j !in AvailableSlots(segs, count, p, shift);
    }
    forall p: nat | p <= MAXPRI ensures CursorOk(segs, max, d, p) { assert CursorOk(segs, max, c, p); }
  }

  class PagingSpace {
    var segs: seq<Option<Segment>>  // paging_segments
    var max: nat                    // paging_segment_max
    var count: nat                  // paging_segment_count
    var cursor: seq<int>            // ps_select_array
    var committed: int              // clusters_committed
    var available: int              // clusters_available

    ghost predicate Valid()
      reads this
    {
      TableOk(segs, max, count, cursor)
    }

    constructor ()
      ensures Valid() && count == 0 && committed == 0 && available == 0
    {
      segs := seq(MAX_NUM_PAGING_SEGMENTS, _ => None);
      max, count, cursor := 0, 0, [NOPRI, NOPRI, NOPRI, NOPRI, NOPRI];
      committed, available := 0, 0;
      new;
      forall j: nat ensures SlotOk(segs, count, j) {}
      forall j: nat, k: nat ensures ApartOk(segs, j, k) {}
    }

    /** The inner loop of ps_select_segment. */
    method Scan(pri: nat, shift: nat) returns (r: Option<nat>)
      requires |segs| == MAX_NUM_PAGING_SEGMENTS && max < |segs|
      requires pri < |cursor| && 0 <= cursor[pri] <= max
      ensures r.None? <==> AvailableSlots(segs, max + 1, pri, shift) == {}
      ensures r.Some? ==> IsPick(max + 1, cursor[pri], AvailableSlots(segs, max + 1, pri, shift), r.value)
    {
      var start: nat := cursor[pri];
      var n := max + 1;
      var j := start + 1;
      ghost var k := 0;
      ghost var avail := AvailableSlots(segs, n, pri, shift);
      while true
        invariant 0 <= j <= n && k < n && Probe(max, start, k) == NextSlot(max, j - 1)
        invariant forall s | s in avail :: Turn(n, start, s) > k
        decreases n - k
      {
        ProbeTurn(max, start, k);
        if j > max { j := 0; }
        if Available(segs, j, pri, shift) { return Some(j); }
        if j == start {
          assert forall s | s in avail :: Turn(n, start, s) == n && s == start;
          return None;
        }
        j := j + 1;
        k := k + 1;
      }
    }

    /** ps_select_segment.  With one segment its cursor is not used.  With several, the search
        goes from the highest priority down, round robin inside a priority, takes exactly one
        reservation, and marks a priority full only if it has no available segment. */
    method SelectSegment(shift: nat) returns (r: Option<nat>)
      requires Valid()
      requires count > 1 ==> ScanReady(segs, count, cursor, shift)
      modifies this`segs, this`cursor
      ensures Selected(old(segs), count, old(cursor), shift, r, segs, cursor)
      ensures count == 1 ==>
                old(segs)[0].Some? && (r.None? <==> old(segs)[0].value.goingAway || old(segs)[0].value.clcount == 0)
    {
      assert SlotOk(segs, count, 0);
      if count == 1 {
        var g := segs[max].value;
        if g.goingAway || g.clcount == 0 { return None; }
        segs := segs[max := Some(Reserve(g))];
        return Some(max);
      }
      if count == 0 { return None; }
      var i := MAXPRI as int;
      while i >= 0
        invariant -1 <= i <= MAXPRI && segs == old(segs)
        invariant cursor == CursorAfter(old(cursor), i, if i >= 0 then old(cursor[i]) else -1)
        invariant forall p: nat | i < p <= MAXPRI :: AvailableSlots(segs, count, p, shift) == {}
      {
        assert CursorOk(segs, max, old(cursor), i);
        if cursor[i] != NOPRI {
          ReadyHere(segs, count, old(cursor), shift, i);
          var found := Scan(i, shift);
          if found.Some? {
            var j := found.value;
            assert SlotOk(segs, count, j);
            segs := segs[j := Some(Reserve(segs[j].value))];
            cursor := cursor[i := j];
            assert cursor == CursorAfter(old(cursor), i, j);
            return found;
          }
          cursor := cursor[i := FULLPRI];
        }
        i := i - 1;
        assert cursor == CursorAfter(old(cursor), i, if i >= 0 then old(cursor[i]) else -1);
      }
      return None;
    }

    /** ps_allocate_cluster: reserve, then take the lowest free bit. */
    method AllocateCluster(shift: nat) returns (r: Option<Loc>)
      requires Valid()
      requires count > 1 ==> ScanReady(segs, count, cursor, shift)
      modifies this`segs, this`cursor
      ensures Valid()
      ensures Moved(old(segs), count, old(cursor), shift, if r.Some? then Some(r.value.ps) else None, cursor)
      ensures r.None? ==>
                && segs == old(segs)
                && forall j: nat, p: nat | j < count :: count > 1 && p <= MAXPRI ==> !Available(segs, j, p, shift)
      ensures r.Some? ==>
                && r.value.ps < count && old(segs)[r.value.ps].Some?
                && var g := old(segs)[r.value.ps].value;
                   && !g.goingAway && g.clcount > 0 && IsLowestClear(g, r.value.cloff) && r.value.cloff / 8 < |g.bmap|
                   && segs == old(segs)[r.value.ps := Some(Commit(Reserve(g), r.value.cloff))]
      ensures forall loc: Loc :: Taken(segs, loc) <==> Taken(old(segs), loc) || Some(loc) == r
      ensures r.Some? ==> !Taken(old(segs), r.value)
    {
      var ps := SelectSegment(shift);
      if ps.None? {
        NoneAvailable(segs, max, count, old(cursor), shift, cursor);
        return None;
      }
      assert SlotOk(old(segs), count, ps.value);
      var h := segs[ps.value].value;
      assert Clear(h) == Clear(old(segs)[ps.value].value);
      var c := FindCluster(h, 1);
      CommitKeeps(h, 1, c);
      UpdateKeeps(old(segs), max, count, old(cursor), cursor, ps.value, Commit(h, c));
      CommitTaken(old(segs), ps.value, h, c);
      segs := segs[ps.value := Some(Commit(h, c))];
      assert segs == old(segs)[ps.value := Some(Commit(h, c))];
      return Some(Loc(ps.value, c));
    }

    /** ps_deallocate_cluster. */
    method DeallocateCluster(loc: Loc)
      requires Valid() && Taken(segs, loc)
      modifies this`segs, this`cursor
      ensures Valid()
      ensures BitCleared(old(segs), loc, segs)
      ensures segs[loc.ps].value.priority <= MAXPRI && cursor == ResetAt(old(cursor), segs[loc.ps].value.priority)
      ensures forall l: Loc :: Taken(segs, l) <==> Taken(old(segs), l) && l != loc
    {
      assert SlotOk(segs, count, loc.ps);
      var g := segs[loc.ps].value;
      ReleaseKeeps(g, 0, loc.cloff);
      segs := segs[loc.ps := Some(Release(g, loc.cloff))];
      if cursor[g.priority] == FULLPRI { cursor := cursor[g.priority := 0]; }
      UpdateKeeps(old(segs), max, count, old(cursor), cursor, loc.ps, Release(g, loc.cloff));
    }

    /** default_pager_add_segment and ps_enter, as one step; segOk and bmapOk say whether kalloc
        succeeds. */
    method AddSegment(device: nat, offset: nat, recnum: nat, recordShift: nat, clshift: nat, priority: nat,
                      segOk: bool, bmapOk: bool, garbage: seq<bv8>)
        returns (ok: bool)
      requires Valid() && priority <= MAXPRI && ClustersIn(recnum, recordShift, clshift) <= ENTRY_NULL
      requires |garbage| == (ClustersIn(recnum, recordShift, clshift) + 7) / 8
      modifies this
      ensures Valid()
      ensures ok <==> segOk && bmapOk && old(count) < MAX_NUM_PAGING_SEGMENTS &&
                      forall j: nat | j < old(count) ::
                        old(segs)[j].Some? && var g := old(segs)[j].value;
                        g.device != device || offset >= g.offset + g.recnum || offset + recnum <= g.offset
      ensures committed == old(committed)
      ensures !ok ==> segs == old(segs) && cursor == old(cursor) && count == old(count) && available == old(available)
      ensures ok ==>
                && count == old(count) + 1 && available == old(available) + ClustersIn(recnum, recordShift, clshift)
                && cursor == (if old(cursor[priority]) == NOPRI then old(cursor)[priority := 0] else old(cursor))
                && segs[old(count)].Some? && segs == old(segs)[old(count) := segs[old(count)]]
                && var g := segs[old(count)].value;
                   && g.device == device && g.offset == offset && g.recnum == recnum && g.recordShift == recordShift
                   && g.clshift == clshift && g.ncls == ClustersIn(recnum, recordShift, clshift)
                   && g.clcount == g.ncls && g.hint == 0 && g.priority == priority && !g.goingAway
                   && forall c: nat | c < g.ncls :: !IsSet(g.bmap, c)
    {
      var i := 0;
      while i < count
        invariant 0 <= i <= count
        invariant forall j: nat | j < i ::
                    segs[j].Some? && var g := segs[j].value;
                    g.device != device || offset >= g.offset + g.recnum || offset + recnum <= g.offset
      {
        assert SlotOk(segs, count, i);
        var g := segs[i].value;
        if !(g.device != device || offset >= g.offset + g.recnum || offset + recnum <= g.offset) { return false; }
        i := i + 1;
      }
      if !segOk || !bmapOk { return false; }
      var ncls := ClustersIn(recnum, recordShift, clshift);
      var bmap := ClearBitmap(garbage, ncls);
      var g := Segment(device, offset, recnum, recordShift, Shr(recnum, recordShift), clshift, ncls, ncls, 0, bmap,
                       priority, false);
      AllClear(g, ncls);
      if count == MAX_NUM_PAGING_SEGMENTS { return false; }
      segs := segs[count := Some(g)];
      max := count;
      count := count + 1;
      if cursor[priority] == NOPRI { cursor := cursor[priority := 0]; }
      EnterKeeps(old(segs), old(max), old(count), old(cursor), cursor, g);
      available := available + ncls;
      return true;
    }
  }

  /** Two segments of one priority, allocated from until nothing is left: every selection is
      safe, all clusters get used, and the run ends with a cursor from which the next selection
      would start outside the table. */
  method UseUp(space: PagingSpace, pri: nat, shift: nat)
    requires space.Valid() && space.count == 2 && pri <= MAXPRI && 0 <= space.cursor[pri]
    requires forall p: nat | p <= MAXPRI && p != pri :: space.cursor[p] == NOPRI
    requires Usable(space.segs, 0, pri, shift) && Usable(space.segs, 1, pri, shift)
    modifies space`segs, space`cursor
    ensures space.Valid() && Usable(space.segs, 0, pri, shift) && Usable(space.segs, 1, pri, shift)
    ensures Room(space.segs, 0) == 0 && Room(space.segs, 1) == 0
    ensures space.cursor[pri] == FULLPRI && !ScanReady(space.segs, space.count, space.cursor, shift)
  {
    var more := true;
    while more
      invariant space.Valid() && Usable(space.segs, 0, pri, shift) && Usable(space.segs, 1, pri, shift)
      invariant more ==> 0 <= space.cursor[pri]
      invariant forall p: nat | p <= MAXPRI && p != pri :: space.cursor[p] == NOPRI
      invariant !more ==> space.cursor[pri] == FULLPRI && !ScanReady(space.segs, space.count, space.cursor, shift)
      invariant !more ==> Room(space.segs, 0) == 0 && Room(space.segs, 1) == 0
      decreases Room(space.segs, 0) + Room(space.segs, 1), more
    {
      ghost var s, c := space.segs, space.cursor;
      var r := space.AllocateCluster(shift);
      more := r.Some?;
      if r.None? {
        NothingLeft(s, space.max, space.count, c, shift, space.cursor);
        assert !Available(s, 0, pri, shift) && !Available(s, 1, pri, shift);
      }
    }
  }

  ghost predicate Usable(segs: seq<Option<Segment>>, j: nat, pri: nat, shift: nat) {
    && j < |segs| && segs[j].Some?
    && var g := segs[j].value; g.priority == pri && !g.goingAway && g.clshift >= shift
  }

  ghost function Room(segs: seq<Option<Segment>>, j: nat): nat
    requires j < |segs| && segs[j].Some?
  {
    segs[j].value.clcount
  }

  /** A freshly cleared bitmap has as many clear bits as clusters. */
  lemma {:induction false} AllClear(g: Segment, n: nat)
    requires g.ncls == n && forall c: nat | c < n :: !IsSet(g.bmap, c)
    ensures |Clear(g)| == n
    decreases n
  {
    if n == 0 {
      assert Clear(g) == {};
    } else {
      var h := g.(ncls := n - 1);
      AllClear(h, n - 1);
      ClearSplit(g, h, n - 1);
    }
  }

  lemma ClearSplit(g: Segment, h: Segment, c: nat)
    requires g.ncls == c + 1 && h == g.(ncls := c) && !IsSet(g.bmap, c)
    ensures Clear(g) == Clear(h) + {c} && c !in Clear(h)
  {
  }
}
