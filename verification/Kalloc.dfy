/** The pager's memory allocator: power-of-two free lists whose links lie in the free blocks,
    over a bump allocator that drops its lock while it maps new space.

    Each action is one critical section, so a run is an arbitrary interleaving of threads.
    Addresses are bytes. */
module Kalloc {
  import opened Options
  import opened Sums

  const MINSIZE: nat := 4
  const KLIST_MAX: nat := 13

  /** Block size of free list c: MINSIZE << c. */
  function SizeOf(c: nat): (r: nat)
    ensures r >= 4 && r % 4 == 0
  {
    if c == 0 then MINSIZE else 2 * SizeOf(c - 1)
  }

  /** kalloc_init: free lists for items below the page size or 16 KB. */
  function KallocMax(page: nat): nat { if page > 16 * 1024 then 16 * 1024 else page }

  /** c is the smallest class whose blocks hold size bytes. */
  ghost predicate FitsIn(size: nat, c: nat) { size <= SizeOf(c) && (c > 0 ==> SizeOf(c - 1) < size) }

  /** The rounding loop of kalloc and kfree; None means that vm_allocate is used. */
  method ClassOf(size: nat, page: nat) returns (r: Option<nat>)
    ensures r.Some? ==> FitsIn(size, r.value) && r.value < KLIST_MAX && SizeOf(r.value) < KallocMax(page)
    ensures r.None? <==> size >= KallocMax(page) || forall c: nat | FitsIn(size, c) :: SizeOf(c) >= KallocMax(page)
  {
    var max := KallocMax(page);
    if size >= max { return None; }
    var allocSize, c := MINSIZE, 0;
    while allocSize < size
      invariant allocSize == SizeOf(c) && (c > 0 ==> SizeOf(c - 1) < size)
      decreases size - allocSize
    {
      allocSize, c := 2 * allocSize, c + 1;
    }
    forall d: nat | FitsIn(size, d) ensures d == c { OneClass(size, c, d); }
    if allocSize >= max { return None; }
    if c >= KLIST_MAX { SizeGrows(KLIST_MAX, c); }
    return Some(c);
  }

  lemma {:induction false} SizeGrows(c: nat, d: nat)
    requires c <= d
    ensures SizeOf(c) <= SizeOf(d) && (c < d ==> SizeOf(c) <= SizeOf(d - 1))
    decreases d
  {
    if c < d { SizeGrows(c, d - 1); }
  }

  lemma OneClass(size: nat, c: nat, d: nat)
    requires FitsIn(size, c) && FitsIn(size, d)
    ensures c == d
  {
    if c < d { SizeGrows(c, d); } else if d < c { SizeGrows(d, c); }
  }

  // ----- state -----

  /** Where a thread is inside kget_space while it does not hold the lock. */
  datatype Pc =
    | Mapping(c: nat)                     // about to call vm_map
    | Mapped(c: nat, start: nat)          // vm_map has returned, about to lock again
    | Unmapping(start: nat, len: nat)     // the new region turned out not to be needed

  datatype State = State(
    page: nat,
    live: map<nat, nat>,       // blocks handed out, address to class
    big: map<nat, nat>,        // vm_allocate blocks, address to size
    lists: seq<seq<nat>>,      // blocks of each free list, head last
    head: seq<nat>,            // kfree_list[c].head
    mem: map<nat, nat>,        // words of memory; a missing word is 0
    next: nat, end: nat,       // kalloc_next_space, kalloc_end_of_space
    wasted: nat,               // kalloc_wasted_space
    scrap: map<nat, nat>,      // the remainders thrown away, start to length
    added: nat,                // bytes of all regions taken into the bump area
    threads: map<nat, Pc>)

  datatype Action =
    | Pop(c: nat)                       // kalloc from a free list
    | Enter(t: nat, c: nat)             // kget_space up to the first unlock
    | Map(t: nat, start: nat)           // vm_map succeeds
    | MapFails(t: nat)                  // vm_map fails, kget_space returns 0
    | Relock(t: nat)                    // the rest of kget_space under the lock
    | Unmap(t: nat)                     // vm_deallocate of a region not needed
    | Free(b: nat)                      // kfree of a small block
    | BigAlloc(b: nat, size: nat)       // kalloc by vm_allocate
    | BigFree(b: nat)
    | Store(b: nat, a: nat, v: nat)     // the owner of live block b writes a word of it

  function Word(mem: map<nat, nat>, a: nat): nat { if a in mem then mem[a] else 0 }

  /** round_page. */
  function RoundPage(page: nat, size: nat): (r: nat)
    requires page > 0
    ensures r >= size && (page % 4 == 0 ==> r % 4 == 0)
  {
    if size == 0 then 0 else if size <= page then page else page + RoundPage(page, size - page)
  }

  /** It is the smallest multiple of the page size that is large enough. */
  lemma {:induction false} RoundPageExact(page: nat, size: nat) returns (n: nat)
    requires page > 0
    ensures RoundPage(page, size) == Blocks(n, page) && RoundPage(page, size) < size + page
    decreases size
  {
    if size == 0 {
      n := 0;
    } else if size <= page {
      n := 1;
    } else {
      n := RoundPageExact(page, size - page);
      n := n + 1;
    }
  }

  predicate Room(s: State, c: nat) { s.next + SizeOf(c) <= s.end }

  // ----- who owns a byte -----

  datatype Owner =
    InLive(b: nat) | InBig(bb: nat) | InList(c: nat, i: nat) | InRest | InScrap(r: nat) | InRegion(t: nat)

  /** The region a thread has mapped and not yet put to use. */
  function RegionStart(p: Pc): nat { if p.Mapping? then 0 else p.start }

  function RegionLen(page: nat, p: Pc): nat
    requires page > 0
  {
    match p
    case Mapping(c) => 0
    case Mapped(c, start) => RoundPage(page, SizeOf(c))
    case Unmapping(start, len) => len
  }

  predicate OwnedBy(s: State, a: nat, o: Owner)
    requires s.page > 0
  {
    match o
    case InLive(b) => b in s.live && b <= a < b + SizeOf(s.live[b])
    case InBig(b) => b in s.big && b <= a < b + s.big[b]
    case InList(c, i) => c < |s.lists| && i < |s.lists[c]| && s.lists[c][i] <= a < s.lists[c][i] + SizeOf(c)
    case InRest => s.next <= a < s.end
    case InScrap(r) => r in s.scrap && r <= a < r + s.scrap[r]
    case InRegion(t) =>
      t in s.threads && RegionStart(s.threads[t]) <= a < RegionStart(s.threads[t]) + RegionLen(s.page, s.threads[t])
  }

  ghost predicate Unowned(s: State, a: nat)
    requires s.page > 0
  {
    forall o :: !OwnedBy(s, a, o)
  }

  /** What vm_map and vm_allocate return: page aligned, not at 0, and not in use. */
  ghost predicate IsFresh(s: State, start: nat, len: nat)
    requires s.page > 0
  {
    start > 0 && start % s.page == 0 && start % 4 == 0 && forall a: nat | start <= a < start + len :: Unowned(s, a)
  }

  // ----- steps -----

  ghost predicate Enabled(s: State, a: Action)
    requires s.page > 0
  {
    match a
    case Pop(c) => c < |s.head| && c < |s.lists| && s.head[c] != 0 && |s.lists[c]| > 0
    case Enter(t, c) => c < |s.lists| && t !in s.threads
    case Map(t, start) =>
      t in s.threads && s.threads[t].Mapping? && IsFresh(s, start, RoundPage(s.page, SizeOf(s.threads[t].c)))
    case MapFails(t) => t in s.threads && s.threads[t].Mapping?
    case Relock(t) => t in s.threads && s.threads[t].Mapped?
    case Unmap(t) => t in s.threads && s.threads[t].Unmapping?
    case Free(b) => b in s.live && s.live[b] < |s.lists| && s.live[b] < |s.head|
    case BigAlloc(b, size) => size > 0 && IsFresh(s, b, size)
    case BigFree(b) => b in s.big
    case Store(b, x, v) => b in s.live && b <= x && x + 4 <= b + SizeOf(s.live[b]) && x % 4 == 0
  }

  /** Cut a block of class c off the front of the bump area. */
  function Cut(s: State, c: nat): State { s.(live := s.live[s.next := c], next := s.next + SizeOf(c)) }

  /** Take a region of len bytes at start into the bump area. */
  function Grow(s: State, start: nat, len: nat): State {
    if start == s.end then s.(end := s.end + len, added := s.added + len)
    else
      s.(next := start, end := start + len, added := s.added + len,
         wasted := s.wasted + (if s.next < s.end then s.end - s.next else 0),
         scrap := if s.next < s.end then s.scrap[s.next := s.end - s.next] else s.scrap)
  }

  function DoPop(s: State, c: nat): State
    requires c < |s.head| && c < |s.lists| && |s.lists[c]| > 0
  {
    var b, n := s.head[c], |s.lists[c]|;
    s.(head := s.head[c := Word(s.mem, b)], lists := s.lists[c := s.lists[c][..n - 1]], live := s.live[b := c])
  }

  function DoFree(s: State, b: nat): State
    requires b in s.live && s.live[b] < |s.lists| && s.live[b] < |s.head|
  {
    var c := s.live[b];
    s.(mem := s.mem[b := s.head[c]], head := s.head[c := b], lists := s.lists[c := s.lists[c] + [b]],
      live := s.live - {b})
  }

  function DoRelock(s: State, t: nat): State
    requires s.page > 0 && t in s.threads && s.threads[t].Mapped?
  {
    var c, start := s.threads[t].c, s.threads[t].start;
    var len := RoundPage(s.page, SizeOf(c));
    if Room(s, c) then Cut(s, c).(threads := s.threads[t := Unmapping(start, len)])
    else Cut(Grow(s, start, len), c).(threads := s.threads - {t})
  }

  ghost function Apply(s: State, a: Action): State
    requires s.page > 0 && Enabled(s, a)
  {
    match a
    case Pop(c) => DoPop(s, c)
    case Enter(t, c) => if Room(s, c) then Cut(s, c) else s.(threads := s.threads[t := Mapping(c)])
    case Map(t, start) => s.(threads := s.threads[t := Mapped(s.threads[t].c, start)])
    case MapFails(t) => s.(threads := s.threads - {t})
    case Relock(t) => DoRelock(s, t)
    case Unmap(t) => s.(threads := s.threads - {t})
    case Free(b) => DoFree(s, b)
    case BigAlloc(b, size) => s.(big := s.big[b := size])
    case BigFree(b) => s.(big := s.big - {b})
    case Store(b, x, v) => s.(mem := s.mem[x := v])
  }

  // ----- the invariant -----

  /** No byte has two owners. */
  ghost predicate ByteOk(s: State, a: nat)
    requires s.page > 0
  {
    forall o, o' :: OwnedBy(s, a, o) && OwnedBy(s, a, o') ==> o == o'
  }

  /** The list is linked through its blocks from head to 0. */
  predicate LinkOk(s: State, c: nat, i: nat) {
    c < |s.lists| && i < |s.lists[c]| ==>
      Word(s.mem, s.lists[c][i]) == (if i == 0 then 0 else s.lists[c][i - 1])
  }

  predicate HeadOk(s: State, c: nat) {
    c < |s.lists| && c < |s.head| ==> s.head[c] == (if |s.lists[c]| == 0 then 0 else s.lists[c][|s.lists[c]| - 1])
  }

  /** Blocks start at multiples of 4 and not at 0. */
  predicate AlignOk(s: State, o: Owner) {
    match o
    case InLive(b) => b in s.live ==> b > 0 && b % 4 == 0 && s.live[b] < |s.lists|
    case InList(c, i) => c < |s.lists| && i < |s.lists[c]| ==> s.lists[c][i] > 0 && s.lists[c][i] % 4 == 0
    case InScrap(r) => r in s.scrap ==> s.scrap[r] > 0
    case InRegion(t) =>
      t in s.threads && !s.threads[t].Mapping? ==> s.threads[t].start > 0 && s.threads[t].start % 4 == 0
    case InBig(b) => b in s.big ==> s.big[b] > 0
    case InRest => 0 < s.next <= s.end && s.next % 4 == 0
  }

  predicate ClassOk(s: State, t: nat) { t in s.threads && !s.threads[t].Unmapping? ==> s.threads[t].c < |s.lists| }

  function LiveSizes(live: map<nat, nat>): map<nat, nat> { map b | b in live :: SizeOf(live[b]) }

  ghost function LiveBytes(live: map<nat, nat>): nat { Sum(LiveSizes(live)) }

  /** n blocks of this size. */
  function Blocks(n: nat, size: nat): nat { if n == 0 then 0 else size + Blocks(n - 1, size) }

  /** Bytes in the first n free lists. */
  function ListBytes(lists: seq<seq<nat>>, n: nat): nat
    requires n <= |lists|
  {
    if n == 0 then 0 else ListBytes(lists, n - 1) + Blocks(|lists[n - 1]|, SizeOf(n - 1))
  }

  /** Incorporated space = live + on free lists + wasted + remaining. */
  ghost predicate Conserved(s: State) {
    && s.next <= s.end
    && s.added == LiveBytes(s.live) + ListBytes(s.lists, |s.lists|) + s.wasted + (s.end - s.next)
  }

  ghost predicate WasteOk(s: State) { s.wasted == Sum(s.scrap) }

  ghost predicate Shape(s: State) {
    s.page > 0 && s.page % 4 == 0 && |s.lists| == KLIST_MAX && |s.head| == KLIST_MAX
  }

  ghost predicate Linked(s: State) {
    (forall c: nat, i: nat :: LinkOk(s, c, i)) && forall c: nat :: HeadOk(s, c)
  }

  ghost predicate Inv(s: State) {
    && Shape(s) && Linked(s) && Conserved(s) && WasteOk(s)
    && (forall a: nat :: ByteOk(s, a))
    && (forall o :: AlignOk(s, o))
    && (forall t: nat :: ClassOk(s, t))
  }

  /** kalloc_init. */
  ghost predicate Init(s: State) {
    && s.page > 0 && s.page % 4 == 0
    && s.lists == seq(KLIST_MAX, _ => []) && s.head == seq(KLIST_MAX, _ => 0)
    && s.live == map[] && s.big == map[] && s.scrap == map[] && s.threads == map[]
    && s.next == s.page && s.end == s.page && s.wasted == 0 && s.added == 0
  }

  // ----- a step hands a byte from at most one owner to at most one other -----

  ghost predicate Moves(s: State, t: State, a: nat, from: Option<Owner>, to: Option<Owner>)
    requires s.page > 0 && t.page > 0
  {
    && (from.Some? ==> OwnedBy(s, a, from.value))
    && (from.None? && to.Some? ==> Unowned(s, a))
    && forall o :: OwnedBy(t, a, o) ==> (OwnedBy(s, a, o) && Some(o) != from) || Some(o) == to
  }

  lemma MoveKeeps(s: State, t: State, a: nat, from: Option<Owner>, to: Option<Owner>)
    requires s.page > 0 && t.page > 0 && ByteOk(s, a) && Moves(s, t, a, from, to)
    ensures ByteOk(t, a)
  {
  }

  /** Cut takes its block out of the bump area. */
  lemma CutMoves(s: State, c: nat, a: nat)
    requires s.page > 0 && Room(s, c) && ByteOk(s, s.next)
    ensures Moves(s, Cut(s, c), a, if s.next <= a < s.next + SizeOf(c) then Some(InRest) else None,
                  if s.next <= a < s.next + SizeOf(c) then Some(InLive(s.next)) else None)
  {
    var t := Cut(s, c);
    assert OwnedBy(s, s.next, InRest) && !OwnedBy(s, s.next, InLive(s.next));
    forall o | OwnedBy(t, a, o) ensures OwnedBy(s, a, o) || (o == InLive(s.next) && s.next <= a < s.next + SizeOf(c)) {}
  }

  /** Grow, by the thread that has mapped the region. */
  function GrowBy(s: State, t: nat): State
    requires s.page > 0 && t in s.threads && s.threads[t].Mapped?
  {
    Grow(s, s.threads[t].start, RoundPage(s.page, SizeOf(s.threads[t].c))).(threads := s.threads - {t})
  }

  /** A region that continues the bump area. */
  lemma GrowNear(s: State, t: nat, a: nat)
    requires s.page > 0 && t in s.threads && s.threads[t].Mapped? && ByteOk(s, a)
             && s.next <= s.end == s.threads[t].start
    ensures var inside := s.end <= a < s.end + RoundPage(s.page, SizeOf(s.threads[t].c));
            Moves(s, GrowBy(s, t), a, if inside then Some(InRegion(t)) else None, if inside then Some(InRest) else None)
  {
    var u, inside := GrowBy(s, t), s.end <= a < s.end + RoundPage(s.page, SizeOf(s.threads[t].c));
    assert OwnedBy(s, a, InRegion(t)) <==> inside;
    forall o | OwnedBy(u, a, o)
      ensures (OwnedBy(s, a, o) && !(inside && o == InRegion(t))) || (inside && o == InRest) {}
  }

  /** A region somewhere else: the remainder of the old area is thrown away. */
  lemma GrowFar(s: State, t: nat, a: nat)
    requires s.page > 0 && t in s.threads && s.threads[t].Mapped? && ByteOk(s, a)
             && s.next <= s.end != s.threads[t].start
    requires s.next < s.end ==> s.next !in s.scrap
    ensures var inside := s.threads[t].start <= a < s.threads[t].start + RoundPage(s.page, SizeOf(s.threads[t].c));
            var rest := s.next <= a < s.end;
            Moves(s, GrowBy(s, t), a, if inside then Some(InRegion(t)) else if rest then Some(InRest) else None,
                  if inside then Some(InRest) else if rest then Some(InScrap(s.next)) else None)
  {
    var u, start := GrowBy(s, t), s.threads[t].start;
    var inside, rest := start <= a < start + RoundPage(s.page, SizeOf(s.threads[t].c)), s.next <= a < s.end;
    assert OwnedBy(s, a, InRegion(t)) <==> inside;
    assert OwnedBy(s, a, InRest) <==> rest;
    forall o | OwnedBy(u, a, o)
      ensures (OwnedBy(s, a, o) && o != InRest && o != InRegion(t)) || (inside && o == InRest)
              || (!inside && rest && o == InScrap(s.next)) {
      match o
      case InScrap(r) =>
      case InRegion(i) =>
      case InRest =>
      case _ =>
    }
  }

  lemma GrowBytes(s: State, t: nat, a: nat)
    requires s.page > 0 && t in s.threads && s.threads[t].Mapped? && s.next <= s.end && AlignOk(s, InScrap(s.next))
    requires forall x: nat :: ByteOk(s, x)
    ensures ByteOk(GrowBy(s, t), a)
  {
    assert ByteOk(s, a);
    if s.next < s.end {
      assert ByteOk(s, s.next);
      assert OwnedBy(s, s.next, InRest) && !OwnedBy(s, s.next, InScrap(s.next));
    }
    if s.threads[t].start == s.end {
      GrowNear(s, t, a);
    } else {
      GrowFar(s, t, a);
    }
  }

  lemma PopMoves(s: State, c: nat, a: nat)
    requires s.page > 0 && Enabled(s, Pop(c)) && HeadOk(s, c) && ByteOk(s, s.head[c])
    ensures var b, n := s.head[c], |s.lists[c]|;
            Moves(s, DoPop(s, c), a, if b <= a < b + SizeOf(c) then Some(InList(c, n - 1)) else None,
                  if b <= a < b + SizeOf(c) then Some(InLive(b)) else None)
  {
    var b, n, t := s.head[c], |s.lists[c]|, DoPop(s, c);
    assert OwnedBy(s, b, InList(c, n - 1)) && !OwnedBy(s, b, InLive(b));
    forall o | OwnedBy(t, a, o)
      ensures (OwnedBy(s, a, o) && !(b <= a < b + SizeOf(c) && o == InList(c, n - 1)))
              || (o == InLive(b) && b <= a < b + SizeOf(c)) {}
  }

  lemma FreeMoves(s: State, b: nat, a: nat)
    requires s.page > 0 && Enabled(s, Free(b))
    ensures var c := s.live[b];
            Moves(s, DoFree(s, b), a, if b <= a < b + SizeOf(c) then Some(InLive(b)) else None,
                  if b <= a < b + SizeOf(c) then Some(InList(c, |s.lists[c]|)) else None)
  {
    var c, t := s.live[b], DoFree(s, b);
    forall o | OwnedBy(t, a, o)
      ensures (OwnedBy(s, a, o) && !(b <= a < b + SizeOf(c) && o == InLive(b)))
              || (o == InList(c, |s.lists[c]|) && b <= a < b + SizeOf(c)) {}
  }

  /** Only the threads or the big blocks change. */
  lemma MapMoves(s: State, t: nat, start: nat, a: nat)
    requires s.page > 0 && Enabled(s, Map(t, start))
    ensures var len := RoundPage(s.page, SizeOf(s.threads[t].c));
            Moves(s, Apply(s, Map(t, start)), a, None, if start <= a < start + len then Some(InRegion(t)) else None)
  {
    var u := Apply(s, Map(t, start));
    forall o | OwnedBy(u, a, o)
      ensures || OwnedBy(s, a, o)
              || (o == InRegion(t) && start <= a < start + RoundPage(s.page, SizeOf(s.threads[t].c))) {}
  }

  lemma BigMoves(s: State, b: nat, size: nat, a: nat)
    requires s.page > 0 && Enabled(s, BigAlloc(b, size)) && (b in s.big ==> s.big[b] > 0)
    ensures Moves(s, Apply(s, BigAlloc(b, size)), a, None, if b <= a < b + size then Some(InBig(b)) else None)
  {
    var u := Apply(s, BigAlloc(b, size));
    assert Unowned(s, b) && !OwnedBy(s, b, InBig(b));
    forall o | OwnedBy(u, a, o) ensures OwnedBy(s, a, o) || (o == InBig(b) && b <= a < b + size) {}
  }

  // ----- each transformation keeps the invariant -----

  lemma LivePut(live: map<nat, nat>, b: nat, c: nat)
    requires b !in live
    ensures LiveBytes(live[b := c]) == LiveBytes(live) + SizeOf(c)
  {
    assert LiveSizes(live[b := c]) == LiveSizes(live)[b := SizeOf(c)];
    SumInsert(LiveSizes(live), b, SizeOf(c));
  }

  lemma LiveDrop(live: map<nat, nat>, b: nat)
    requires b in live
    ensures LiveBytes(live - {b}) == LiveBytes(live) - SizeOf(live[b])
  {
    assert LiveSizes(live - {b}) == LiveSizes(live) - {b};
    SumTake(LiveSizes(live), b);
  }

  lemma {:induction false} ListPut(lists: seq<seq<nat>>, c: nat, xs: seq<nat>, n: nat)
    requires c < |lists| && n <= |lists|
    ensures ListBytes(lists[c := xs], n) + (if c < n then Blocks(|lists[c]|, SizeOf(c)) else 0)
         == ListBytes(lists, n) + (if c < n then Blocks(|xs|, SizeOf(c)) else 0)
  {
    if n > 0 { ListPut(lists, c, xs, n - 1); }
  }

  lemma SameLinks(s: State, t: State)
    requires Linked(s) && t.lists == s.lists && t.head == s.head && t.mem == s.mem
    ensures Linked(t)
  {
    forall c: nat, i: nat ensures LinkOk(t, c, i) { assert LinkOk(s, c, i); }
    forall c: nat ensures HeadOk(t, c) { assert HeadOk(s, c); }
  }

  lemma CutConserves(s: State, c: nat)
    requires Conserved(s) && Room(s, c) && s.next !in s.live
    ensures Conserved(Cut(s, c))
  {
    LivePut(s.live, s.next, c);
  }

  lemma CutAligns(s: State, c: nat)
    requires (forall o :: AlignOk(s, o)) && Room(s, c) && c < |s.lists|
    ensures forall o :: AlignOk(Cut(s, c), o)
  {
    var t := Cut(s, c);
    assert AlignOk(s, InRest);
    forall o ensures AlignOk(t, o) { assert AlignOk(s, o); }
  }

  lemma CutKeeps(s: State, c: nat)
    requires Inv(s) && Room(s, c) && c < KLIST_MAX
    ensures Inv(Cut(s, c))
  {
    var t := Cut(s, c);
    assert ByteOk(s, s.next);
    assert OwnedBy(s, s.next, InRest) && !OwnedBy(s, s.next, InLive(s.next));
    forall a: nat ensures ByteOk(t, a) {
      assert ByteOk(s, a);
      CutMoves(s, c, a);
    }
    CutConserves(s, c);
    SameLinks(s, t);
    CutAligns(s, c);
    forall i: nat ensures ClassOk(t, i) { assert ClassOk(s, i); }
  }

  /** After Grow the loop of kget_space is left at once. */
  lemma RoomAfterGrow(s: State, t: nat)
    requires s.page > 0 && t in s.threads && s.threads[t].Mapped? && s.next <= s.end
    ensures Room(GrowBy(s, t), s.threads[t].c)
  {
  }

  lemma GrowConserves(s: State, start: nat, len: nat)
    requires Conserved(s)
    ensures Conserved(Grow(s, start, len))
  {
  }

  lemma GrowWastes(s: State, start: nat, len: nat)
    requires WasteOk(s) && (s.next < s.end ==> s.next !in s.scrap)
    ensures WasteOk(Grow(s, start, len))
  {
    if s.next < s.end && start != s.end { SumInsert(s.scrap, s.next, s.end - s.next); }
  }

  lemma GrowAligns(s: State, t: nat)
    requires Shape(s) && (forall o :: AlignOk(s, o)) && t in s.threads && s.threads[t].Mapped?
    ensures forall o :: AlignOk(GrowBy(s, t), o)
  {
    var u := GrowBy(s, t);
    assert AlignOk(s, InRest) && AlignOk(s, InRegion(t));
    forall o ensures AlignOk(u, o) { assert AlignOk(s, o); }
  }

  lemma GrowKeeps(s: State, t: nat)
    requires Inv(s) && t in s.threads && s.threads[t].Mapped?
    ensures Inv(GrowBy(s, t))
  {
    var u := GrowBy(s, t);
    assert AlignOk(s, InScrap(s.next));
    forall a: nat ensures ByteOk(u, a) { GrowBytes(s, t, a); }
    assert ByteOk(s, s.next);
    if s.next < s.end { assert OwnedBy(s, s.next, InRest) && !OwnedBy(s, s.next, InScrap(s.next)); }
    GrowConserves(s, s.threads[t].start, RoundPage(s.page, SizeOf(s.threads[t].c)));
    GrowWastes(s, s.threads[t].start, RoundPage(s.page, SizeOf(s.threads[t].c)));
    SameLinks(s, u);
    GrowAligns(s, t);
    forall i: nat ensures ClassOk(u, i) { assert ClassOk(s, i); }
  }

  lemma PopLinks(s: State, c: nat)
    requires Shape(s) && Linked(s) && Enabled(s, Pop(c))
    ensures Linked(DoPop(s, c)) && s.head[c] == s.lists[c][|s.lists[c]| - 1]
  {
    var t, n := DoPop(s, c), |s.lists[c]|;
    assert HeadOk(s, c) && LinkOk(s, c, n - 1);
    forall d: nat, i: nat ensures LinkOk(t, d, i) { assert LinkOk(s, d, i); }
    forall d: nat ensures HeadOk(t, d) { assert HeadOk(s, d); }
  }

  lemma PopConserves(s: State, c: nat)
    requires Conserved(s) && c < |s.head| && c < |s.lists| && |s.lists[c]| > 0 && s.head[c] !in s.live
    ensures Conserved(DoPop(s, c))
  {
    LivePut(s.live, s.head[c], c);
    ListPut(s.lists, c, s.lists[c][..|s.lists[c]| - 1], |s.lists|);
  }

  lemma PopAligns(s: State, c: nat)
    requires (forall o :: AlignOk(s, o)) && c < |s.head| && c < |s.lists| && |s.lists[c]| > 0 && HeadOk(s, c)
    ensures forall o :: AlignOk(DoPop(s, c), o)
  {
    var t := DoPop(s, c);
    assert AlignOk(s, InList(c, |s.lists[c]| - 1));
    forall o ensures AlignOk(t, o) { assert AlignOk(s, o); }
  }

  lemma PopKeeps(s: State, c: nat)
    requires Inv(s) && Enabled(s, Pop(c))
    ensures Inv(DoPop(s, c))
  {
    var t, b, n := DoPop(s, c), s.head[c], |s.lists[c]|;
    PopLinks(s, c);
    assert HeadOk(s, c) && ByteOk(s, b);
    assert OwnedBy(s, b, InList(c, n - 1)) && !OwnedBy(s, b, InLive(b));
    forall a: nat ensures ByteOk(t, a) {
      assert ByteOk(s, a);
      PopMoves(s, c, a);
    }
    PopConserves(s, c);
    PopAligns(s, c);
    forall i: nat ensures ClassOk(t, i) { assert ClassOk(s, i); }
  }

  /** Links lie in free blocks, so writing to a live block changes none. */
  lemma StoreLinks(s: State, b: nat, x: nat, v: nat, c: nat, i: nat)
    requires s.page > 0 && ByteOk(s, x) && OwnedBy(s, x, InLive(b)) && LinkOk(s, c, i)
    ensures LinkOk(s.(mem := s.mem[x := v]), c, i)
  {
    assert !OwnedBy(s, x, InList(c, i));
  }

  lemma FreeLinks(s: State, b: nat)
    requires Shape(s) && Linked(s) && Enabled(s, Free(b)) && ByteOk(s, b)
    ensures Linked(DoFree(s, b))
  {
    var t, c := DoFree(s, b), s.live[b];
    assert HeadOk(s, c) && OwnedBy(s, b, InLive(b));
    forall d: nat, i: nat ensures LinkOk(t, d, i) {
      assert LinkOk(s, d, i);
      StoreLinks(s, b, b, s.head[c], d, i);
    }
    forall d: nat ensures HeadOk(t, d) { assert HeadOk(s, d); }
  }

  lemma FreeConserves(s: State, b: nat)
    requires Conserved(s) && b in s.live && s.live[b] < |s.lists| && s.live[b] < |s.head|
    ensures Conserved(DoFree(s, b))
  {
    var c := s.live[b];
    LiveDrop(s.live, b);
    ListPut(s.lists, c, s.lists[c] + [b], |s.lists|);
  }

  lemma FreeKeeps(s: State, b: nat)
    requires Inv(s) && Enabled(s, Free(b))
    ensures Inv(DoFree(s, b))
  {
    var t := DoFree(s, b);
    assert AlignOk(s, InLive(b)) && ByteOk(s, b);
    FreeLinks(s, b);
    forall a: nat ensures ByteOk(t, a) {
      assert ByteOk(s, a);
      FreeMoves(s, b, a);
    }
    FreeConserves(s, b);
    forall o ensures AlignOk(t, o) { assert AlignOk(s, o); }
    forall i: nat ensures ClassOk(t, i) { assert ClassOk(s, i); }
  }

  /** Steps that change only what threads have mapped, or big blocks. */
  lemma AsideKeeps(s: State, t: State)
    requires Inv(s) && t == s.(threads := t.threads, big := t.big) && (forall a: nat :: ByteOk(t, a))
    requires forall i: nat :: ClassOk(t, i)
    requires forall o :: AlignOk(t, o)
    ensures Inv(t)
  {
    SameLinks(s, t);
  }

  lemma MapKeeps(s: State, t: nat, start: nat)
    requires Inv(s) && Enabled(s, Map(t, start))
    ensures Inv(Apply(s, Map(t, start)))
  {
    var u := Apply(s, Map(t, start));
    forall a: nat ensures ByteOk(u, a) {
      assert ByteOk(s, a);
      MapMoves(s, t, start, a);
    }
    forall i: nat ensures ClassOk(u, i) { assert ClassOk(s, i) && ClassOk(s, t); }
    forall o ensures AlignOk(u, o) { assert AlignOk(s, o); }
    AsideKeeps(s, u);
  }

  /** Forgetting a thread or its region, or a big block. */
  lemma ForgetKeeps(s: State, u: State)
    requires Inv(s) && u == s.(threads := u.threads, big := u.big)
    requires forall t: nat :: t in u.threads ==>
             t in s.threads && (u.threads[t] == s.threads[t] || SameRegion(s, t, u.threads[t]))
    requires forall b: nat :: b in u.big ==> b in s.big && u.big[b] == s.big[b]
    ensures Inv(u)
  {
    forall a: nat ensures ByteOk(u, a) {
      assert ByteOk(s, a);
      forall o | OwnedBy(u, a, o) ensures OwnedBy(s, a, o) {}
    }
    forall i: nat ensures ClassOk(u, i) { assert ClassOk(s, i); }
    forall o ensures AlignOk(u, o) { assert AlignOk(s, o); }
    AsideKeeps(s, u);
  }

  predicate SameRegion(s: State, t: nat, p: Pc)
    requires s.page > 0
  {
    t in s.threads && s.threads[t].Mapped? && p == Unmapping(s.threads[t].start, RegionLen(s.page, s.threads[t]))
  }

  lemma EnterKeeps(s: State, t: nat, c: nat)
    requires Inv(s) && Enabled(s, Enter(t, c))
    ensures Inv(Apply(s, Enter(t, c)))
  {
    if Room(s, c) {
      CutKeeps(s, c);
    } else {
      var u := Apply(s, Enter(t, c));
      forall a: nat ensures ByteOk(u, a) {
        assert ByteOk(s, a);
        forall o | OwnedBy(u, a, o) ensures OwnedBy(s, a, o) {}
      }
      forall i: nat ensures ClassOk(u, i) { assert ClassOk(s, i); }
      forall o ensures AlignOk(u, o) { assert AlignOk(s, o); }
      AsideKeeps(s, u);
    }
  }

  lemma RelockKeeps(s: State, t: nat)
    requires Inv(s) && Enabled(s, Relock(t))
    ensures Inv(DoRelock(s, t))
  {
    var c := s.threads[t].c;
    assert ClassOk(s, t);
    if Room(s, c) {
      CutKeeps(s, c);
      ForgetKeeps(Cut(s, c), DoRelock(s, t));
    } else {
      GrowKeeps(s, t);
      RoomAfterGrow(s, t);
      CutKeeps(GrowBy(s, t), c);
      assert DoRelock(s, t) == Cut(GrowBy(s, t), c);
    }
  }

  lemma BigKeeps(s: State, b: nat, size: nat)
    requires Inv(s) && Enabled(s, BigAlloc(b, size))
    ensures Inv(Apply(s, BigAlloc(b, size)))
  {
    var u := Apply(s, BigAlloc(b, size));
    assert AlignOk(s, InBig(b));
    forall a: nat ensures ByteOk(u, a) {
      assert ByteOk(s, a);
      BigMoves(s, b, size, a);
    }
    forall i: nat ensures ClassOk(u, i) { assert ClassOk(s, i); }
    forall o ensures AlignOk(u, o) { assert AlignOk(s, o); }
    AsideKeeps(s, u);
  }

  lemma StoreKeeps(s: State, b: nat, x: nat, v: nat)
    requires Inv(s) && Enabled(s, Store(b, x, v))
    ensures Inv(Apply(s, Store(b, x, v)))
  {
    var t := Apply(s, Store(b, x, v));
    assert ByteOk(s, x) && OwnedBy(s, x, InLive(b));
    forall a: nat ensures ByteOk(t, a) {
      assert ByteOk(s, a);
      forall o | OwnedBy(t, a, o) ensures OwnedBy(s, a, o) {}
    }
    forall c: nat, i: nat ensures LinkOk(t, c, i) {
      assert LinkOk(s, c, i);
      StoreLinks(s, b, x, v, c, i);
    }
    forall c: nat ensures HeadOk(t, c) { assert HeadOk(s, c); }
    forall o ensures AlignOk(t, o) { assert AlignOk(s, o); }
    forall i: nat ensures ClassOk(t, i) { assert ClassOk(s, i); }
  }

  lemma StepKeeps(s: State, a: Action)
    requires Inv(s) && Enabled(s, a)
    ensures Inv(Apply(s, a))
  {
    match a
    case Pop(c) => PopKeeps(s, c);
    case Enter(t, c) => EnterKeeps(s, t, c);
    case Map(t, start) => MapKeeps(s, t, start);
    case MapFails(t) => ForgetKeeps(s, Apply(s, a));
    case Relock(t) => RelockKeeps(s, t);
    case Unmap(t) => ForgetKeeps(s, Apply(s, a));
    case Free(b) => FreeKeeps(s, b);
    case BigAlloc(b, size) => BigKeeps(s, b, size);
    case BigFree(b) => ForgetKeeps(s, Apply(s, a));
    case Store(b, x, v) => StoreKeeps(s, b, x, v);
  }

  // ----- every run -----

  ghost predicate IsRun(tr: seq<State>, acts: seq<Action>) {
    && |tr| == |acts| + 1 && Init(tr[0])
    && (forall i | 0 <= i <= |acts| :: tr[i].page > 0)
    && forall i | 0 <= i < |acts| :: Enabled(tr[i], acts[i]) && tr[i + 1] == Apply(tr[i], acts[i])
  }

  lemma {:induction false} NoListBytes(lists: seq<seq<nat>>, n: nat)
    requires n <= |lists| && forall c | 0 <= c < |lists| :: lists[c] == []
    ensures ListBytes(lists, n) == 0
  {
    if n > 0 { NoListBytes(lists, n - 1); }
  }

  lemma InitOk(s: State)
    requires Init(s)
    ensures Inv(s)
  {
    NoListBytes(s.lists, KLIST_MAX);
    assert LiveSizes(s.live) == map[];
    forall a: nat ensures ByteOk(s, a) { assert Unowned(s, a); }
  }

  lemma {:induction false} RunKeeps(tr: seq<State>, acts: seq<Action>, n: nat)
    requires IsRun(tr, acts) && n <= |acts|
    ensures Inv(tr[n])
  {
    if n == 0 {
      InitOk(tr[0]);
    } else {
      RunKeeps(tr, acts, n - 1);
      StepKeeps(tr[n - 1], acts[n - 1]);
    }
  }

  /** The n bytes from a on and the m bytes from b on have a byte in common. */
  predicate Overlap(a: int, n: int, b: int, m: int) { n > 0 && m > 0 && a < b + m && b < a + n }

  /** In every reachable state a live block overlaps no other live block, no free block, and
      no unused space. */
  lemma LiveBlocksSafe(tr: seq<State>, acts: seq<Action>, n: nat, b: nat, b': nat, c: nat, i: nat)
    requires IsRun(tr, acts) && n <= |acts| && b in tr[n].live
    ensures var s := tr[n]; var size := SizeOf(s.live[b]);
            && (b' in s.live && b' != b ==> !Overlap(b, size, b', SizeOf(s.live[b'])))
            && (b' in s.big ==> !Overlap(b, size, b', s.big[b']))
            && (c < |s.lists| && i < |s.lists[c]| ==> !Overlap(b, size, s.lists[c][i], SizeOf(c)))
            && !Overlap(b, size, s.next, s.end - s.next)
  {
    RunKeeps(tr, acts, n);
    var s := tr[n];
    assert AlignOk(s, InRest);
    NoOverlap(s, InLive(b), InLive(b'), b, SizeOf(s.live[b]), b', if b' in s.live then SizeOf(s.live[b']) else 0);
    NoOverlap(s, InLive(b), InBig(b'), b, SizeOf(s.live[b]), b', if b' in s.big then s.big[b'] else 0);
    if c < |s.lists| && i < |s.lists[c]| {
      NoOverlap(s, InLive(b), InList(c, i), b, SizeOf(s.live[b]), s.lists[c][i], SizeOf(c));
    }
    NoOverlap(s, InLive(b), InRest, b, SizeOf(s.live[b]), s.next, s.end - s.next);
  }

  /** Two different owners of ranges of bytes have disjoint ranges. */
  // ----- what the actions so far say -----

  /** The block in use at address b, and the vm_allocate block there. */
  function InUse(s: State, b: nat): Option<nat> { if b in s.live then Some(s.live[b]) else None }

  function BigAt(s: State, b: nat): Option<nat> { if b in s.big then Some(s.big[b]) else None }

  /** What an action says about the vm_allocate block at b: it is allocated or freed. */
  function BigSays(a: Action, b: nat): Option<Option<nat>> {
    match a
    case BigAlloc(x, size) => if x == b then Some(Some(size)) else None
    case BigFree(x) => if x == b then Some(None) else None
    case _ => None
  }

  /** What an action says about thread t being inside kget_space without the lock: it goes there
      if it finds no room, comes back when vm_map fails or vm_deallocate is done, and stays after
      locking again only to unmap what others have made unnecessary. */
  ghost function AwaySays(s: State, a: Action, t: nat): Option<bool>
    requires s.page > 0 && Enabled(s, a)
  {
    match a
    case Enter(u, c) => if u == t then Some(!Room(s, c)) else None
    case MapFails(u) => if u == t then Some(false) else None
    case Relock(u) => if u == t then Some(Room(s, s.threads[t].c)) else None
    case Unmap(u) => if u == t then Some(false) else None
    case _ => None
  }

  /** What an action says about the block at b: it is handed out - from the head of a free list,
      from the bump area or from a new region - or freed. */
  ghost function UseSays(s: State, a: Action, b: nat): Option<Option<nat>>
    requires s.page > 0 && Enabled(s, a)
  {
    match a
    case Pop(c) => if b == s.head[c] then Some(Some(c)) else None
    case Enter(_, c) => if Room(s, c) && b == s.next then Some(Some(c)) else None
    case Relock(t) =>
      var c, start := s.threads[t].c, s.threads[t].start;
      if b == (if Room(s, c) || start == s.end then s.next else start) then Some(Some(c)) else None
    case Free(x) => if x == b then Some(None) else None
    case _ => None
  }

  lemma BigSaysTrue(s: State, a: Action, b: nat)
    requires s.page > 0 && Enabled(s, a)
    ensures BigAt(Apply(s, a), b) == if BigSays(a, b).Some? then BigSays(a, b).value else BigAt(s, b)
  {
  }

  lemma UseSaysTrue(s: State, a: Action, b: nat)
    requires s.page > 0 && Enabled(s, a)
    ensures InUse(Apply(s, a), b) == if UseSays(s, a, b).Some? then UseSays(s, a, b).value else InUse(s, b)
  {
  }

  lemma AwaySaysTrue(s: State, a: Action, t: nat)
    requires s.page > 0 && Enabled(s, a)
    ensures t in Apply(s, a).threads <==> if AwaySays(s, a, t).Some? then AwaySays(s, a, t).value else t in s.threads
  {
  }

  /** The last thing the first n actions said about the block and the vm_allocate block at b and
      about thread t; at the start nothing is allocated and no thread is there. */
  ghost function Told(tr: seq<State>, acts: seq<Action>, n: nat, b: nat, t: nat): (Option<nat>, Option<nat>, bool)
    requires IsRun(tr, acts) && n <= |acts|
  {
    if n == 0 then (None, None, false)
    else
      var s, a, before := tr[n - 1], acts[n - 1], Told(tr, acts, n - 1, b, t);
      (if UseSays(s, a, b).Some? then UseSays(s, a, b).value else before.0,
       if BigSays(a, b).Some? then BigSays(a, b).value else before.1,
       if AwaySays(s, a, t).Some? then AwaySays(s, a, t).value else before.2)
  }

  /** In every run, the blocks in use are those handed out and not freed since, and the threads
      in kget_space are those that went there and have not come back. */
  lemma {:induction false} AllocatedIs(tr: seq<State>, acts: seq<Action>, n: nat, b: nat, t: nat)
    requires IsRun(tr, acts) && n <= |acts|
    ensures Told(tr, acts, n, b, t) == (InUse(tr[n], b), BigAt(tr[n], b), t in tr[n].threads)
  {
    if n > 0 {
      AllocatedIs(tr, acts, n - 1, b, t);
      UseSaysTrue(tr[n - 1], acts[n - 1], b);
      BigSaysTrue(tr[n - 1], acts[n - 1], b);
      AwaySaysTrue(tr[n - 1], acts[n - 1], t);
    }
  }

  lemma NoOverlap(s: State, o: Owner, o': Owner, a: nat, n: nat, b: nat, m: nat)
    requires Inv(s) && forall x: nat :: a <= x < a + n ==> OwnedBy(s, x, o)
    requires forall x: nat :: b <= x < b + m ==> OwnedBy(s, x, o')
    ensures o != o' ==> !Overlap(a, n, b, m)
  {
    var x := if a < b then b else a;
    assert ByteOk(s, x);
    assert (x < a + n ==> OwnedBy(s, x, o)) && (x < b + m ==> OwnedBy(s, x, o'));
  }

  /** Free lists are acyclic and hold one size class: no block is on two lists or twice on one,
      and following the links from the head visits the blocks of the list and ends at 0. */
  lemma FreeListsSound(tr: seq<State>, acts: seq<Action>, n: nat, c: nat, i: nat, d: nat, j: nat)
    requires IsRun(tr, acts) && n <= |acts|
    requires var s := tr[n]; c < |s.lists| && i < |s.lists[c]| && d < |s.lists| && j < |s.lists[d]|
    ensures var s := tr[n];
            && (s.lists[c][i] == s.lists[d][j] ==> c == d && i == j)
            && s.lists[c][i] % 4 == 0 && s.lists[c][i] !in s.live
            && c < |s.head| && s.head[c] == s.lists[c][|s.lists[c]| - 1]
            && Word(s.mem, s.lists[c][i]) == (if i == 0 then 0 else s.lists[c][i - 1])
  {
    RunKeeps(tr, acts, n);
    var s, b := tr[n], tr[n].lists[c][i];
    assert ByteOk(s, b) && LinkOk(s, c, i) && HeadOk(s, c) && AlignOk(s, InList(c, i));
    assert OwnedBy(s, b, InList(c, i));
    assert b == s.lists[d][j] ==> OwnedBy(s, b, InList(d, j));
    assert b in s.live ==> OwnedBy(s, b, InLive(b));
  }

  /** Space is conserved over every run. */
  lemma SpaceConserved(tr: seq<State>, acts: seq<Action>, n: nat)
    requires IsRun(tr, acts) && n <= |acts|
    ensures var s := tr[n]; s.added == LiveBytes(s.live) + ListBytes(s.lists, |s.lists|) + s.wasted + (s.end - s.next)
  {
    RunKeeps(tr, acts, n);
  }

  // ----- ports made from addresses -----

  function VsToPort(vs: nat): nat { vs + 1 }

  /** port & ~3 */
  function PortToVs(port: nat): nat { port - port % 4 }

  predicate PortIsVs(port: nat) { port % 4 == 1 }

  /** The port alias of a block can be turned back into its address, because kalloc returns
      only multiples of 4; for any other address it cannot. */
  lemma PortRoundTrip(tr: seq<State>, acts: seq<Action>, n: nat, b: nat, x: nat)
    requires IsRun(tr, acts) && n <= |acts| && b in tr[n].live
    ensures PortIsVs(VsToPort(b)) && PortToVs(VsToPort(b)) == b
    ensures PortToVs(VsToPort(x)) == x <==> x % 4 == 0
    ensures PortIsVs(x) ==> VsToPort(PortToVs(x)) == x
  {
    RunKeeps(tr, acts, n);
    assert AlignOk(tr[n], InLive(b));
  }
}
