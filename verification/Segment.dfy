/** Paging segments: the byte bitmap of used clusters, its search hint, and the free count
    that is lowered (a reservation) before a bit is taken. */
module Segments {

  // ----- bits of a byte -----

  /** 1 << i for i < NBBY. */
  function Mask(i: nat): bv8
    requires i < 8
  {
    if i == 0 then 0x01 else if i == 1 then 0x02 else if i == 2 then 0x04 else if i == 3 then 0x08
    else if i == 4 then 0x10 else if i == 5 then 0x20 else if i == 6 then 0x40 else 0x80
  }

  predicate BitSet(b: bv8, i: nat)
    requires i < 8
  {
    b & Mask(i) != 0
  }

  function SetBit(b: bv8, i: nat): (r: bv8)
    requires i < 8
    ensures forall j: nat | j < 8 :: BitSet(r, j) <==> j == i || BitSet(b, j)
  {
    b | Mask(i)
  }

  function ClrBit(b: bv8, i: nat): (r: bv8)
    requires i < 8
    ensures forall j: nat | j < 8 :: BitSet(r, j) <==> j != i && BitSet(b, j)
  {
    b & !Mask(i)
  }

  /** BYTEMASK means that every bit is set. */
  lemma FullByte(b: bv8)
    ensures b == 0xff <==> forall i: nat | i < 8 :: BitSet(b, i)
  {
    if forall i: nat | i < 8 :: BitSet(b, i) {
      assert BitSet(b, 0) && BitSet(b, 1) && BitSet(b, 2) && BitSet(b, 3);
      assert BitSet(b, 4) && BitSet(b, 5) && BitSet(b, 6) && BitSet(b, 7);
    }
  }

  // ----- the segment -----

  /** 1 << n. */
  function Pow2(n: nat): (r: nat)
    ensures r > 0
  {
    if n == 0 then 1 else 2 * Pow2(n - 1)
  }

  /** x >> n. */
  function Shr(x: nat, n: nat): nat {
    if n == 0 then x else Shr(x / 2, n - 1)
  }

  datatype Segment = Segment(
    device: nat, offset: nat, recnum: nat, recordShift: nat,  // place on the device
    pgnum: nat, clshift: nat, ncls: nat,
    clcount: nat,       // ps_clcount: free clusters not yet reserved
    hint: nat,          // ps_hint: byte where the search starts
    bmap: seq<bv8>,     // ps_bmap
    priority: nat, goingAway: bool)

  predicate IsSet(bmap: seq<bv8>, c: nat) { c / 8 < |bmap| && BitSet(bmap[c / 8], c % 8) }

  function PutBit(bmap: seq<bv8>, c: nat): (r: seq<bv8>)
    requires c / 8 < |bmap|
    ensures |r| == |bmap|
    ensures forall d: nat :: IsSet(r, d) <==> d == c || IsSet(bmap, d)
  {
    bmap[c / 8 := SetBit(bmap[c / 8], c % 8)]
  }

  function DropBit(bmap: seq<bv8>, c: nat): (r: seq<bv8>)
    requires c / 8 < |bmap|
    ensures |r| == |bmap|
    ensures forall d: nat :: IsSet(r, d) <==> d != c && IsSet(bmap, d)
  {
    bmap[c / 8 := ClrBit(bmap[c / 8], c % 8)]
  }

  /** Clusters whose bit is clear.  Bits at ncls and above do not count: the bitmap is not
      cleared beyond the last cluster. */
  ghost function Clear(g: Segment): (r: set<nat>)
    ensures forall c: nat :: c in r <==> c < g.ncls && !IsSet(g.bmap, c)
  {
    set c: nat | c < g.ncls && !IsSet(g.bmap, c)
  }

  /** The hint is sound: every byte below it is full. */
  ghost predicate HintOk(g: Segment) { g.hint <= |g.bmap| && forall c: nat | c < 8 * g.hint :: IsSet(g.bmap, c) }

  ghost predicate WellFormed(g: Segment) { |g.bmap| == (g.ncls + 7) / 8 && HintOk(g) }

  /** Free bits = unreserved free clusters + reservations whose bit has not been taken yet. */
  ghost predicate Valid(g: Segment, reserved: nat) { WellFormed(g) && |Clear(g)| == g.clcount + reserved }

  /** c is the cluster a search from zero would find. */
  ghost predicate IsLowestClear(g: Segment, c: nat) {
    c < g.ncls && !IsSet(g.bmap, c) && forall d: nat | d < c :: IsSet(g.bmap, d)
  }

  /** default_pager_add_segment: the first ncls bits are cleared one by one. */
  method ClearBitmap(garbage: seq<bv8>, ncls: nat) returns (bmap: seq<bv8>)
    requires |garbage| == (ncls + 7) / 8
    ensures |bmap| == |garbage|
    ensures forall c: nat :: IsSet(bmap, c) <==> c >= ncls && IsSet(garbage, c)
  {
    bmap := garbage;
    for i := 0 to ncls
      invariant |bmap| == |garbage|
      invariant forall c: nat :: IsSet(bmap, c) <==> c >= i && IsSet(garbage, c)
    {
      bmap := DropBit(bmap, i);
    }
  }

  // ----- the three critical sections -----

  /** ps_select_segment takes a reservation. */
  function Reserve(g: Segment): Segment
    requires g.clcount > 0
  {
    g.(clcount := g.clcount - 1)
  }

  /** ps_allocate_cluster takes the bit of cluster c. */
  function Commit(g: Segment, c: nat): Segment
    requires c / 8 < |g.bmap|
  {
    g.(hint := c / 8, bmap := PutBit(g.bmap, c))
  }

  /** ps_deallocate_cluster. */
  function Release(g: Segment, c: nat): Segment
    requires c / 8 < |g.bmap|
  {
    g.(bmap := DropBit(g.bmap, c), clcount := g.clcount + 1, hint := if c / 8 < g.hint then c / 8 else g.hint)
  }

  lemma {:induction false} LowestClear(g: Segment, c: nat) returns (low: nat)
    requires c < g.ncls && !IsSet(g.bmap, c)
    ensures IsLowestClear(g, low)
  {
    if d: nat :| d < c && !IsSet(g.bmap, d) { low := LowestClear(g, d); } else { low := c; }
  }

  /** A reservation guarantees that there is a free cluster to find. */
  lemma ReservedIsThere(g: Segment, reserved: nat) returns (c: nat)
    requires Valid(g, reserved) && reserved > 0
    ensures IsLowestClear(g, c)
  {
    assert Clear(g) != {};
    var d :| d in Clear(g);
    c := LowestClear(g, d);
  }

  /** The search loop of ps_allocate_cluster, started at the hint, finds the lowest clear
      cluster of the whole bitmap, and its number is below ncls although the last byte may
      have undefined tail bits. */
  method FindCluster(g: Segment, ghost reserved: nat) returns (cluster: nat)
    requires Valid(g, reserved) && reserved > 0
    ensures IsLowestClear(g, cluster)
  {
    ghost var low := ReservedIsThere(g, reserved);
    var byteNum, bitNum := g.hint, 0;
    while byteNum < (g.ncls + 7) / 8 && g.bmap[byteNum] == 0xff
      invariant g.hint <= byteNum <= |g.bmap|
      invariant forall c: nat | c < 8 * byteNum :: IsSet(g.bmap, c)
    {
      FullByte(g.bmap[byteNum]);
      forall c: nat | c < 8 * (byteNum + 1) ensures IsSet(g.bmap, c) {
        if c >= 8 * byteNum { assert c / 8 == byteNum; }
      }
      byteNum := byteNum + 1;
    }
    assert low / 8 >= byteNum;
    FullByte(g.bmap[byteNum]);
    while bitNum < 8 && BitSet(g.bmap[byteNum], bitNum)
      invariant bitNum <= 8
      invariant forall i: nat | i < bitNum :: BitSet(g.bmap[byteNum], i)
    {
      bitNum := bitNum + 1;
    }
    cluster := byteNum * 8 + bitNum;
    forall d: nat | d < cluster ensures IsSet(g.bmap, d) {
      if d >= 8 * byteNum { assert d / 8 == byteNum && d % 8 == d - 8 * byteNum; }
    }
  }

  // ----- every interleaving -----

  datatype Action = TakeReservation | TakeBit(c: nat) | GiveBack(c: nat)

  /** A segment together with the number of threads between reserving and taking the bit. */
  datatype State = State(g: Segment, reserved: nat)

  ghost predicate Enabled(s: State, a: Action) {
    match a
    case TakeReservation => s.g.clcount > 0
    case TakeBit(c) => s.reserved > 0 && IsLowestClear(s.g, c) && c / 8 < |s.g.bmap|
    case GiveBack(c) => c < s.g.ncls && IsSet(s.g.bmap, c)
  }

  ghost function Apply(s: State, a: Action): State
    requires Enabled(s, a)
  {
    match a
    case TakeReservation => State(Reserve(s.g), s.reserved + 1)
    case TakeBit(c) => State(Commit(s.g, c), s.reserved - 1)
    case GiveBack(c) => State(Release(s.g, c), s.reserved)
  }

  lemma CommitKeeps(g: Segment, reserved: nat, c: nat)
    requires Valid(g, reserved) && reserved > 0 && IsLowestClear(g, c)
    ensures c / 8 < |g.bmap| && Valid(Commit(g, c), reserved - 1)
  {
    assert Clear(Commit(g, c)) == Clear(g) - {c};
  }

  lemma ReleaseKeeps(g: Segment, reserved: nat, c: nat)
    requires Valid(g, reserved) && c < g.ncls && IsSet(g.bmap, c)
    ensures Valid(Release(g, c), reserved)
  {
    assert Clear(Release(g, c)) == Clear(g) + {c};
  }

  /** The hint goes as far as it can: after taking the lowest clear cluster no larger hint would
      have been sound before, and after giving a cluster back no larger one, up to the old hint,
      is sound. */
  lemma HintLargest(g: Segment, c: nat, h: nat)
    requires HintOk(g) && c / 8 < |g.bmap|
    ensures IsLowestClear(g, c) ==>
              HintOk(g.(hint := Commit(g, c).hint)) && (HintOk(g.(hint := h)) ==> h <= Commit(g, c).hint)
    ensures HintOk(Release(g, c)) && (h <= g.hint && HintOk(Release(g, c).(hint := h)) ==> h <= Release(g, c).hint)
  {
    assert !IsSet(DropBit(g.bmap, c), c) && c < 8 * (c / 8 + 1);
  }

  lemma StepKeeps(s: State, a: Action)
    requires Valid(s.g, s.reserved) && Enabled(s, a)
    ensures Valid(Apply(s, a).g, Apply(s, a).reserved)
  {
    match a
    case TakeReservation => assert Clear(Reserve(s.g)) == Clear(s.g);
    case TakeBit(c) => CommitKeeps(s.g, s.reserved, c);
    case GiveBack(c) => ReleaseKeeps(s.g, s.reserved, c);
  }

  ghost predicate IsRun(tr: seq<State>, acts: seq<Action>) {
    && |tr| == |acts| + 1
    && forall i | 0 <= i < |acts| :: Enabled(tr[i], acts[i]) && tr[i + 1] == Apply(tr[i], acts[i])
  }

  /** Reserve then commit, in every interleaving of allocations and frees: the free count plus
      the outstanding reservations is the number of clear bits, every byte below the hint is
      full, and whoever holds a reservation will find a free cluster. */
  lemma {:induction false} ReserveThenCommit(tr: seq<State>, acts: seq<Action>)
    requires IsRun(tr, acts) && Valid(tr[0].g, tr[0].reserved)
    ensures Valid(tr[|acts|].g, tr[|acts|].reserved)
    ensures tr[|acts|].reserved > 0 ==> exists c :: Enabled(tr[|acts|], TakeBit(c))
    decreases |acts|
  {
    var n := |acts|;
    if n > 0 {
      ReserveThenCommit(tr[..n], acts[..n - 1]);
      StepKeeps(tr[n - 1], acts[n - 1]);
    }
    if tr[n].reserved > 0 {
      var c := ReservedIsThere(tr[n].g, tr[n].reserved);
      assert Enabled(tr[n], TakeBit(c));
    }
  }
}
