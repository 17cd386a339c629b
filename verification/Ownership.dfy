/** Who owns a cluster, over every run of any number of memory objects, with write errors.

    Each action is one critical section: a segment lock held around the free count or the
    bitmap, or a map lock held around an entry.  ps_clunmap and ps_vstruct_dealloc give a
    cluster back before they clear its entry, so an entry can be stale: it still names a
    cluster that is no longer its own.  A cluster whose bit is set has exactly one owner: a
    map entry that is not stale, a thread that has taken the bit and not yet stored it in an
    entry, a thread about to clear the bit, or nobody at all (cluster 0 after a failed write). */
module Ownership {
  import opened Options
  import opened Sums
  import opened Segments
  import opened ClusterMaps

  datatype World = World(
    objs: map<nat, seq<Entry>>,  // the cluster map of every live object
    segs: seq<Segment>,
    reserved: seq<nat>,          // per segment: threads between ps_select_segment and taking a bit
    held: set<Loc>,              // bit taken, not yet stored in an entry
    freeing: set<Loc>,           // no longer in an entry, bit not yet cleared
    lost: set<Loc>,              // dropped by a failed write without giving the bit back
    lock: map<nat, Phase>,       // maps whose lock is held in the middle of giving clusters back
    writes: map<nat, Write>,     // writes that have not been completed
    back: set<nat>,              // those of them that failed and whose pages the kernel has again
    committed: int)              // clusters_committed

  /** Where ps_clunmap or ps_vstruct_dealloc stands. */
  datatype Phase =
    | Emptied(k: nat)   // ps_clunmap has cleared the last allocated bit of entry k
    | Released(k: nat)  // and has given its cluster back, but not yet cleared the entry
    | Dying(k: nat)     // ps_vstruct_dealloc has dealt with the entries below k

  /** A write of some pages of one entry, to the cluster the entry had when ps_clmap looked.
      There is no cluster if ps_clmap found no space, or if an earlier chunk failed. */
  datatype Write = Write(id: nat, k: nat, loc: Option<Loc>, bits: set<nat>)

  datatype Owner = Slot(id: nat, k: nat) | Held | Freeing | Lost

  datatype Action =
    | Reserve(j: nat)                                      // ps_select_segment
    | Take(j: nat, c: nat)                                 // ps_allocate_cluster, the bitmap part
    | Install(v: nat, id: nat, k: nat, loc: Loc, bits: set<nat>) // ps_clmap CL_ALLOC on a clear entry
    | Extra(v: nat, id: nat, k: nat, bits: set<nat>)       // ps_clmap CL_ALLOC on an entry with a cluster
    | Unplaced(v: nat, id: nat, k: nat, bits: set<nat>)    // pages that go to no cluster
    | Complete(v: nat)                                     // write v completed
    | SendBack(v: nat)                                     // write v failed: the kernel gets its pages back
    | Fail(v: nat, error: nat)                             // and then the failure is recorded
    | Unmap(id: nat, k: nat, bits: set<nat>)               // ps_clunmap of pages of one cluster
    | FreeEmptied(id: nat)                                 // ps_clunmap: ps_deallocate_cluster
    | WipeEntry(id: nat)                                   // ps_clunmap: VSM_CLR
    | ReturnBit(loc: Loc)                                  // ps_deallocate_cluster after a failed write
    | Create(id: nat, size: nat)                           // ps_vstruct_create
    | Grow(id: nat, size: nat)                             // ps_map_extend
    | BeginDestroy(id: nat)                                // ps_vstruct_dealloc takes the map lock
    | DestroyNext(id: nat)                                 // ps_dealloc_vsmap, one entry
    | EndDestroy(id: nat)                                  // the map is freed

  function Ent(w: World, id: nat, k: nat): Entry { if id in w.objs then At(w.objs[id], k) else ClearEntry }

  predicate HasEnt(w: World, id: nat, k: nat) { id in w.objs && k < |w.objs[id]| }

  predicate Bit(w: World, l: Loc) {
    l.ps < |w.segs| && l.cloff < w.segs[l.ps].ncls && IsSet(w.segs[l.ps].bmap, l.cloff)
  }

  function PutEnt(w: World, id: nat, k: nat, e: Entry): World
    requires HasEnt(w, id, k)
  {
    w.(objs := w.objs[id := w.objs[id][k := e]])
  }

  function PutSeg(w: World, j: nat, g: Segment): World
    requires j < |w.segs|
  {
    w.(segs := w.segs[j := g])
  }

  function ClearBit(w: World, l: Loc): World {
    if Bit(w, l) then PutSeg(w, l.ps, Release(w.segs[l.ps], l.cloff)) else w
  }

  /** This entry names a cluster that has been given back already. */
  predicate Stale(w: World, id: nat, k: nat) {
    id in w.lock && match w.lock[id]
                    case Emptied(j) => false
                    case Released(j) => k == j
                    case Dying(j) => k < j
  }

  /** This entry owns the cluster it names. */
  predicate Current(w: World, id: nat, k: nat) { Live(Ent(w, id, k)) && !Stale(w, id, k) }

  /** The entry of write v when it is completed. */
  function EntOf(w: World, v: nat): Entry
    requires v in w.writes
  {
    Ent(w, w.writes[v].id, w.writes[v].k)
  }

  /** Completing write v sets valid bits. */
  predicate Completes(w: World, v: nat)
    requires v in w.writes
  {
    HasEnt(w, w.writes[v].id, w.writes[v].k) && Live(EntOf(w, v))
  }

  /** A failure of write v puts its entry in error. */
  predicate Fails(w: World, v: nat)
    requires v in w.writes
  {
    HasEnt(w, w.writes[v].id, w.writes[v].k) && !IsErr(EntOf(w, v))
  }

  ghost predicate Enabled(w: World, a: Action) {
    match a
    case Reserve(j) => j < |w.segs| && j < |w.reserved| && w.segs[j].clcount > 0 && !w.segs[j].goingAway
    case Take(j, c) =>
      j < |w.segs| && j < |w.reserved| && w.reserved[j] > 0 && IsLowestClear(w.segs[j], c) && c / 8 < |w.segs[j].bmap|
    case Install(v, id, k, loc, bits) =>
      && HasEnt(w, id, k) && id !in w.lock && IsClr(Ent(w, id, k)) && loc in w.held && bits != {}
      && v !in w.writes
    case Extra(v, id, k, bits) => HasEnt(w, id, k) && id !in w.lock && Live(Ent(w, id, k)) && v !in w.writes
    case Unplaced(v, id, k, bits) => id in w.objs && v !in w.writes
    case Complete(v) =>
      && v in w.writes && v !in w.back && w.writes[v].id !in w.lock && w.writes[v].loc.Some?
      && (Completes(w, v) ==> w.writes[v].bits <= EntOf(w, v).alloc)
    case SendBack(v) => v in w.writes && v !in w.back
    case Fail(v, error) => v in w.writes && v in w.back && w.writes[v].id !in w.lock && error != 0
    case Unmap(id, k, bits) => HasEnt(w, id, k) && id !in w.lock && !IsErr(Ent(w, id, k))
    case FreeEmptied(id) => id in w.lock && w.lock[id].Emptied?
    case WipeEntry(id) => id in w.lock && w.lock[id].Released? && HasEnt(w, id, w.lock[id].k)
    case ReturnBit(loc) => loc in w.freeing
    case Create(id, size) => id !in w.objs && size > 0
    case Grow(id, size) => id in w.objs && id !in w.lock
    case BeginDestroy(id) => id in w.objs && id !in w.lock
    case DestroyNext(id) => id in w.objs && id in w.lock && w.lock[id].Dying? && w.lock[id].k < |w.objs[id]|
    case EndDestroy(id) => id in w.objs && id in w.lock && w.lock[id].Dying? && w.lock[id].k >= |w.objs[id]|
  }

  ghost function Apply(w: World, a: Action): World
    requires Enabled(w, a)
  {
    match a
    case Reserve(j) => PutSeg(w, j, Segments.Reserve(w.segs[j])).(reserved := w.reserved[j := w.reserved[j] + 1])
    case Take(j, c) =>
      PutSeg(w, j, Commit(w.segs[j], c)).(reserved := w.reserved[j := w.reserved[j] - 1], held := w.held + {Loc(j, c)})
    case Install(v, id, k, loc, bits) =>
      PutEnt(w, id, k, Allocated(Ent(w, id, k), loc, bits))
      .(held := w.held - {loc}, writes := w.writes[v := Write(id, k, Some(loc), bits)])
    case Extra(v, id, k, bits) =>
      PutEnt(w, id, k, Allocated(Ent(w, id, k), LocOf(Ent(w, id, k)), bits))
      .(writes := w.writes[v := Write(id, k, Some(LocOf(Ent(w, id, k))), bits)])
    case Unplaced(v, id, k, bits) => w.(writes := w.writes[v := Write(id, k, None, bits)])
    case Complete(v) => DoComplete(w, v).(writes := w.writes - {v})
    case SendBack(v) => w.(back := w.back + {v})
    case Fail(v, error) => DoFail(w, v, error).(writes := w.writes - {v}, back := w.back - {v})
    case Unmap(id, k, bits) => DoUnmap(w, id, k, bits)
    case FreeEmptied(id) => ClearBit(w, LocOf(Ent(w, id, w.lock[id].k))).(lock := w.lock[id := Released(w.lock[id].k)])
    case WipeEntry(id) => PutEnt(w, id, w.lock[id].k, ClearEntry).(lock := w.lock - {id})
    case ReturnBit(loc) => ClearBit(w, loc).(freeing := w.freeing - {loc})
    case Create(id, size) => w.(objs := w.objs[id := seq(size, _ => ClearEntry)], committed := w.committed + size)
    case Grow(id, size) => w.(objs := w.objs[id := Extended(w.objs[id], size)],
                              committed := w.committed + |Extended(w.objs[id], size)| - |w.objs[id]|)
    case BeginDestroy(id) => w.(lock := w.lock[id := Dying(0)])
    case DestroyNext(id) =>
      var e := Ent(w, id, w.lock[id].k);
      (if Live(e) then ClearBit(w, LocOf(e)) else w).(lock := w.lock[id := Dying(w.lock[id].k + 1)])
    case EndDestroy(id) => w.(objs := w.objs - {id}, lock := w.lock - {id}, committed := w.committed - |w.objs[id]|)
  }

  function DoComplete(w: World, v: nat): World
    requires v in w.writes
  {
    var x := w.writes[v];
    if Completes(w, v) then PutEnt(w, x.id, x.k, Completed(EntOf(w, v), x.bits)) else w
  }

  function Failed(e: Entry, error: nat): Entry { e.(error := true, cloff := error) }

  /** A failed write: the entry is in error, its bits stay, and its cluster is given back
      unless its number is 0, which the code reads as "nothing to free".  Nothing happens to an
      entry that is in error already. */
  function DoFail(w: World, v: nat, error: nat): World
    requires v in w.writes
  {
    if !Fails(w, v) then w
    else
      var x, e := w.writes[v], EntOf(w, v);
      var t := PutEnt(w, x.id, x.k, Failed(e, error));
      if !Live(e) then t
      else if e.cloff != 0 then t.(freeing := w.freeing + {LocOf(e)})
      else t.(lost := w.lost + {LocOf(e)})
  }

  /** The bits of some pages are cleared; an entry left without pages keeps the map locked. */
  function DoUnmap(w: World, id: nat, k: nat, bits: set<nat>): World
    requires HasEnt(w, id, k)
  {
    var e := Ent(w, id, k);
    var e1 := e.(bmap := e.bmap - bits, alloc := e.alloc - bits);
    if IsClr(e) then w
    else if e1.alloc != {} then PutEnt(w, id, k, e1)
    else PutEnt(w, id, k, e1).(lock := w.lock[id := Emptied(k)])
  }

  // ----- one owner per cluster -----

  ghost predicate OwnedBy(w: World, l: Loc, o: Owner) {
    match o
    case Slot(id, k) => Current(w, id, k) && LocOf(Ent(w, id, k)) == l
    case Held => l in w.held
    case Freeing => l in w.freeing
    case Lost => l in w.lost
  }

  /** The bit of l is set exactly if l has an owner, and it has no two owners. */
  ghost predicate LocOk(w: World, l: Loc) {
    && (Bit(w, l) <==> exists o :: OwnedBy(w, l, o))
    && (forall o, o' :: OwnedBy(w, l, o) && OwnedBy(w, l, o') ==> o == o')
    && (l in w.lost ==> l.cloff == 0)
  }

  ghost predicate SegOk(w: World, j: nat) {
    j < |w.segs| && j < |w.reserved| ==> Segments.Valid(w.segs[j], w.reserved[j]) && w.segs[j].ncls <= ENTRY_NULL
  }

  /** Only the entry ps_clunmap is working on can name a cluster without an allocated page. */
  ghost predicate EntOk(w: World, id: nat, k: nat) {
    if id in w.lock && !w.lock[id].Dying? && w.lock[id].k == k
    then Live(Ent(w, id, k)) && Ent(w, id, k).bmap == {} && Ent(w, id, k).alloc == {}
    else EntryOk(Ent(w, id, k))
  }

  function Sizes(objs: map<nat, seq<Entry>>): map<nat, nat> { map id | id in objs :: |objs[id]| }

  ghost function Total(objs: map<nat, seq<Entry>>): nat { Sum(Sizes(objs)) }

  ghost predicate Inv(w: World) {
    && |w.reserved| == |w.segs|
    && (forall j: nat :: SegOk(w, j))
    && (forall id: nat, k: nat :: EntOk(w, id, k))
    && (forall id | id in w.lock :: id in w.objs)
    && (forall l: Loc :: LocOk(w, l))
    && w.committed == Total(w.objs)
  }

  ghost predicate Init(w: World) {
    && w.objs == map[] && w.held == {} && w.freeing == {} && w.lost == {} && w.lock == map[]
    && w.writes == map[] && w.back == {} && w.committed == 0
    && |w.reserved| == |w.segs|
    && forall j: nat | j < |w.segs| ::
         SegOk(w, j) && w.reserved[j] == 0 && forall c: nat | c < w.segs[j].ncls :: !IsSet(w.segs[j].bmap, c)
  }

  // ----- every step hands a cluster from at most one owner to at most one other -----

  function SlotOf(w: World, v: nat): Owner
    requires v in w.writes
  {
    Slot(w.writes[v].id, w.writes[v].k)
  }

  /** The owner that loses l in this step, if any. */
  ghost function Loser(w: World, a: Action, l: Loc): Option<Owner> {
    match a
    case Install(v, id, k, loc, bits) => if l == loc then Some(Held) else None
    case Fail(v, error) =>
      if v in w.writes && OwnedBy(w, l, SlotOf(w, v)) then Some(SlotOf(w, v)) else None
    case FreeEmptied(id) =>
      if id in w.lock && OwnedBy(w, l, Slot(id, w.lock[id].k)) then Some(Slot(id, w.lock[id].k)) else None
    case ReturnBit(loc) => if l == loc then Some(Freeing) else None
    case DestroyNext(id) =>
      if id in w.lock && OwnedBy(w, l, Slot(id, w.lock[id].k)) then Some(Slot(id, w.lock[id].k)) else None
    case _ => None
  }

  /** The owner that gets l in this step, if any. */
  ghost function Getter(w: World, a: Action, l: Loc): Option<Owner> {
    match a
    case Take(j, c) => if l == Loc(j, c) then Some(Held) else None
    case Install(v, id, k, loc, bits) => if l == loc then Some(Slot(id, k)) else None
    case Fail(v, error) =>
      if v !in w.writes || !OwnedBy(w, l, SlotOf(w, v)) then None
      else if l.cloff != 0 then Some(Freeing) else Some(Lost)
    case _ => None
  }

  /** Between w and t, l goes from `from` to `to`; with neither, nothing changes for l. */
  ghost predicate Moves(w: World, t: World, l: Loc, from: Option<Owner>, to: Option<Owner>) {
    && (from.Some? ==> OwnedBy(w, l, from.value))
    && (from.None? && to.Some? ==> !Bit(w, l))
    && (forall o :: OwnedBy(t, l, o) <==> (OwnedBy(w, l, o) && Some(o) != from) || Some(o) == to)
    && (Bit(t, l) <==> (if from.None? && to.None? then Bit(w, l) else to.Some?))
    && (l in t.lost ==> l in w.lost || l.cloff == 0)
  }

  lemma MoveKeeps(w: World, t: World, l: Loc, from: Option<Owner>, to: Option<Owner>)
    requires LocOk(w, l) && Moves(w, t, l, from, to)
    ensures LocOk(t, l)
  {
    if to.Some? { assert OwnedBy(t, l, to.value); }
    if o :| OwnedBy(w, l, o) { assert from.None? && to.None? ==> OwnedBy(t, l, o); }
  }

  lemma TakeMoves(w: World, j: nat, c: nat, l: Loc)
    requires Enabled(w, Take(j, c))
    ensures var a := Take(j, c); Moves(w, Apply(w, a), l, Loser(w, a, l), Getter(w, a, l))
  {
    var t := Apply(w, Take(j, c));
    forall o ensures OwnedBy(t, l, o) <==> OwnedBy(w, l, o) || (o == Held && l == Loc(j, c)) {
      if o.Slot? { assert Ent(t, o.id, o.k) == Ent(w, o.id, o.k); }
    }
  }

  /** Storing e in entry (id, k) changes no other entry. */
  lemma PutEntAt(w: World, id: nat, k: nat, e: Entry, id': nat, k': nat)
    requires HasEnt(w, id, k)
    ensures Ent(PutEnt(w, id, k, e), id', k') == if id' == id && k' == k then e else Ent(w, id', k')
  {
  }

  lemma PutTwice(w: World, id: nat, k: nat, e: Entry, e': Entry)
    requires HasEnt(w, id, k)
    ensures PutEnt(PutEnt(w, id, k, e), id, k, e') == PutEnt(w, id, k, e')
  {
    assert w.objs[id][k := e][k := e'] == w.objs[id][k := e'];
  }

  lemma InstallMoves(w: World, a: Action, l: Loc)
    requires a.Install? && Enabled(w, a) && LocOk(w, l) && SegOk(w, l.ps) && |w.reserved| == |w.segs|
    ensures Moves(w, Apply(w, a), l, Loser(w, a, l), Getter(w, a, l))
  {
    var t := Apply(w, a);
    if l == a.loc { assert OwnedBy(w, l, Held); }
    forall o
      ensures OwnedBy(t, l, o) <==> (OwnedBy(w, l, o) && Some(o) != Loser(w, a, l)) || Some(o) == Getter(w, a, l) {
      if o.Slot? { PutEntAt(w, a.id, a.k, Allocated(Ent(w, a.id, a.k), a.loc, a.bits), o.id, o.k); }
    }
  }

  /** Changing the bits of an entry changes no owner. */
  lemma SameMoves(w: World, t: World, id: nat, k: nat, e: Entry, l: Loc)
    requires HasEnt(w, id, k) && t == PutEnt(w, id, k, e).(writes := t.writes)
    requires Live(e) == Live(Ent(w, id, k)) && (Live(e) ==> LocOf(e) == LocOf(Ent(w, id, k)))
    ensures Moves(w, t, l, None, None)
  {
    forall o ensures OwnedBy(t, l, o) <==> OwnedBy(w, l, o) {
      if o.Slot? { PutEntAt(w, id, k, e, o.id, o.k); }
    }
  }

  /** Which writes are outstanding does not matter for ownership. */
  lemma MovesAnyWrites(w: World, t: World, t': World, l: Loc, from: Option<Owner>, to: Option<Owner>)
    requires Moves(w, t, l, from, to) && t' == t.(writes := t'.writes, back := t'.back)
    ensures Moves(w, t', l, from, to)
  {
    forall o ensures OwnedBy(t', l, o) <==> OwnedBy(t, l, o) {
      if o.Slot? { assert Ent(t', o.id, o.k) == Ent(t, o.id, o.k); }
    }
  }

  lemma FailMoves(w: World, v: nat, error: nat, l: Loc)
    requires v in w.writes && w.writes[v].id !in w.lock && LocOk(w, l)
    ensures var a := Fail(v, error); Moves(w, DoFail(w, v, error), l, Loser(w, a, l), Getter(w, a, l))
  {
    var a := Fail(v, error);
    var t, x := DoFail(w, v, error), w.writes[v];
    if Fails(w, v) {
      forall o
        ensures OwnedBy(t, l, o) <==> (OwnedBy(w, l, o) && Some(o) != Loser(w, a, l)) || Some(o) == Getter(w, a, l) {
        if o.Slot? { PutEntAt(w, x.id, x.k, Failed(EntOf(w, v), error), o.id, o.k); }
      }
    }
  }

  lemma CompleteMoves(w: World, v: nat, l: Loc)
    requires v in w.writes && w.writes[v].id !in w.lock
    ensures Moves(w, DoComplete(w, v).(writes := w.writes - {v}), l, None, None)
  {
    var t, x := DoComplete(w, v).(writes := w.writes - {v}), w.writes[v];
    if Completes(w, v) {
      SameMoves(w, t, x.id, x.k, Completed(EntOf(w, v), x.bits), l);
    } else {
      forall i: nat, j: nat ensures SameSlot(w, t, i, j) {}
      CalmMoves(w, t, l);
    }
  }

  lemma UnmapMoves(w: World, id: nat, k: nat, bits: set<nat>, l: Loc)
    requires Enabled(w, Unmap(id, k, bits))
    ensures Moves(w, Apply(w, Unmap(id, k, bits)), l, None, None)
  {
    var t, e := Apply(w, Unmap(id, k, bits)), Ent(w, id, k);
    forall o ensures OwnedBy(t, l, o) <==> OwnedBy(w, l, o) {
      if o.Slot? { PutEntAt(w, id, k, e.(bmap := e.bmap - bits, alloc := e.alloc - bits), o.id, o.k); }
    }
  }

  /** Giving back the cluster of entry (id, k) and noting that in the phase of id. */
  lemma GiveMoves(w: World, t: World, id: nat, k: nat, l: Loc)
    requires Current(w, id, k) && LocOk(w, l) && LocOk(w, LocOf(Ent(w, id, k))) && id in w.lock && id in t.lock
    requires t == ClearBit(w, LocOf(Ent(w, id, k))).(lock := w.lock[id := t.lock[id]])
    requires forall j: nat :: Stale(t, id, j) <==> Stale(w, id, j) || j == k
    ensures Moves(w, t, l, if OwnedBy(w, l, Slot(id, k)) then Some(Slot(id, k)) else None, None)
  {
    var loc := LocOf(Ent(w, id, k));
    assert OwnedBy(w, loc, Slot(id, k));
    ClearBitAt(w, loc, l);
    forall o ensures OwnedBy(t, l, o) <==> OwnedBy(w, l, o) && o != Slot(id, k) {
      if o.Slot? { assert Ent(t, o.id, o.k) == Ent(w, o.id, o.k); }
    }
  }

  lemma ClearBitAt(w: World, loc: Loc, l: Loc)
    ensures Bit(ClearBit(w, loc), l) <==> Bit(w, l) && l != loc
  {
  }

  lemma ReturnMoves(w: World, loc: Loc, l: Loc)
    requires Enabled(w, ReturnBit(loc)) && LocOk(w, loc)
    ensures var a := ReturnBit(loc); Moves(w, Apply(w, a), l, Loser(w, a, l), Getter(w, a, l))
  {
    var t := Apply(w, ReturnBit(loc));
    assert OwnedBy(w, loc, Freeing);
    ClearBitAt(w, loc, l);
    forall o ensures OwnedBy(t, l, o) <==> OwnedBy(w, l, o) && !(o == Freeing && l == loc) {
      if o.Slot? { assert Ent(t, o.id, o.k) == Ent(w, o.id, o.k); }
    }
  }

  /** What slot (id, k) owns is the same in both states. */
  ghost predicate SameSlot(w: World, t: World, id: nat, k: nat) {
    && (Current(t, id, k) <==> Current(w, id, k))
    && (Current(t, id, k) ==> LocOf(Ent(t, id, k)) == LocOf(Ent(w, id, k)))
  }

  lemma CalmMoves(w: World, t: World, l: Loc)
    requires t.held == w.held && t.freeing == w.freeing && t.lost == w.lost
    requires forall id: nat, k: nat :: SameSlot(w, t, id, k)
    requires Bit(t, l) == Bit(w, l)
    ensures Moves(w, t, l, None, None)
  {
    forall o ensures OwnedBy(t, l, o) <==> OwnedBy(w, l, o) {
      if o.Slot? { assert SameSlot(w, t, o.id, o.k); }
    }
  }

  lemma PhaseMoves(w: World, a: Action, l: Loc)
    requires Inv(w) && Enabled(w, a) && (a.FreeEmptied? || a.DestroyNext?)
    ensures Moves(w, Apply(w, a), l, Loser(w, a, l), Getter(w, a, l))
  {
    var t, id, k := Apply(w, a), a.id, w.lock[a.id].k;
    assert LocOk(w, l) && LocOk(w, LocOf(Ent(w, id, k))) && EntOk(w, id, k);
    if Live(Ent(w, id, k)) {
      GiveMoves(w, t, id, k, l);
    } else {
      forall i: nat, j: nat ensures SameSlot(w, t, i, j) { assert Ent(t, i, j) == Ent(w, i, j); }
      CalmMoves(w, t, l);
    }
  }

  /** The other steps, slot by slot. */
  lemma CalmSlot(w: World, a: Action, id: nat, k: nat)
    requires Inv(w) && Enabled(w, a)
    requires a.Reserve? || a.Unplaced? || a.SendBack? || a.WipeEntry? || a.Create? || a.Grow?
             || a.BeginDestroy? || a.EndDestroy?
    ensures SameSlot(w, Apply(w, a), id, k)
  {
    if a.WipeEntry? { PutEntAt(w, a.id, w.lock[a.id].k, ClearEntry, id, k); }
  }

  /** The steps that end a write. */
  lemma EndMoves(w: World, a: Action, l: Loc)
    requires LocOk(w, l) && Enabled(w, a) && (a.Complete? || a.Fail?)
    ensures Moves(w, Apply(w, a), l, Loser(w, a, l), Getter(w, a, l))
  {
    match a
    case Complete(v) => CompleteMoves(w, v, l);
    case Fail(v, error) =>
      FailMoves(w, v, error, l);
      MovesAnyWrites(w, DoFail(w, v, error), Apply(w, a), l, Loser(w, a, l), Getter(w, a, l));
  }

  /** The steps that change nothing for any cluster. */
  lemma CalmStep(w: World, a: Action, l: Loc)
    requires Inv(w) && Enabled(w, a)
    requires a.Reserve? || a.Unplaced? || a.SendBack? || a.WipeEntry? || a.Create? || a.Grow?
             || a.BeginDestroy? || a.EndDestroy?
    ensures Moves(w, Apply(w, a), l, None, None)
  {
    var t := Apply(w, a);
    forall id: nat, k: nat ensures SameSlot(w, t, id, k) { CalmSlot(w, a, id, k); }
    CalmMoves(w, t, l);
  }

  lemma ExtraMoves(w: World, a: Action, l: Loc)
    requires a.Extra? && Enabled(w, a)
    ensures Moves(w, Apply(w, a), l, None, None)
  {
    SameMoves(w, Apply(w, a), a.id, a.k, Allocated(Ent(w, a.id, a.k), LocOf(Ent(w, a.id, a.k)), a.bits), l);
  }

  /** Every step moves every cluster as Loser and Getter say. */
  lemma StepMoves(w: World, a: Action, l: Loc)
    requires Inv(w) && Enabled(w, a)
    ensures Moves(w, Apply(w, a), l, Loser(w, a, l), Getter(w, a, l))
  {
    assert LocOk(w, l) && SegOk(w, l.ps);
    if a.Take? {
      TakeMoves(w, a.j, a.c, l);
    } else if a.Install? {
      InstallMoves(w, a, l);
    } else if a.Extra? {
      ExtraMoves(w, a, l);
    } else if a.Complete? || a.Fail? {
      EndMoves(w, a, l);
    } else if a.Unmap? {
      UnmapMoves(w, a.id, a.k, a.bits, l);
    } else if a.FreeEmptied? || a.DestroyNext? {
      PhaseMoves(w, a, l);
    } else if a.ReturnBit? {
      assert LocOk(w, a.loc);
      ReturnMoves(w, a.loc, l);
    } else {
      CalmStep(w, a, l);
    }
  }

  lemma ReleaseSeg(w: World, l: Loc, j: nat)
    requires SegOk(w, l.ps) && SegOk(w, j) && |w.reserved| == |w.segs|
    ensures SegOk(ClearBit(w, l), j)
  {
    if Bit(w, l) { ReleaseKeeps(w.segs[l.ps], w.reserved[l.ps], l.cloff); }
  }

  lemma GiveSeg(w: World, e: Entry, j: nat)
    requires |w.reserved| == |w.segs| && (forall i: nat :: SegOk(w, i))
    ensures SegOk(ClearBit(w, LocOf(e)), j)
  {
    assert SegOk(w, e.ps) && SegOk(w, j);
    ReleaseSeg(w, LocOf(e), j);
  }

  lemma StepSeg(w: World, a: Action, j: nat)
    requires |w.reserved| == |w.segs| && (forall i: nat :: SegOk(w, i)) && Enabled(w, a)
    ensures SegOk(Apply(w, a), j)
  {
    assert SegOk(w, j);
    match a
    case Reserve(i) => assert Clear(Segments.Reserve(w.segs[i])) == Clear(w.segs[i]);
    case Take(i, c) =>
      assert SegOk(w, i);
      CommitKeeps(w.segs[i], w.reserved[i], c);
    case FreeEmptied(id) => GiveSeg(w, Ent(w, id, w.lock[id].k), j);
    case DestroyNext(id) => GiveSeg(w, Ent(w, id, w.lock[id].k), j);
    case ReturnBit(loc) =>
      assert SegOk(w, loc.ps);
      ReleaseSeg(w, loc, j);
    case _ =>
  }

  lemma StepEntry(w: World, a: Action, id: nat, k: nat)
    requires Inv(w) && Enabled(w, a)
    ensures EntOk(Apply(w, a), id, k)
  {
    assert EntOk(w, id, k);
    match a
    case Install(_, _, _, _, _) => InstallEntry(w, a, id, k);
    case Extra(v, i, j, bits) => PutEntAt(w, i, j, Allocated(Ent(w, i, j), LocOf(Ent(w, i, j)), bits), id, k);
    case Complete(v) => EndEntry(w, a, id, k);
    case Fail(v, error) => EndEntry(w, a, id, k);
    case Unmap(i, j, bits) => UnmapEntry(w, a, id, k);
    case WipeEntry(i) => PutEntAt(w, i, w.lock[i].k, ClearEntry, id, k);
    case _ => CalmEntry(w, a, id, k);
  }

  lemma EndEntry(w: World, a: Action, id: nat, k: nat)
    requires EntOk(w, id, k) && Enabled(w, a) && (a.Complete? || a.Fail?)
    ensures EntOk(Apply(w, a), id, k)
  {
    var x := w.writes[a.v];
    if a.Complete? && Completes(w, a.v) { PutEntAt(w, x.id, x.k, Completed(EntOf(w, a.v), x.bits), id, k); }
    if a.Fail? && Fails(w, a.v) { PutEntAt(w, x.id, x.k, Failed(EntOf(w, a.v), a.error), id, k); }
  }

  lemma InstallEntry(w: World, a: Action, id: nat, k: nat)
    requires Inv(w) && Enabled(w, a) && a.Install?
    ensures EntOk(Apply(w, a), id, k)
  {
    assert EntOk(w, id, k) && LocOk(w, a.loc) && OwnedBy(w, a.loc, Held) && SegOk(w, a.loc.ps);
    PutEntAt(w, a.id, a.k, Allocated(Ent(w, a.id, a.k), a.loc, a.bits), id, k);
  }

  lemma UnmapEntry(w: World, a: Action, id: nat, k: nat)
    requires Inv(w) && Enabled(w, a) && a.Unmap?
    ensures EntOk(Apply(w, a), id, k)
  {
    assert EntOk(w, id, k) && EntOk(w, a.id, a.k);
    var e := Ent(w, a.id, a.k);
    PutEntAt(w, a.id, a.k, e.(bmap := e.bmap - a.bits, alloc := e.alloc - a.bits), id, k);
  }

  lemma CalmEntry(w: World, a: Action, id: nat, k: nat)
    requires Inv(w) && Enabled(w, a)
    requires a.Reserve? || a.Take? || a.Unplaced? || a.SendBack? || a.FreeEmptied? || a.ReturnBit? || a.Create?
             || a.Grow? || a.BeginDestroy? || a.DestroyNext? || a.EndDestroy?
    ensures EntOk(Apply(w, a), id, k)
  {
    assert EntOk(w, id, k);
    assert Ent(Apply(w, a), id, k) == if a.EndDestroy? && a.id == id then ClearEntry else Ent(w, id, k);
  }

  lemma PutTotal(objs: map<nat, seq<Entry>>, id: nat, m: seq<Entry>)
    ensures id !in objs ==> Total(objs[id := m]) == Total(objs) + |m|
    ensures id in objs ==> Total(objs[id := m]) == Total(objs) - |objs[id]| + |m|
  {
    assert Sizes(objs[id := m]) == Sizes(objs)[id := |m|];
    if id in objs { SumUpdate(Sizes(objs), id, |m|); } else { SumInsert(Sizes(objs), id, |m|); }
  }

  lemma DropTotal(objs: map<nat, seq<Entry>>, id: nat)
    requires id in objs
    ensures Total(objs - {id}) == Total(objs) - |objs[id]|
  {
    SumTake(Sizes(objs), id);
    assert Sizes(objs - {id}) == Sizes(objs) - {id};
  }

  lemma EndTotal(w: World, v: nat, error: nat)
    requires v in w.writes
    ensures DoComplete(w, v).committed == DoFail(w, v, error).committed == w.committed
    ensures Total(DoComplete(w, v).objs) == Total(DoFail(w, v, error).objs) == Total(w.objs)
  {
    var id := w.writes[v].id;
    if Completes(w, v) { PutTotal(w.objs, id, DoComplete(w, v).objs[id]); }
    if Fails(w, v) { PutTotal(w.objs, id, DoFail(w, v, error).objs[id]); }
  }

  lemma StepTotal(w: World, a: Action)
    requires w.committed == Total(w.objs) && Enabled(w, a)
    ensures var t := Apply(w, a); t.committed == Total(t.objs)
  {
    var t := Apply(w, a);
    match a
    case Reserve(j) =>
    case Take(j, c) =>
    case Unplaced(_, _, _, _) =>
    case SendBack(_) =>
    case Complete(v) => EndTotal(w, v, 0);
    case Fail(v, error) => EndTotal(w, v, error);
    case FreeEmptied(id) =>
    case ReturnBit(loc) =>
    case BeginDestroy(id) =>
    case DestroyNext(id) =>
    case EndDestroy(id) => DropTotal(w.objs, id);
    case _ => PutTotal(w.objs, a.id, t.objs[a.id]);
  }

  lemma StepKeeps(w: World, a: Action)
    requires Inv(w) && Enabled(w, a)
    ensures Inv(Apply(w, a))
  {
    var t := Apply(w, a);
    forall j: nat ensures SegOk(t, j) { StepSeg(w, a, j); }
    forall id: nat, k: nat ensures EntOk(t, id, k) { StepEntry(w, a, id, k); }
    forall l: Loc ensures LocOk(t, l) {
      assert LocOk(w, l);
      StepMoves(w, a, l);
      MoveKeeps(w, t, l, Loser(w, a, l), Getter(w, a, l));
    }
    StepTotal(w, a);
  }

  // ----- every run -----

  ghost predicate IsRun(tr: seq<World>, acts: seq<Action>) {
    && |tr| == |acts| + 1 && Init(tr[0])
    && forall i | 0 <= i < |acts| :: Enabled(tr[i], acts[i]) && tr[i + 1] == Apply(tr[i], acts[i])
  }

  lemma InitOk(w: World)
    requires Init(w)
    ensures Inv(w)
  {
    forall l: Loc ensures LocOk(w, l) { assert !Bit(w, l); }
    assert Sizes(w.objs) == map[];
  }

  lemma {:induction false} RunKeeps(tr: seq<World>, acts: seq<Action>, n: nat)
    requires IsRun(tr, acts) && n <= |acts|
    ensures Inv(tr[n])
  {
    if n == 0 {
      InitOk(tr[0]);
    } else {
      RunKeeps(tr, acts, n - 1);
      StepKeeps(tr[n - 1], acts[n - 1]);
    }
  }

  /** Entry (id, k) has an allocated page, in an object that is not being destroyed. */
  predicate HasPage(w: World, id: nat, k: nat) {
    Live(Ent(w, id, k)) && Ent(w, id, k).alloc != {} && !(id in w.lock && w.lock[id].Dying?)
  }

  /** Cluster ownership in every reachable state: two entries that are not stale never name the
      same cluster, and the bit of a cluster they name is set.  Every entry with an allocated
      page is of this kind, and so is every live entry of a map that is not locked. */
  lemma ClusterOwnership(tr: seq<World>, acts: seq<Action>, n: nat, id: nat, k: nat, id': nat, k': nat)
    requires IsRun(tr, acts) && n <= |acts|
    ensures var w := tr[n];
            var e, e' := Ent(w, id, k), Ent(w, id', k');
            && (Current(w, id, k) && Current(w, id', k') && LocOf(e) == LocOf(e') ==> id == id' && k == k')
            && (Current(w, id, k) ==>
                  Bit(w, LocOf(e)) && e.bmap <= e.alloc && LocOf(e) !in w.held && LocOf(e) !in w.freeing)
            && (HasPage(w, id, k) ==> Current(w, id, k))
            && (id !in w.lock && Live(e) ==> HasPage(w, id, k))
  {
    RunKeeps(tr, acts, n);
    var w := tr[n];
    var e := Ent(w, id, k);
    assert EntOk(w, id, k) && LocOk(w, LocOf(e));
    if Current(w, id, k) {
      assert OwnedBy(w, LocOf(e), Slot(id, k)) && !OwnedBy(w, LocOf(e), Held) && !OwnedBy(w, LocOf(e), Freeing);
    }
    if Current(w, id', k') && LocOf(e) == LocOf(Ent(w, id', k')) { assert OwnedBy(w, LocOf(e), Slot(id', k')); }
  }

  /** In every reachable state clusters_committed is the total size of the live objects, and in
      every segment the free count and the reservations add up to the clear bits. */
  lemma Accounts(tr: seq<World>, acts: seq<Action>, n: nat, j: nat)
    requires IsRun(tr, acts) && n <= |acts| && j < |tr[n].segs|
    ensures tr[n].committed == Total(tr[n].objs)
    ensures j < |tr[n].reserved| && tr[n].segs[j].clcount + tr[n].reserved[j] == |Clear(tr[n].segs[j])|
  {
    RunKeeps(tr, acts, n);
    assert SegOk(tr[n], j);
  }

  // ----- lost clusters -----

  /** A write that fails on an entry naming cluster 0 of a segment. */
  predicate Drops(w: World, a: Action, l: Loc) {
    a.Fail? && a.v in w.writes && Live(EntOf(w, a.v)) && LocOf(EntOf(w, a.v)) == l && l.cloff == 0
  }

  /** The bit of l is set, but no entry owns l and no thread is about to store or free it. */
  ghost predicate Orphan(w: World, l: Loc) {
    && Bit(w, l) && l !in w.held && l !in w.freeing
    && forall id: nat, k: nat :: !(Current(w, id, k) && LocOf(Ent(w, id, k)) == l)
  }

  /** A set bit that nobody owns is exactly a cluster 0 on which a write has failed before.
      Such a cluster is never used again. */
  lemma LostExactly(tr: seq<World>, acts: seq<Action>, n: nat, l: Loc)
    requires IsRun(tr, acts) && n <= |acts|
    ensures Orphan(tr[n], l) <==> exists i: nat :: i < n && Drops(tr[i], acts[i], l)
  {
    RunKeeps(tr, acts, n);
    OrphanIsLost(tr[n], l);
    LostBefore(tr, acts, n, l);
  }

  lemma OrphanIsLost(w: World, l: Loc)
    requires Inv(w)
    ensures Orphan(w, l) <==> l in w.lost
  {
    assert LocOk(w, l);
    if l in w.lost {
      assert OwnedBy(w, l, Lost) && !OwnedBy(w, l, Held) && !OwnedBy(w, l, Freeing);
      forall id: nat, k: nat ensures !(Current(w, id, k) && LocOf(Ent(w, id, k)) == l) {
        assert !OwnedBy(w, l, Slot(id, k));
      }
    } else if Bit(w, l) {
      var o :| OwnedBy(w, l, o);
      assert o.Slot? ==> Current(w, o.id, o.k) && LocOf(Ent(w, o.id, o.k)) == l;
    }
  }

  lemma {:induction false} LostBefore(tr: seq<World>, acts: seq<Action>, n: nat, l: Loc)
    requires IsRun(tr, acts) && n <= |acts|
    ensures l in tr[n].lost <==> exists i: nat :: i < n && Drops(tr[i], acts[i], l)
    decreases n
  {
    if n > 0 {
      LostBefore(tr, acts, n - 1, l);
      LostStep(tr[n - 1], acts[n - 1], l);
      if Drops(tr[n - 1], acts[n - 1], l) { assert n - 1 < n; }
      if i: nat :| i < n - 1 && Drops(tr[i], acts[i], l) { assert i < n; }
    }
  }

  lemma LostStep(w: World, a: Action, l: Loc)
    requires Enabled(w, a)
    ensures l in Apply(w, a).lost <==> l in w.lost || Drops(w, a, l)
  {
  }

  // ----- destroying an object -----

  /** One step of ps_dealloc_vsmap clears the bit of exactly the cluster its entry owns, and
      changes no map. */
  lemma DestroyOwn(tr: seq<World>, acts: seq<Action>, n: nat, l: Loc)
    requires IsRun(tr, acts) && n < |acts| && acts[n].DestroyNext?
    ensures var id := acts[n].id;
            && id in tr[n].lock
            && (Bit(tr[n + 1], l) <==> Bit(tr[n], l) && !OwnedBy(tr[n], l, Slot(id, tr[n].lock[id].k)))
            && tr[n + 1].objs == tr[n].objs
  {
    RunKeeps(tr, acts, n);
    assert LocOk(tr[n], l);
    PhaseMoves(tr[n], acts[n], l);
  }

  /** In step i the object being destroyed gives back the cluster of its entry k. */
  ghost predicate GivesBack(tr: seq<World>, acts: seq<Action>, i: nat, id: nat, k: nat)
    requires |tr| == |acts| + 1
  {
    i < |acts| && acts[i] == DestroyNext(id) && id in tr[i].lock && tr[i].lock[id] == Dying(k)
  }

  /** From BeginDestroy to EndDestroy nobody else touches the map, and every live entry is
      given back in some step in between. */
  lemma DestroyAll(tr: seq<World>, acts: seq<Action>, n: nat, m: nat, id: nat, k: nat)
    requires IsRun(tr, acts) && n < m <= |acts| && acts[n] == BeginDestroy(id)
    requires forall i: nat | n < i < m :: acts[i] != EndDestroy(id)
    ensures id in tr[m].lock && tr[m].lock[id].Dying? && id in tr[n].objs && id in tr[m].objs
            && tr[m].objs[id] == tr[n].objs[id]
    ensures m < |acts| && acts[m] == EndDestroy(id) ==> tr[m].lock[id].k >= |tr[n].objs[id]|
    ensures k < tr[m].lock[id].k ==> exists i: nat :: n < i < m && GivesBack(tr, acts, i, id, k)
  {
    assert Enabled(tr[n], acts[n]) && tr[n + 1] == Apply(tr[n], acts[n]);
    forall i: nat | n + 1 <= i < m ensures DyingKept(tr[i], acts[i], tr[i + 1], id) { DyingStep(tr[i], acts[i], id); }
    DestroyRest(tr, acts, n + 1, m, id, k);
    if m < |acts| { assert Enabled(tr[m], acts[m]); }
  }

  lemma {:induction false} DestroyRest(tr: seq<World>, acts: seq<Action>, n: nat, m: nat, id: nat, k: nat)
    requires |tr| == |acts| + 1 && n <= m <= |acts|
    requires forall i: nat | n <= i < m :: DyingKept(tr[i], acts[i], tr[i + 1], id)
    requires id in tr[n].objs && id in tr[n].lock && tr[n].lock[id] == Dying(0)
    ensures id in tr[m].lock && tr[m].lock[id].Dying? && id in tr[m].objs && tr[m].objs[id] == tr[n].objs[id]
    ensures k < tr[m].lock[id].k ==> exists i: nat :: n <= i < m && GivesBack(tr, acts, i, id, k)
    decreases m
  {
    if m > n {
      DestroyRest(tr, acts, n, m - 1, id, k);
      assert DyingKept(tr[m - 1], acts[m - 1], tr[m - 1 + 1], id);
      if k < tr[m - 1].lock[id].k {
        var i: nat :| n <= i < m - 1 && GivesBack(tr, acts, i, id, k);
        assert n <= i < m && GivesBack(tr, acts, i, id, k);
      } else if k < tr[m].lock[id].k {
        assert GivesBack(tr, acts, m - 1, id, k);
      }
    }
  }

  /** Only the destroying thread moves on; the map stays as it is. */
  ghost predicate DyingKept(w: World, a: Action, t: World, id: nat) {
    id in w.objs && id in w.lock && w.lock[id].Dying? ==>
      && id in t.objs && id in t.lock && t.objs[id] == w.objs[id]
      && t.lock[id] == if a == DestroyNext(id) then Dying(w.lock[id].k + 1) else w.lock[id]
  }

  lemma DyingStep(w: World, a: Action, id: nat)
    requires Enabled(w, a) && a != EndDestroy(id)
    ensures DyingKept(w, a, Apply(w, a), id)
  {
  }

  // ----- what the callers see to -----

  predicate OnEntry(w: World, v: nat, id: nat, k: nat) { v in w.writes && w.writes[v].id == id && w.writes[v].k == k }

  predicate IsDying(w: World, id: nat) { id in w.lock && w.lock[id].Dying? }

  /** A write of some pages of an entry begins. */
  predicate Begins(a: Action) { a.Install? || a.Extra? || a.Unplaced? }

  /** Page p of the entry is not valid, and no write of it is under way, except one that has
      failed and whose pages the kernel has again. */
  ghost predicate FreePage(w: World, id: nat, k: nat, p: nat) {
    && p !in Ent(w, id, k).bmap
    && forall v: nat :: OnEntry(w, v, id, k) && v !in w.back ==> p !in w.writes[v].bits
  }

  /** Pages that may be paged out. */
  ghost predicate NewPages(w: World, id: nat, k: nat, bits: set<nat>) {
    bits != {} && (!IsErr(Ent(w, id, k)) ==> forall p | p in bits :: FreePage(w, id, k, p))
  }

  /** What the callers of ps_clmap and ps_clunmap see to: pages that are paged out are new, a
      page is unmapped only if it is valid and no write of it is outstanding, and an object goes
      only when its writes are done. */
  ghost predicate Tidy(w: World, a: Action) {
    Polite(w, a) && (Begins(a) ==> NewPages(w, a.id, a.k, a.bits))
  }

  ghost predicate Polite(w: World, a: Action) {
    match a
    case Unplaced(v, id, k, bits) => !IsDying(w, id)
    case Unmap(id, k, bits) =>
      && bits <= Ent(w, id, k).bmap
      && forall v: nat :: OnEntry(w, v, id, k) ==> bits !! w.writes[v].bits
    case BeginDestroy(id) => forall v | v in w.writes :: w.writes[v].id != id
    case _ => true
  }

  ghost predicate TidyRun(tr: seq<World>, acts: seq<Action>) {
    IsRun(tr, acts) && forall i: nat | i < |acts| :: Tidy(tr[i], acts[i])
  }

  // ----- runs that show what the conditions are for -----

  /** A tidy run can be made longer by any step that is enabled and tidy. */
  lemma Go(tr: seq<World>, acts: seq<Action>, a: Action) returns (tr': seq<World>, acts': seq<Action>)
    requires TidyRun(tr, acts) && Enabled(tr[|acts|], a) && Tidy(tr[|acts|], a)
    ensures TidyRun(tr', acts') && tr <= tr' && acts' == acts + [a] && tr'[|acts'|] == Apply(tr[|acts|], a)
  {
    tr', acts' := tr + [Apply(tr[|acts|], a)], acts + [a];
    forall i: nat | i < |acts'| ensures Tidy(tr'[i], acts'[i]) {
      if i < |acts| { assert Tidy(tr[i], acts[i]); }
    }
  }

  lemma GoCreate(tr: seq<World>, acts: seq<Action>, id: nat) returns (tr': seq<World>, acts': seq<Action>)
    requires TidyRun(tr, acts) && id !in tr[|acts|].objs
    ensures TidyRun(tr', acts') && tr <= tr' && acts <= acts'
    ensures var w := tr[|acts|];
            tr'[|acts'|] == w.(objs := w.objs[id := [ClearEntry]], committed := w.committed + 1)
  {
    tr', acts' := Go(tr, acts, Create(id, 1));
    assert seq(1, _ => ClearEntry) == [ClearEntry];
  }

  lemma GoExtra(tr: seq<World>, acts: seq<Action>, v: nat, id: nat, k: nat, bits: set<nat>)
      returns (tr': seq<World>, acts': seq<Action>)
    requires TidyRun(tr, acts) && NewPages(tr[|acts|], id, k, bits) && v !in tr[|acts|].writes
    requires var w := tr[|acts|]; HasEnt(w, id, k) && id !in w.lock && Live(Ent(w, id, k))
    ensures TidyRun(tr', acts') && tr <= tr' && acts <= acts'
    ensures var w := tr[|acts|]; var e := Ent(w, id, k);
            && HasEnt(w, id, k)
            && tr'[|acts'|] == PutEnt(w, id, k, e.(alloc := e.alloc + bits))
                               .(writes := w.writes[v := Write(id, k, Some(LocOf(e)), bits)])
  {
    tr', acts' := Go(tr, acts, Extra(v, id, k, bits));
  }

  lemma GoUnplaced(tr: seq<World>, acts: seq<Action>, v: nat, id: nat, k: nat, bits: set<nat>)
      returns (tr': seq<World>, acts': seq<Action>)
    requires TidyRun(tr, acts) && NewPages(tr[|acts|], id, k, bits) && v !in tr[|acts|].writes
    requires id in tr[|acts|].objs && id !in tr[|acts|].lock
    ensures TidyRun(tr', acts') && tr <= tr' && acts <= acts'
    ensures var w := tr[|acts|]; tr'[|acts'|] == w.(writes := w.writes[v := Write(id, k, None, bits)])
  {
    tr', acts' := Go(tr, acts, Unplaced(v, id, k, bits));
  }

  lemma GoComplete(tr: seq<World>, acts: seq<Action>, v: nat) returns (tr': seq<World>, acts': seq<Action>)
    requires TidyRun(tr, acts) && v in tr[|acts|].writes && v !in tr[|acts|].back
    requires var w := tr[|acts|];
             w.writes[v].id !in w.lock && w.writes[v].loc.Some? && w.writes[v].bits <= EntOf(w, v).alloc
    ensures TidyRun(tr', acts') && tr <= tr' && acts <= acts'
    ensures var w := tr[|acts|]; tr'[|acts'|] == DoComplete(w, v).(writes := w.writes - {v})
  {
    tr', acts' := Go(tr, acts, Complete(v));
  }

  /** A failed write: its pages go back to the kernel, then the failure is recorded. */
  lemma GoFail(tr: seq<World>, acts: seq<Action>, v: nat, error: nat) returns (tr': seq<World>, acts': seq<Action>)
    requires TidyRun(tr, acts) && v in tr[|acts|].writes && v !in tr[|acts|].back
    requires tr[|acts|].writes[v].id !in tr[|acts|].lock && error != 0
    ensures TidyRun(tr', acts') && tr <= tr' && acts <= acts'
    ensures |acts'| == |acts| + 2 && acts'[|acts| + 1] == Fail(v, error)
    ensures var w := tr[|acts|];
            && tr'[|acts| + 1] == w.(back := w.back + {v})
            && tr'[|acts'|] == DoFail(w, v, error).(writes := w.writes - {v})
  {
    var w := tr[|acts|];
    tr', acts' := GoSendBack(tr, acts, v);
    tr', acts' := GoRecord(tr', acts', v, error);
    assert w.back + {v} - {v} == w.back;
  }

  lemma GoSendBack(tr: seq<World>, acts: seq<Action>, v: nat) returns (tr': seq<World>, acts': seq<Action>)
    requires TidyRun(tr, acts) && v in tr[|acts|].writes && v !in tr[|acts|].back
    ensures TidyRun(tr', acts') && tr <= tr' && acts' == acts + [SendBack(v)]
    ensures tr'[|acts'|] == tr[|acts|].(back := tr[|acts|].back + {v})
  {
    tr', acts' := Go(tr, acts, SendBack(v));
  }

  lemma GoRecord(tr: seq<World>, acts: seq<Action>, v: nat, error: nat) returns (tr': seq<World>, acts': seq<Action>)
    requires TidyRun(tr, acts) && v in tr[|acts|].writes && v in tr[|acts|].back
    requires tr[|acts|].writes[v].id !in tr[|acts|].lock && error != 0
    ensures TidyRun(tr', acts') && tr <= tr' && acts' == acts + [Fail(v, error)]
    ensures var w := tr[|acts|];
            tr'[|acts'|] == DoFail(w, v, error).(writes := w.writes - {v}, back := w.back - {v})
  {
    tr', acts' := Go(tr, acts, Fail(v, error));
  }

  lemma GoReturn(tr: seq<World>, acts: seq<Action>, loc: Loc) returns (tr': seq<World>, acts': seq<Action>)
    requires TidyRun(tr, acts) && loc in tr[|acts|].freeing
    ensures TidyRun(tr', acts') && tr <= tr' && acts <= acts'
    ensures var w := tr[|acts|]; tr'[|acts'|] == ClearBit(w, loc).(freeing := w.freeing - {loc})
  {
    tr', acts' := Go(tr, acts, ReturnBit(loc));
  }

  /** Cluster c of segment 0 is free and the next to be had. */
  ghost predicate CanTake(w: World, c: nat) {
    && |w.segs| > 0 && |w.reserved| == |w.segs| && SegOk(w, 0) && w.reserved[0] == 0
    && !w.segs[0].goingAway && IsLowestClear(w.segs[0], c)
  }

  /** Cluster c of segment 0 has gone to entry 0 of object id, for write v of page 0. */
  ghost function Got(w: World, v: nat, id: nat, c: nat): World
    requires |w.segs| > 0 && w.segs[0].clcount > 0 && c / 8 < |w.segs[0].bmap| && HasEnt(w, id, 0)
  {
    PutEnt(PutSeg(w, 0, Commit(Segments.Reserve(w.segs[0]), c)), id, 0, Entry(c, 0, false, {}, {0}))
    .(writes := w.writes[v := Write(id, 0, Some(Loc(0, c)), {0})])
  }

  /** The bit of cluster c of segment 0 is taken. */
  ghost function Took(w: World, c: nat): World
    requires |w.segs| > 0 && w.segs[0].clcount > 0 && c / 8 < |w.segs[0].bmap|
  {
    PutSeg(w, 0, Commit(Segments.Reserve(w.segs[0]), c)).(held := w.held + {Loc(0, c)})
  }

  /** Reserve and take. */
  lemma TakeCluster(tr: seq<World>, acts: seq<Action>, c: nat) returns (tr': seq<World>, acts': seq<Action>)
    requires TidyRun(tr, acts) && CanTake(tr[|acts|], c)
    ensures TidyRun(tr', acts') && tr <= tr' && acts <= acts'
    ensures var w := tr[|acts|];
            && w.segs[0].clcount > 0 && c / 8 < |w.segs[0].bmap| && tr'[|acts'|] == Took(w, c)
  {
    var w := tr[|acts|];
    assert c in Clear(w.segs[0]);
    tr', acts' := Go(tr, acts, Reserve(0));
    tr', acts' := Go(tr', acts', Take(0, c));
    var w2 := tr'[|acts'|];
    assert w2.reserved == w.reserved && w2.segs == Took(w, c).segs;
  }

  /** Reserve, take and install. */
  lemma GetCluster(tr: seq<World>, acts: seq<Action>, v: nat, id: nat, c: nat)
      returns (tr': seq<World>, acts': seq<Action>)
    requires TidyRun(tr, acts) && CanTake(tr[|acts|], c) && v !in tr[|acts|].writes
    requires var w := tr[|acts|];
             HasEnt(w, id, 0) && id !in w.lock && Ent(w, id, 0) == ClearEntry && Loc(0, c) !in w.held
    requires forall u: nat :: !OnEntry(tr[|acts|], u, id, 0)
    ensures TidyRun(tr', acts') && tr <= tr' && acts <= acts'
    ensures var w := tr[|acts|];
            && w.segs[0].clcount > 0 && c / 8 < |w.segs[0].bmap| && tr'[|acts'|] == Got(w, v, id, c)
  {
    var w := tr[|acts|];
    tr', acts' := TakeCluster(tr, acts, c);
    var w2, a := Took(w, c), Install(v, id, 0, Loc(0, c), {0});
    forall u: nat ensures !OnEntry(w2, u, id, 0) { assert !OnEntry(w, u, id, 0); }
    tr', acts' := Go(tr', acts', a);
    assert Allocated(ClearEntry, Loc(0, c), {0}) == Entry(c, 0, false, {}, {0});
    assert w2.held - {Loc(0, c)} == w.held;
  }

  /** From every initial state with a usable segment: a cluster 0 that is lost for good. */
  lemma LostRun(w: World) returns (tr: seq<World>, acts: seq<Action>)
    requires Init(w) && CanTake(w, 0)
    ensures TidyRun(tr, acts) && tr[0] == w && Orphan(tr[|acts|], Loc(0, 0))
  {
    tr, acts := GoCreate([w], [], 1);
    tr, acts := GetCluster(tr, acts, 8, 1, 0);
    var n := |acts|;
    tr, acts := GoFail(tr, acts, 8, 5);
    assert Drops(tr[n + 1], acts[n + 1], Loc(0, 0));
    LostExactly(tr, acts, n + 2, Loc(0, 0));
  }

  /** From every initial state with a usable segment: while a map is locked between giving a
      cluster back and clearing the entry, an entry of another object can name that cluster. */
  lemma StaleRun(w: World) returns (tr: seq<World>, acts: seq<Action>)
    requires Init(w) && CanTake(w, 0)
    ensures TidyRun(tr, acts) && tr[0] == w
    ensures var t := tr[|acts|];
            && Live(Ent(t, 1, 0)) && Live(Ent(t, 2, 0)) && LocOf(Ent(t, 1, 0)) == LocOf(Ent(t, 2, 0))
            && Stale(t, 1, 0) && Current(t, 2, 0)
  {
    tr, acts := GoCreate([w], [], 1);
    tr, acts := GoCreate(tr, acts, 2);
    tr, acts := GetCluster(tr, acts, 8, 1, 0);
    tr, acts := GoComplete(tr, acts, 8);
    assert Ent(tr[|acts|], 1, 0) == Entry(0, 0, false, {0}, {0});
    tr, acts := GiveCluster(tr, acts, 1);
    tr, acts := GetCluster(tr, acts, 9, 2, 0);
  }

  lemma GoUnmap(tr: seq<World>, acts: seq<Action>, id: nat) returns (tr': seq<World>, acts': seq<Action>)
    requires TidyRun(tr, acts)
    requires var w := tr[|acts|];
             && HasEnt(w, id, 0) && id !in w.lock && Ent(w, id, 0) == Entry(0, 0, false, {0}, {0})
             && forall u: nat :: !OnEntry(w, u, id, 0)
    ensures TidyRun(tr', acts') && tr <= tr' && acts <= acts'
    ensures var w := tr[|acts|];
            tr'[|acts'|] == PutEnt(w, id, 0, Entry(0, 0, false, {}, {})).(lock := w.lock[id := Emptied(0)])
  {
    tr', acts' := Go(tr, acts, Unmap(id, 0, {0}));
  }

  lemma GoFreeEmptied(tr: seq<World>, acts: seq<Action>, id: nat) returns (tr': seq<World>, acts': seq<Action>)
    requires TidyRun(tr, acts) && id in tr[|acts|].lock && tr[|acts|].lock[id].Emptied?
    ensures TidyRun(tr', acts') && tr <= tr' && acts <= acts'
    ensures var w := tr[|acts|]; var k := w.lock[id].k;
            tr'[|acts'|] == ClearBit(w, LocOf(Ent(w, id, k))).(lock := w.lock[id := Released(k)])
  {
    tr', acts' := Go(tr, acts, FreeEmptied(id));
  }

  /** ps_clunmap up to the point where the cluster of entry (id, 0) has been given back. */
  lemma GiveCluster(tr: seq<World>, acts: seq<Action>, id: nat) returns (tr': seq<World>, acts': seq<Action>)
    requires TidyRun(tr, acts)
    requires var w := tr[|acts|];
             && HasEnt(w, id, 0) && id !in w.lock && Ent(w, id, 0) == Entry(0, 0, false, {0}, {0})
             && |w.segs| > 0 && |w.reserved| == |w.segs| && w.reserved[0] == 0 && !w.segs[0].goingAway
             && forall u: nat :: !OnEntry(w, u, id, 0)
    ensures TidyRun(tr', acts') && tr <= tr' && acts <= acts'
    ensures var w, t := tr[|acts|], tr'[|acts'|];
            && CanTake(t, 0) && HasEnt(t, id, 0) && Ent(t, id, 0) == Entry(0, 0, false, {}, {}) && Stale(t, id, 0)
            && t.objs == w.objs[id := w.objs[id][0 := Entry(0, 0, false, {}, {})]]
            && t.lock == w.lock[id := Released(0)] && t.held == w.held && t.writes == w.writes
  {
    var w := tr[|acts|];
    tr', acts' := GoUnmap(tr, acts, id);
    var w1 := tr'[|acts'|];
    tr', acts' := GoFreeEmptied(tr', acts', id);
    var t := tr'[|acts'|];
    RunKeeps(tr, acts, |acts|);
    assert LocOk(w, Loc(0, 0)) && OwnedBy(w, Loc(0, 0), Slot(id, 0));
    ClearBitAt(w1, Loc(0, 0), Loc(0, 0));
    RunKeeps(tr', acts', |acts'|);
    assert SegOk(t, 0);
  }
}
