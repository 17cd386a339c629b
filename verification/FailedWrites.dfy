/** What a failed write does to the other pages of its cluster.

    A comment in ps_clmap says that a failed write gives the cluster back only if no valid
    pages are present.  The code does not look at the pages.  Moreover the kernel gets the pages
    of a failed write back before the failure is recorded, and may send them out again at once.
    This module shows what follows, and when exactly nothing does. */
module FailedWrites {
  import opened Options
  import opened ClusterMaps
  import opened Ownership

  // ----- one step, seen from the entries and the writes -----

  ghost function NewEnt(w: World, a: Action, id: nat, k: nat): Entry
    requires Enabled(w, a)
  {
    var e := Ent(w, id, k);
    match a
    case Install(v, i, j, loc, bits) => if i == id && j == k then Allocated(e, loc, bits) else e
    case Extra(v, i, j, bits) => if i == id && j == k then Allocated(e, LocOf(e), bits) else e
    case Complete(v) => if OnEntry(w, v, id, k) && Completes(w, v) then Completed(e, w.writes[v].bits) else e
    case Fail(v, error) => if OnEntry(w, v, id, k) && Fails(w, v) then Failed(e, error) else e
    case Unmap(i, j, bits) =>
      if i == id && j == k && !IsClr(e) then e.(bmap := e.bmap - bits, alloc := e.alloc - bits) else e
    case WipeEntry(i) => if i == id && w.lock[i].k == k then ClearEntry else e
    case EndDestroy(i) => if i == id then ClearEntry else e
    case _ => e
  }

  lemma EntAfter(w: World, a: Action, id: nat, k: nat)
    requires Enabled(w, a)
    ensures Ent(Apply(w, a), id, k) == NewEnt(w, a, id, k)
  {
    match a
    case Install(v, i, j, loc, bits) => PutEntAt(w, i, j, Allocated(Ent(w, i, j), loc, bits), id, k);
    case Extra(v, i, j, bits) => PutEntAt(w, i, j, Allocated(Ent(w, i, j), LocOf(Ent(w, i, j)), bits), id, k);
    case Complete(v) =>
      var x := w.writes[v];
      if Completes(w, v) { PutEntAt(w, x.id, x.k, Completed(EntOf(w, v), x.bits), id, k); }
    case Fail(v, error) =>
      if Fails(w, v) { PutEntAt(w, w.writes[v].id, w.writes[v].k, Failed(EntOf(w, v), error), id, k); }
    case Unmap(i, j, bits) =>
      var e := Ent(w, i, j);
      PutEntAt(w, i, j, e.(bmap := e.bmap - bits, alloc := e.alloc - bits), id, k);
    case WipeEntry(i) => PutEntAt(w, i, w.lock[i].k, ClearEntry, id, k);
    case _ =>
  }

  ghost function NewWrites(w: World, a: Action): map<nat, Write> {
    match a
    case Install(v, id, k, loc, bits) => w.writes[v := Write(id, k, Some(loc), bits)]
    case Extra(v, id, k, bits) => w.writes[v := Write(id, k, Some(LocOf(Ent(w, id, k))), bits)]
    case Unplaced(v, id, k, bits) => w.writes[v := Write(id, k, None, bits)]
    case Complete(v) => w.writes - {v}
    case Fail(v, error) => w.writes - {v}
    case _ => w.writes
  }

  function NewBack(w: World, a: Action): set<nat> {
    if a.SendBack? then w.back + {a.v} else if a.Fail? then w.back - {a.v} else w.back
  }

  /** t is what step a makes of w, as far as writes are concerned. */
  ghost predicate Stepped(w: World, a: Action, t: World)
    requires Enabled(w, a)
  {
    && t.writes == NewWrites(w, a) && t.back == NewBack(w, a)
    && (forall id: nat, k: nat :: Ent(t, id, k) == NewEnt(w, a, id, k))
    && (forall l: Loc :: l in t.lost <==> l in w.lost || Drops(w, a, l))
    && (forall id: nat :: IsDying(t, id) ==> IsDying(w, id) || a == BeginDestroy(id))
    && (forall id: nat :: id in w.objs && !(a.EndDestroy? && a.id == id) ==> id in t.objs)
  }

  lemma WritesAfter(w: World, a: Action)
    requires Enabled(w, a)
    ensures Apply(w, a).writes == NewWrites(w, a)
  {
  }

  lemma BackAfter(w: World, a: Action)
    requires Enabled(w, a)
    ensures Apply(w, a).back == NewBack(w, a)
  {
  }

  lemma DyingAfter(w: World, a: Action, id: nat)
    requires Enabled(w, a)
    ensures IsDying(Apply(w, a), id) ==> IsDying(w, id) || a == BeginDestroy(id)
  {
  }

  lemma ObjectsAfter(w: World, a: Action, id: nat)
    requires Enabled(w, a)
    ensures id in w.objs && !(a.EndDestroy? && a.id == id) ==> id in Apply(w, a).objs
  {
  }

  lemma StepIs(w: World, a: Action)
    requires Enabled(w, a)
    ensures Stepped(w, a, Apply(w, a))
  {
    var t := Apply(w, a);
    WritesAfter(w, a);
    BackAfter(w, a);
    forall id: nat, k: nat ensures Ent(t, id, k) == NewEnt(w, a, id, k) { EntAfter(w, a, id, k); }
    forall l: Loc ensures l in t.lost <==> l in w.lost || Drops(w, a, l) { LostStep(w, a, l); }
    forall id: nat ensures IsDying(t, id) ==> IsDying(w, id) || a == BeginDestroy(id) { DyingAfter(w, a, id); }
    forall id: nat | id in w.objs && !(a.EndDestroy? && a.id == id) ensures id in t.objs { ObjectsAfter(w, a, id); }
  }

  // ----- what the writes of a tidy run have to do with the entries -----

  /** As long as its entry is not in error, a write goes to the cluster of the entry, its pages
      are allocated, and they are not valid unless they have been sent back. */
  ghost predicate WriteOk(w: World, v: nat) {
    && (v in w.back ==> v in w.writes)
    && (v in w.writes ==>
          var x := w.writes[v];
          var e := Ent(w, x.id, x.k);
          && x.bits != {} && x.id in w.objs && !IsDying(w, x.id)
          && (!IsErr(e) && v !in w.back ==> x.bits !! e.bmap)
          && (!IsErr(e) && x.loc.Some? ==> Live(e) && LocOf(e) == x.loc.value && x.bits <= e.alloc)
          && (IsErr(e) && x.loc.Some? && x.loc.value.cloff == 0 ==> x.loc.value in w.lost))
  }

  /** Two writes of one entry have no page in common unless one has been sent back. */
  ghost predicate PairOk(w: World, v: nat, u: nat) {
    (v != u && v in w.writes && OnEntry(w, u, w.writes[v].id, w.writes[v].k) && !IsErr(EntOf(w, v))
     && v !in w.back && u !in w.back) ==> w.writes[v].bits !! w.writes[u].bits
  }

  /** Page p of the entry is being written. */
  ghost predicate Written(w: World, id: nat, k: nat, p: nat) {
    exists v: nat :: OnEntry(w, v, id, k) && w.writes[v].loc.Some? && p in w.writes[v].bits
  }

  /** An allocated page is valid or being written. */
  ghost predicate CoverOk(w: World, id: nat, k: nat, p: nat) {
    Live(Ent(w, id, k)) && p in Ent(w, id, k).alloc && p !in Ent(w, id, k).bmap ==> Written(w, id, k, p)
  }

  ghost predicate WritesOk(w: World) {
    && (forall v: nat :: WriteOk(w, v))
    && (forall v: nat, u: nat :: PairOk(w, v, u))
    && (forall id: nat, k: nat, p: nat :: CoverOk(w, id, k, p))
  }

  /** A new write. */
  lemma NewStep(w: World, a: Action, t: World)
    requires Inv(w) && Enabled(w, a) && Tidy(w, a) && Stepped(w, a, t)
    requires Begins(a) && WriteOk(w, a.v)
    ensures WriteOk(t, a.v)
  {
    assert EntOk(w, a.id, a.k) && Ent(t, a.id, a.k) == NewEnt(w, a, a.id, a.k);
    if !IsErr(Ent(w, a.id, a.k)) {
      forall p | p in a.bits ensures p !in Ent(w, a.id, a.k).bmap { assert FreePage(w, a.id, a.k, p); }
    }
    if a.Install? { assert LocOk(w, a.loc) && OwnedBy(w, a.loc, Held) && SegOk(w, a.loc.ps); }
  }

  /** A write that stays, when pages of its entry are added. */
  lemma AddStep(w: World, a: Action, t: World, v: nat)
    requires Inv(w) && WriteOk(w, v) && Enabled(w, a) && Tidy(w, a) && Stepped(w, a, t)
    requires v in w.writes && v in t.writes && Begins(a)
    ensures WriteOk(t, v)
  {
    var x := w.writes[v];
    assert Ent(t, x.id, x.k) == NewEnt(w, a, x.id, x.k);
    assert a.id == x.id && a.k == x.k ==> OnEntry(w, v, a.id, a.k);
  }

  /** When another write ends. */
  lemma EndStep(w: World, a: Action, t: World, v: nat)
    requires Inv(w) && WritesOk(w) && Enabled(w, a) && Stepped(w, a, t)
    requires v in w.writes && v in t.writes && (a.Complete? || a.Fail?)
    ensures WriteOk(t, v)
  {
    var x := w.writes[v];
    assert WriteOk(w, v) && WriteOk(w, a.v) && PairOk(w, a.v, v);
    assert Ent(t, x.id, x.k) == NewEnt(w, a, x.id, x.k);
    if a.Fail? && x.loc.Some? { assert Drops(w, a, x.loc.value) ==> x.loc.value in t.lost; }
  }

  /** When pages are unmapped or something else happens. */
  lemma OtherStep(w: World, a: Action, t: World, v: nat)
    requires Inv(w) && WriteOk(w, v) && Enabled(w, a) && Tidy(w, a) && Stepped(w, a, t)
    requires v in w.writes && !Begins(a) && !a.Complete? && !a.Fail?
    ensures WriteOk(t, v)
  {
    var x := w.writes[v];
    assert EntOk(w, x.id, x.k) && Ent(t, x.id, x.k) == NewEnt(w, a, x.id, x.k);
    if a.BeginDestroy? { assert w.writes[v].id != a.id; }
    if a.Unmap? && a.id == x.id && a.k == x.k { assert OnEntry(w, v, a.id, a.k); }
    if x.loc.Some? { assert x.loc.value in w.lost ==> x.loc.value in t.lost; }
    var p :| p in x.bits;
  }

  lemma WriteStep(w: World, a: Action, t: World, v: nat)
    requires Inv(w) && WritesOk(w) && Enabled(w, a) && Tidy(w, a) && Stepped(w, a, t)
    ensures WriteOk(t, v)
  {
    assert WriteOk(w, v);
    if v in t.writes {
      if v !in w.writes {
        NewStep(w, a, t);
      } else if Begins(a) {
        AddStep(w, a, t, v);
      } else if a.Complete? || a.Fail? {
        EndStep(w, a, t, v);
      } else {
        OtherStep(w, a, t, v);
      }
    }
  }

  lemma PairStep(w: World, a: Action, t: World, v: nat, u: nat)
    requires Inv(w) && WritesOk(w) && Enabled(w, a) && Tidy(w, a) && Stepped(w, a, t)
    ensures PairOk(t, v, u)
  {
    assert PairOk(w, v, u) && WriteOk(w, v) && WriteOk(w, u);
    if v in t.writes && OnEntry(t, u, t.writes[v].id, t.writes[v].k) {
      var x := t.writes[v];
      assert EntOk(w, x.id, x.k) && Ent(t, x.id, x.k) == NewEnt(w, a, x.id, x.k);
      if Begins(a) && !IsErr(Ent(w, x.id, x.k)) && (u == a.v || v == a.v) {
        var s := if u == a.v then v else u;
        assert s in w.writes && s !in w.back ==> OnEntry(w, s, a.id, a.k);
        forall p | p in a.bits && s in w.writes && s !in w.back ensures p !in w.writes[s].bits {
          assert FreePage(w, a.id, a.k, p);
        }
      }
    }
  }

  lemma CoverStep(w: World, a: Action, t: World, id: nat, k: nat, p: nat)
    requires WritesOk(w) && Enabled(w, a) && Tidy(w, a) && Stepped(w, a, t)
    ensures CoverOk(t, id, k, p)
  {
    assert Ent(t, id, k) == NewEnt(w, a, id, k) && CoverOk(w, id, k, p);
    if Live(Ent(t, id, k)) && p in Ent(t, id, k).alloc && p !in Ent(t, id, k).bmap {
      if (a.Install? || a.Extra?) && a.id == id && a.k == k && p in a.bits {
        assert OnEntry(t, a.v, id, k);
      } else {
        var v: nat :| OnEntry(w, v, id, k) && w.writes[v].loc.Some? && p in w.writes[v].bits;
        assert WriteOk(w, v);
        assert OnEntry(t, v, id, k) && t.writes[v] == w.writes[v];
      }
    }
  }

  lemma TidyKeeps(w: World, a: Action)
    requires Inv(w) && WritesOk(w) && Enabled(w, a) && Tidy(w, a)
    ensures WritesOk(Apply(w, a))
  {
    var t := Apply(w, a);
    StepIs(w, a);
    forall v: nat ensures WriteOk(t, v) { WriteStep(w, a, t, v); }
    forall v: nat, u: nat ensures PairOk(t, v, u) { PairStep(w, a, t, v, u); }
    forall id: nat, k: nat, p: nat ensures CoverOk(t, id, k, p) { CoverStep(w, a, t, id, k, p); }
  }

  lemma InitWrites(w: World)
    requires Init(w)
    ensures WritesOk(w)
  {
    forall id: nat, k: nat, p: nat ensures CoverOk(w, id, k, p) { assert IsClr(Ent(w, id, k)); }
  }

  lemma {:induction false} WritesKept(tr: seq<World>, acts: seq<Action>, n: nat)
    requires TidyRun(tr, acts) && n <= |acts|
    ensures WritesOk(tr[n])
  {
    if n == 0 {
      InitWrites(tr[0]);
    } else {
      WritesKept(tr, acts, n - 1);
      RunKeeps(tr, acts, n - 1);
      assert tr[n - 1 + 1] == Apply(tr[n - 1], acts[n - 1]);
      TidyKeeps(tr[n - 1], acts[n - 1]);
    }
  }

  // ----- what a failed write gives back -----

  /** Step n takes cluster l away from the entry of the write that fails. */
  ghost predicate GivesBack(tr: seq<World>, acts: seq<Action>, n: nat, l: Loc)
    requires |tr| == |acts| + 1 && n < |acts|
  {
    && acts[n].Fail? && acts[n].v in tr[n].writes && OwnedBy(tr[n], l, SlotOf(tr[n], acts[n].v))
    && l in tr[n + 1].freeing
  }

  /** The entry of write v had a valid page in cluster l, and its bit is still set. */
  ghost predicate LeavesValid(w: World, t: World, v: nat)
    requires v in w.writes
  {
    exists p: nat :: p in EntOf(w, v).bmap && p in Ent(t, w.writes[v].id, w.writes[v].k).bmap
  }

  /** In every run: a failed write gives a cluster with a valid page back, and leaves the valid
      bit set in an entry in error, if and only if its entry had a valid page and a cluster
      with a number other than 0. */
  lemma ValidGivenBack(tr: seq<World>, acts: seq<Action>, n: nat)
    requires IsRun(tr, acts) && n < |acts| && acts[n].Fail?
    ensures var w, v := tr[n], acts[n].v;
            && v in w.writes
            && ((exists l :: GivesBack(tr, acts, n, l) && LeavesValid(w, tr[n + 1], v)) <==>
                Live(EntOf(w, v)) && EntOf(w, v).cloff != 0 && EntOf(w, v).bmap != {})
  {
    var w, t, v := tr[n], tr[n + 1], acts[n].v;
    var x, e := w.writes[v], EntOf(w, v);
    RunKeeps(tr, acts, n);
    EntAfter(w, acts[n], x.id, x.k);
    GivenBackIs(w, v, acts[n].error, LocOf(e));
    if l :| GivesBack(tr, acts, n, l) { GivenBackIs(w, v, acts[n].error, l); }
    if Live(e) && e.cloff != 0 && e.bmap != {} {
      assert GivesBack(tr, acts, n, LocOf(e));
      var p :| p in e.bmap;
      assert p in Ent(t, x.id, x.k).bmap;
    }
  }

  lemma GivenBackIs(w: World, v: nat, error: nat, l: Loc)
    requires Inv(w) && Enabled(w, Fail(v, error))
    ensures OwnedBy(w, l, SlotOf(w, v)) && l in Apply(w, Fail(v, error)).freeing <==>
            Live(EntOf(w, v)) && LocOf(EntOf(w, v)) == l && l.cloff != 0
  {
    assert LocOk(w, l);
    if OwnedBy(w, l, SlotOf(w, v)) { assert !OwnedBy(w, l, Freeing); }
  }

  /** The entry of write v has a valid page, or a page of another write. */
  ghost predicate StillUsed(w: World, v: nat)
    requires v in w.writes
  {
    EntOf(w, v).bmap != {} || exists u: nat :: u != v && Located(w, u, w.writes[v].id, w.writes[v].k)
  }

  /** Write u of the entry has a cluster. */
  predicate Located(w: World, u: nat, id: nat, k: nat) { OnEntry(w, u, id, k) && w.writes[u].loc.Some? }

  /** Page p of write v is valid, or another write has it too. */
  ghost predicate SharedPage(w: World, v: nat, p: nat)
    requires v in w.writes
  {
    && p in w.writes[v].bits
    && (|| p in EntOf(w, v).bmap
        || exists u: nat :: u != v && Located(w, u, w.writes[v].id, w.writes[v].k) && p in w.writes[u].bits)
  }

  lemma UsedIs(w: World, v: nat)
    requires Inv(w) && WritesOk(w) && v in w.writes && w.writes[v].id !in w.lock && Live(EntOf(w, v))
    ensures StillUsed(w, v) <==> !(EntOf(w, v).alloc <= w.writes[v].bits) || exists p: nat :: SharedPage(w, v, p)
  {
    var x, e := w.writes[v], EntOf(w, v);
    assert WriteOk(w, v) && EntOk(w, x.id, x.k);
    if p :| p in e.alloc && p !in x.bits {
      assert CoverOk(w, x.id, x.k, p);
      if p !in e.bmap {
        var u: nat :| OnEntry(w, u, x.id, x.k) && w.writes[u].loc.Some? && p in w.writes[u].bits;
        assert u != v && Located(w, u, x.id, x.k);
      }
    }
    if u: nat :| u != v && Located(w, u, x.id, x.k) {
      assert WriteOk(w, u);
      var p :| p in w.writes[u].bits;
      assert p in e.alloc && (p in x.bits ==> SharedPage(w, v, p));
    }
    if p :| p in e.bmap { assert p in e.alloc && (p in x.bits ==> SharedPage(w, v, p)); }
  }

  // ----- pages sent out twice -----

  /** Step i begins a write that has a page in common with an outstanding write of the same
      entry.  One of the two is v, the other one has a cluster, and v is outstanding from then
      on until step n. */
  ghost predicate Resent(tr: seq<World>, acts: seq<Action>, n: nat, v: nat, i: nat)
    requires |tr| == |acts| + 1 && n <= |acts|
  {
    && i < n && (forall j: nat | i + 1 <= j <= n :: v in tr[j].writes)
    && exists u: nat :: Meets(tr[i], acts[i], v, u)
  }

  ghost predicate Meets(w: World, a: Action, v: nat, u: nat) {
    && Begins(a) && OnEntry(w, u, a.id, a.k) && a.bits * w.writes[u].bits != {}
    && ((a.v == v && w.writes[u].loc.Some?) || (u == v && !a.Unplaced?))
  }

  ghost predicate IsShared(w: World, v: nat)
    requires v in w.writes
  {
    exists p: nat :: SharedPage(w, v, p)
  }

  /** A new write shares a page exactly if it meets another one. */
  lemma SharedNew(w: World, a: Action, t: World, v: nat)
    requires WriteOk(w, v) && Enabled(w, a) && Tidy(w, a) && Stepped(w, a, t)
    requires v !in w.writes && v in t.writes && !IsErr(EntOf(t, v))
    ensures IsShared(t, v) <==> exists u: nat :: Meets(w, a, v, u)
  {
    var x := t.writes[v];
    assert Begins(a) && a.v == v;
    assert Ent(t, x.id, x.k) == NewEnt(w, a, x.id, x.k);
    if p: nat :| SharedPage(t, v, p) {
      assert FreePage(w, a.id, a.k, p);
      var u: nat :| u != v && Located(t, u, x.id, x.k) && p in t.writes[u].bits;
      assert p in a.bits * w.writes[u].bits;
      assert Meets(w, a, v, u);
    }
    if u: nat :| Meets(w, a, v, u) {
      var p :| p in a.bits * w.writes[u].bits;
      assert Located(t, u, x.id, x.k);
      assert SharedPage(t, v, p);
    }
  }

  /** A page that v shares stays shared. */
  lemma SharedStays(w: World, a: Action, t: World, v: nat, p: nat)
    requires Inv(w) && WritesOk(w) && Enabled(w, a) && Tidy(w, a) && Stepped(w, a, t)
    requires v in w.writes && v in t.writes && !IsErr(EntOf(t, v)) && !IsErr(EntOf(w, v)) && SharedPage(w, v, p)
    ensures SharedPage(t, v, p)
  {
    var x := w.writes[v];
    assert EntOk(w, x.id, x.k) && Ent(t, x.id, x.k) == NewEnt(w, a, x.id, x.k);
    assert t.writes[v] == x && OnEntry(w, v, x.id, x.k) && WriteOk(w, v);
    if p !in EntOf(w, v).bmap {
      var u: nat :| u != v && Located(w, u, x.id, x.k) && p in w.writes[u].bits;
      assert WriteOk(w, u);
      if u in t.writes { assert t.writes[u] == w.writes[u] && Located(t, u, x.id, x.k); }
    }
  }

  /** A page that v comes to share belongs to a write that has just begun. */
  lemma SharedComes(w: World, a: Action, t: World, v: nat, p: nat)
    requires Inv(w) && WriteOk(w, v) && Enabled(w, a) && Tidy(w, a) && Stepped(w, a, t)
    requires v in w.writes && v in t.writes && !IsErr(EntOf(t, v)) && !IsErr(EntOf(w, v)) && SharedPage(t, v, p)
    ensures SharedPage(w, v, p) || Meets(w, a, v, v)
  {
    var x := w.writes[v];
    assert EntOk(w, x.id, x.k) && Ent(t, x.id, x.k) == NewEnt(w, a, x.id, x.k);
    assert t.writes[v] == x;
    if p in EntOf(t, v).bmap {
      if p !in EntOf(w, v).bmap { assert a.Complete? && Located(w, a.v, x.id, x.k) && p in w.writes[a.v].bits; }
    } else {
      var u: nat :| u != v && Located(t, u, x.id, x.k) && p in t.writes[u].bits;
      if u in w.writes {
        assert t.writes[u] == w.writes[u] && Located(w, u, x.id, x.k);
      } else {
        assert a.v == u && p in a.bits * x.bits;
        assert OnEntry(w, v, a.id, a.k);
      }
    }
  }

  lemma ErrorStays(w: World, a: Action, t: World, v: nat)
    requires Inv(w) && WriteOk(w, v) && Enabled(w, a) && Stepped(w, a, t)
    requires v in w.writes && v in t.writes && IsErr(EntOf(w, v))
    ensures IsErr(EntOf(t, v))
  {
    var x := w.writes[v];
    assert EntOk(w, x.id, x.k) && Ent(t, x.id, x.k) == NewEnt(w, a, x.id, x.k);
  }

  lemma SharedStep(w: World, a: Action, t: World, v: nat)
    requires Inv(w) && WritesOk(w) && Enabled(w, a) && Tidy(w, a) && Stepped(w, a, t)
    requires v in t.writes && !IsErr(EntOf(t, v))
    ensures v in w.writes ==> !IsErr(EntOf(w, v))
    ensures IsShared(t, v) <==> (v in w.writes && IsShared(w, v)) || exists u: nat :: Meets(w, a, v, u)
  {
    assert WriteOk(w, v);
    if v !in w.writes {
      SharedNew(w, a, t, v);
    } else {
      if IsErr(EntOf(w, v)) { ErrorStays(w, a, t, v); }
      if p: nat :| SharedPage(t, v, p) { SharedComes(w, a, t, v, p); }
      if p: nat :| SharedPage(w, v, p) { SharedStays(w, a, t, v, p); }
      if u: nat :| Meets(w, a, v, u) { MetIsShared(w, a, t, v, u); }
    }
  }

  lemma MetIsShared(w: World, a: Action, t: World, v: nat, u: nat)
    requires Enabled(w, a) && Stepped(w, a, t) && v in w.writes && v in t.writes && Meets(w, a, v, u)
    ensures IsShared(t, v)
  {
    var x := w.writes[v];
    assert u == v && t.writes[v] == x;
    var p :| p in a.bits * x.bits;
    assert a.v != v && Located(t, a.v, x.id, x.k) && p in t.writes[a.v].bits;
    assert SharedPage(t, v, p);
  }

  ghost predicate WasResent(tr: seq<World>, acts: seq<Action>, n: nat, v: nat)
    requires |tr| == |acts| + 1 && n <= |acts|
  {
    exists i: nat :: Resent(tr, acts, n, v, i)
  }

  lemma ResentStep(tr: seq<World>, acts: seq<Action>, m: nat, n: nat, v: nat)
    requires |tr| == |acts| + 1 && n == m + 1 <= |acts| && v in tr[n].writes
    ensures WasResent(tr, acts, n, v) <==>
            (v in tr[m].writes && WasResent(tr, acts, m, v)) || exists u: nat :: Meets(tr[m], acts[m], v, u)
  {
    if i: nat :| Resent(tr, acts, n, v, i) {
      if i < m { assert v in tr[m].writes && Resent(tr, acts, m, v, i); }
    }
    if v in tr[m].writes {
      if i: nat :| Resent(tr, acts, m, v, i) { assert Resent(tr, acts, n, v, i); }
    }
    if u: nat :| Meets(tr[m], acts[m], v, u) { assert Resent(tr, acts, n, v, m); }
  }

  /** In every tidy run: a page of an outstanding write is valid or has another write exactly if
      it was sent out twice. */
  lemma {:induction false} ResentExactly(tr: seq<World>, acts: seq<Action>, n: nat, v: nat)
    requires TidyRun(tr, acts) && n <= |acts| && v in tr[n].writes && !IsErr(EntOf(tr[n], v))
    ensures IsShared(tr[n], v) <==> WasResent(tr, acts, n, v)
    decreases n
  {
    if n > 0 {
      var m := n - 1;
      SharedAt(tr, acts, m, n, v);
      ResentStep(tr, acts, m, n, v);
      if v in tr[m].writes { ResentExactly(tr, acts, m, v); }
    }
  }

  lemma SharedAt(tr: seq<World>, acts: seq<Action>, m: nat, n: nat, v: nat)
    requires TidyRun(tr, acts) && n == m + 1 <= |acts| && v in tr[n].writes && !IsErr(EntOf(tr[n], v))
    ensures v in tr[m].writes ==> !IsErr(EntOf(tr[m], v))
    ensures IsShared(tr[n], v) <==>
            (v in tr[m].writes && IsShared(tr[m], v)) || exists u: nat :: Meets(tr[m], acts[m], v, u)
  {
    RunKeeps(tr, acts, m);
    WritesKept(tr, acts, m);
    assert Enabled(tr[m], acts[m]) && tr[m + 1] == Apply(tr[m], acts[m]) && Tidy(tr[m], acts[m]);
    StepIs(tr[m], acts[m]);
    SharedStep(tr[m], acts[m], tr[n], v);
  }

  /** In every tidy run: the cluster a failed write gives back still has a valid page or a page
      of another outstanding write if and only if not all its allocated pages are those of the
      failed write, or one of those was sent out twice. */
  lemma UsedGivenBack(tr: seq<World>, acts: seq<Action>, n: nat)
    requires TidyRun(tr, acts) && n < |acts| && acts[n].Fail?
    ensures var w, v := tr[n], acts[n].v;
            && v in w.writes
            && ((exists l :: GivesBack(tr, acts, n, l) && StillUsed(w, v)) <==>
                && Live(EntOf(w, v)) && EntOf(w, v).cloff != 0
                && (!(EntOf(w, v).alloc <= w.writes[v].bits) || WasResent(tr, acts, n, v)))
  {
    var w, v := tr[n], acts[n].v;
    RunKeeps(tr, acts, n);
    assert Enabled(w, acts[n]);
    GivenBackIs(w, v, acts[n].error, LocOf(EntOf(w, v)));
    if l :| GivesBack(tr, acts, n, l) { GivenBackIs(w, v, acts[n].error, l); }
    if Live(EntOf(w, v)) {
      UsedExactly(tr, acts, n, v);
      if EntOf(w, v).cloff != 0 { assert GivesBack(tr, acts, n, LocOf(EntOf(w, v))); }
    }
  }

  lemma UsedExactly(tr: seq<World>, acts: seq<Action>, n: nat, v: nat)
    requires TidyRun(tr, acts) && n <= |acts| && v in tr[n].writes
    requires tr[n].writes[v].id !in tr[n].lock && Live(EntOf(tr[n], v))
    ensures StillUsed(tr[n], v) <==>
            !(EntOf(tr[n], v).alloc <= tr[n].writes[v].bits) || WasResent(tr, acts, n, v)
  {
    RunKeeps(tr, acts, n);
    WritesKept(tr, acts, n);
    UsedIs(tr[n], v);
    ResentExactly(tr, acts, n, v);
  }

  // ----- writes that come too late -----

  /** Write v goes to a cluster that is no longer its entry's and may be anybody's. */
  ghost predicate IsLate(w: World, v: nat) {
    v in w.writes && w.writes[v].loc.Some? &&
    var l := w.writes[v].loc.value; !OwnedBy(w, l, SlotOf(w, v)) && l !in w.lost
  }

  /** In step i another write of the entry of v fails and gives the cluster back, and v is
      outstanding from then on until step n. */
  ghost predicate Overtaken(tr: seq<World>, acts: seq<Action>, n: nat, v: nat, i: nat)
    requires |tr| == |acts| + 1 && n <= |acts|
  {
    && i < n && (forall j: nat | i <= j <= n :: v in tr[j].writes) && tr[i].writes[v] == tr[n].writes[v]
    && acts[i].Fail? && acts[i].v != v && OnEntry(tr[i], acts[i].v, tr[i].writes[v].id, tr[i].writes[v].k)
    && Live(EntOf(tr[i], v)) && EntOf(tr[i], v).cloff != 0
  }

  /** A write is late exactly if its entry is in error and its cluster is not cluster 0. */
  lemma LateIs(w: World, v: nat)
    requires Inv(w) && WriteOk(w, v) && v in w.writes && w.writes[v].loc.Some?
    ensures IsLate(w, v) <==> IsErr(EntOf(w, v)) && w.writes[v].loc.value.cloff != 0
  {
    var x := w.writes[v];
    assert EntOk(w, x.id, x.k) && LocOk(w, x.loc.value);
    if !IsErr(EntOf(w, v)) {
      var p :| p in x.bits;
      assert Current(w, x.id, x.k);
    }
  }

  /** One step, for a write that stays outstanding. */
  lemma LateStep(w: World, a: Action, t: World, v: nat)
    requires Inv(w) && WriteOk(w, v) && Enabled(w, a) && Tidy(w, a) && Stepped(w, a, t)
    requires v in w.writes && v in t.writes && w.writes[v].loc.Some?
    ensures t.writes[v] == w.writes[v]
    ensures IsErr(EntOf(t, v)) <==>
            || IsErr(EntOf(w, v))
            || (a.Fail? && a.v != v && OnEntry(w, a.v, w.writes[v].id, w.writes[v].k) && Live(EntOf(w, v)))
  {
    var x := w.writes[v];
    assert EntOk(w, x.id, x.k) && Ent(t, x.id, x.k) == NewEnt(w, a, x.id, x.k);
  }

  /** A write that has just begun is not late. */
  lemma NewNotLate(w: World, a: Action, t: World, v: nat)
    requires Inv(w) && Inv(t) && WriteOk(t, v) && Enabled(w, a) && Stepped(w, a, t)
    requires v !in w.writes && v in t.writes && t.writes[v].loc.Some?
    ensures !IsLate(t, v)
  {
    var x := t.writes[v];
    assert EntOk(w, x.id, x.k) && Ent(t, x.id, x.k) == NewEnt(w, a, x.id, x.k);
    LateIs(t, v);
  }

  /** Where lateness comes from. */
  lemma LateAfter(tr: seq<World>, acts: seq<Action>, m: nat, v: nat)
    requires TidyRun(tr, acts) && m < |acts| && v in tr[m + 1].writes && tr[m + 1].writes[v].loc.Some?
    ensures v in tr[m].writes ==> tr[m].writes[v] == tr[m + 1].writes[v]
    ensures IsLate(tr[m + 1], v) <==> v in tr[m].writes && (IsLate(tr[m], v) || Overtaken(tr, acts, m + 1, v, m))
  {
    var w, a, t := tr[m], acts[m], tr[m + 1];
    RunKeeps(tr, acts, m);
    RunKeeps(tr, acts, m + 1);
    WritesKept(tr, acts, m);
    WritesKept(tr, acts, m + 1);
    assert WriteOk(w, v) && WriteOk(t, v);
    StepIs(w, a);
    LateFrom(w, a, t, v);
    assert v in w.writes ==> forall j: nat | m <= j <= m + 1 :: v in tr[j].writes;
  }

  lemma LateFrom(w: World, a: Action, t: World, v: nat)
    requires Inv(w) && Inv(t) && WriteOk(w, v) && WriteOk(t, v) && Enabled(w, a) && Tidy(w, a) && Stepped(w, a, t)
    requires v in t.writes && t.writes[v].loc.Some?
    ensures v in w.writes ==> t.writes[v] == w.writes[v]
    ensures IsLate(t, v) <==>
            && v in w.writes
            && (|| IsLate(w, v)
                || (a.Fail? && a.v != v && OnEntry(w, a.v, w.writes[v].id, w.writes[v].k)
                    && Live(EntOf(w, v)) && EntOf(w, v).cloff != 0))
  {
    if v !in w.writes {
      NewNotLate(w, a, t, v);
    } else {
      assert t.writes[v] == w.writes[v];
      LateStep(w, a, t, v);
      LateIs(w, v);
      LateIs(t, v);
    }
  }

  /** In every tidy run: an outstanding write goes to a cluster that its entry no longer owns,
      other than a dropped cluster 0, if and only if a failed write of the same entry has given
      the cluster back meanwhile. */
  lemma {:induction false} LateExactly(tr: seq<World>, acts: seq<Action>, n: nat, v: nat)
    requires TidyRun(tr, acts) && n <= |acts| && v in tr[n].writes && tr[n].writes[v].loc.Some?
    ensures IsLate(tr[n], v) <==> exists i: nat :: Overtaken(tr, acts, n, v, i)
    decreases n
  {
    if n > 0 {
      var m := n - 1;
      LateAfter(tr, acts, m, v);
      OvertakenStep(tr, acts, m, n, v);
      if v in tr[m].writes { LateExactly(tr, acts, m, v); }
    }
  }

  lemma OvertakenStep(tr: seq<World>, acts: seq<Action>, m: nat, n: nat, v: nat)
    requires |tr| == |acts| + 1 && n == m + 1 <= |acts| && v in tr[n].writes
    requires v in tr[m].writes ==> tr[m].writes[v] == tr[n].writes[v]
    ensures (exists i: nat :: Overtaken(tr, acts, n, v, i)) <==>
            v in tr[m].writes && ((exists i: nat :: Overtaken(tr, acts, m, v, i)) || Overtaken(tr, acts, n, v, m))
  {
    if i: nat :| Overtaken(tr, acts, n, v, i) {
      assert v in tr[m].writes;
      assert i < m ==> Overtaken(tr, acts, m, v, i);
    }
    if v in tr[m].writes {
      if i: nat :| Overtaken(tr, acts, m, v, i) { assert Overtaken(tr, acts, n, v, i); }
    }
  }

  /** A write that is not late goes to a cluster that no other entry owns. */
  lemma NotLateIsSafe(tr: seq<World>, acts: seq<Action>, n: nat, v: nat, id: nat, k: nat)
    requires IsRun(tr, acts) && n <= |acts| && v in tr[n].writes && tr[n].writes[v].loc.Some? && !IsLate(tr[n], v)
    ensures OwnedBy(tr[n], tr[n].writes[v].loc.value, Slot(id, k)) ==> OnEntry(tr[n], v, id, k)
  {
    RunKeeps(tr, acts, n);
    var w := tr[n];
    var l := w.writes[v].loc.value;
    assert LocOk(w, l);
    if OwnedBy(w, l, Slot(id, k)) { assert l in w.lost ==> OwnedBy(w, l, Lost); }
  }

  /** If every write that fails on a cluster other than cluster 0 is alone in it, and none of its
      pages was sent out twice, no write is ever late. */
  lemma LoneFailuresSafe(tr: seq<World>, acts: seq<Action>, n: nat, v: nat)
    requires TidyRun(tr, acts) && n <= |acts| && v in tr[n].writes && tr[n].writes[v].loc.Some?
    requires forall i: nat | i < n && acts[i].Fail? && acts[i].v in tr[i].writes ::
               var u, e := acts[i].v, EntOf(tr[i], acts[i].v);
               Live(e) && e.cloff != 0 ==> e.alloc <= tr[i].writes[u].bits && !WasResent(tr, acts, i, u)
    ensures !IsLate(tr[n], v)
  {
    LateExactly(tr, acts, n, v);
    if i: nat :| Overtaken(tr, acts, n, v, i) {
      var u := acts[i].v;
      assert Enabled(tr[i], acts[i]);
      assert Located(tr[i], v, tr[i].writes[u].id, tr[i].writes[u].k);
      UsedExactly(tr, acts, i, u);
      assert false;
    }
  }

  // ----- why the runs of the pager are tidy -----

  datatype Page = Page(id: nat, k: nat, p: nat)

  predicate InWrite(x: Write, q: Page) { x.id == q.id && x.k == q.k && q.p in x.bits }

  predicate SentOut(a: Action, q: Page) { Begins(a) && a.id == q.id && a.k == q.k && q.p in a.bits }

  /** The kernel pages out only pages it holds, and then no longer holds them.  It gets a page
      back when a write of it fails, or in a reply, which hands out only pages that are not valid
      (any more) and not being written. */
  ghost predicate KernelStep(w: World, a: Action, t: World, held: set<Page>, held': set<Page>) {
    && (Begins(a) ==> a.bits != {} && forall p: nat | p in a.bits :: Page(a.id, a.k, p) in held)
    && forall q | q in held' ::
         || (q in held && !SentOut(a, q))
         || (a.SendBack? && a.v in w.writes && InWrite(w.writes[a.v], q))
         || FreePage(t, q.id, q.k, q.p)
  }

  /** held[i] is what the kernel holds before step i. */
  ghost predicate KernelRun(tr: seq<World>, acts: seq<Action>, held: seq<set<Page>>) {
    && IsRun(tr, acts) && |held| == |tr|
    && forall i: nat | i < |acts| ::
         Polite(tr[i], acts[i]) && KernelStep(tr[i], acts[i], tr[i + 1], held[i], held[i + 1])
  }

  ghost predicate HeldOk(w: World, q: Page) { !IsErr(Ent(w, q.id, q.k)) ==> FreePage(w, q.id, q.k, q.p) }

  ghost predicate AllHeld(w: World, held: set<Page>) { forall q | q in held :: HeldOk(w, q) }

  lemma HeldStays(w: World, a: Action, t: World, q: Page)
    requires Inv(w) && WritesOk(w) && Enabled(w, a) && Stepped(w, a, t) && HeldOk(w, q) && !SentOut(a, q)
    ensures HeldOk(t, q)
  {
    assert Ent(t, q.id, q.k) == NewEnt(w, a, q.id, q.k) && EntOk(w, q.id, q.k);
    if !IsErr(Ent(t, q.id, q.k)) {
      forall v: nat | OnEntry(t, v, q.id, q.k) && v !in t.back ensures q.p !in t.writes[v].bits {
        assert WriteOk(w, v);
        if v in w.writes { assert OnEntry(w, v, q.id, q.k) && v !in w.back; }
      }
    }
  }

  lemma HeldAgain(w: World, a: Action, t: World, q: Page)
    requires WritesOk(w) && Enabled(w, a) && Stepped(w, a, t) && a.SendBack? && InWrite(w.writes[a.v], q)
    ensures HeldOk(t, q)
  {
    assert Ent(t, q.id, q.k) == NewEnt(w, a, q.id, q.k);
    assert WriteOk(w, a.v);
    if !IsErr(Ent(t, q.id, q.k)) {
      forall v: nat | OnEntry(t, v, q.id, q.k) && v !in t.back ensures q.p !in t.writes[v].bits {
        assert PairOk(w, a.v, v);
      }
    }
  }

  lemma HeldStep(w: World, a: Action, t: World, held: set<Page>, held': set<Page>, q: Page)
    requires Inv(w) && WritesOk(w) && Enabled(w, a) && Stepped(w, a, t)
    requires KernelStep(w, a, t, held, held') && (q in held ==> HeldOk(w, q)) && q in held'
    ensures HeldOk(t, q)
  {
    if q in held && !SentOut(a, q) {
      HeldStays(w, a, t, q);
    } else if a.SendBack? && a.v in w.writes && InWrite(w.writes[a.v], q) {
      HeldAgain(w, a, t, q);
    }
  }

  lemma KernelTidy(w: World, a: Action, t: World, held: set<Page>, held': set<Page>)
    requires Polite(w, a) && KernelStep(w, a, t, held, held') && AllHeld(w, held)
    ensures Tidy(w, a)
  {
    if Begins(a) {
      forall p | p in a.bits && !IsErr(Ent(w, a.id, a.k)) ensures FreePage(w, a.id, a.k, p) {
        assert HeldOk(w, Page(a.id, a.k, p));
      }
    }
  }

  lemma {:induction false} KernelKeeps(tr: seq<World>, acts: seq<Action>, held: seq<set<Page>>, n: nat)
    requires KernelRun(tr, acts, held) && n <= |acts| && AllHeld(tr[0], held[0])
    ensures WritesOk(tr[n]) && AllHeld(tr[n], held[n])
  {
    if n == 0 {
      InitWrites(tr[0]);
    } else {
      var m := n - 1;
      KernelKeeps(tr, acts, held, m);
      KernelNext(tr, acts, held, m);
    }
  }

  lemma KernelNext(tr: seq<World>, acts: seq<Action>, held: seq<set<Page>>, m: nat)
    requires KernelRun(tr, acts, held) && m < |acts| && WritesOk(tr[m]) && AllHeld(tr[m], held[m])
    ensures Tidy(tr[m], acts[m]) && WritesOk(tr[m + 1]) && AllHeld(tr[m + 1], held[m + 1])
  {
    var w, a, t := tr[m], acts[m], tr[m + 1];
    RunKeeps(tr, acts, m);
    assert Enabled(w, a) && t == Apply(w, a) && KernelStep(w, a, t, held[m], held[m + 1]) && Polite(w, a);
    KernelTidy(w, a, t, held[m], held[m + 1]);
    TidyKeeps(w, a);
    StepIs(w, a);
    forall q | q in held[m + 1] ensures HeldOk(t, q) { HeldStep(w, a, t, held[m], held[m + 1], q); }
  }

  /** Runs in which the kernel pages out only pages it holds are tidy, also when it sends pages
      of a failed write out again before the failure is recorded. */
  lemma KernelRunsTidy(tr: seq<World>, acts: seq<Action>, held: seq<set<Page>>)
    requires KernelRun(tr, acts, held)
    ensures TidyRun(tr, acts)
  {
    forall q | q in held[0] ensures HeldOk(tr[0], q) { assert IsClr(Ent(tr[0], q.id, q.k)); }
    forall i: nat | i < |acts| ensures Tidy(tr[i], acts[i]) {
      KernelKeeps(tr, acts, held, i);
      KernelNext(tr, acts, held, i);
    }
  }
}
