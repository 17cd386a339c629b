/** All objects together: they share the paging segments and the device.  Each object's
    step is an environment step for every other object, because a step only touches
    clusters its own object owns or clusters nobody owns. */
module PagerSystem {
  import opened Options
  import opened Arith
  import opened ClusterMaps
  import opened PageStore
  import Proof = PageStoreProof
  import P = Protocol

  datatype Sys = Sys(objs: map<nat, Obj>, used: set<Loc>, dev: map<Slot, Data>)

  datatype Event =
    | Create(id: nat, cls: nat, resident: set<nat>)  // the kernel already holds some pages
    | Destroy(id: nat)             // ps_vstruct_dealloc
    | Object(id: nat, a: Action)

  function View(s: Sys, id: nat): St
    requires id in s.objs
  {
    St(s.objs[id], s.used, s.dev)
  }

  function NewObj(cls: nat, resident: set<nat>): Obj {
    Obj(cls, P.Init, [], map[], map[], map[], resident, map[], map[], map[])
  }

  ghost predicate Owns(o: Obj, loc: Loc) { exists k: nat :: OwnsAt(o, k, loc) }

  ghost predicate OwnsAt(o: Obj, k: nat, loc: Loc) { k < |o.ents| && Live(o.ents[k]) && LocOf(o.ents[k]) == loc }

  /** The clusters of a map that ps_dealloc_vsmap gives back. */
  function Clusters(m: seq<Entry>): (r: set<Loc>)
    ensures forall loc: Loc :: loc in r <==> exists k | 0 <= k < |m| :: Live(m[k]) && LocOf(m[k]) == loc
  {
    set k | 0 <= k < |m| && Live(m[k]) :: LocOf(m[k])
  }

  ghost predicate Enabled(s: Sys, e: Event) {
    match e
    case Create(id, cls, _) => id !in s.objs && cls > 0
    case Destroy(id) => id in s.objs && s.objs[id].io == map[]
    case Object(id, a) => id in s.objs && PageStore.Enabled(View(s, id), a)
  }

  ghost function Apply(s: Sys, e: Event): Sys
    requires Enabled(s, e)
  {
    match e
    case Create(id, cls, resident) => s.(objs := s.objs[id := NewObj(cls, resident)])
    case Destroy(id) => s.(objs := s.objs - {id}, used := s.used - Clusters(s.objs[id].ents))
    case Object(id, a) => var t := PageStore.Apply(View(s, id), a); Sys(s.objs[id := t.o], t.used, t.dev)
  }

  // ----- rely and guarantee -----

  /** What a step may do to the rest of the world. */
  ghost predicate Harmless(s: St, t: St, loc: Loc) {
    && (loc in s.used && !Owns(s.o, loc) ==> loc in t.used)
    && (Owns(t.o, loc) ==> Owns(s.o, loc) || loc !in s.used)
  }

  ghost predicate SlotSafe(s: St, t: St, x: Slot) {
    x.loc in s.used && !Owns(s.o, x.loc) && x in s.dev ==> x in t.dev && t.dev[x] == s.dev[x]
  }

  lemma UnmapHarmless(s: St, r: nat, loc: Loc)
    requires MapOk(s) && CanUnmap(s, r)
    ensures Harmless(s, DoUnmap(s, r), loc)
  {
    var t, k := DoUnmap(s, r), Quot(s.o.rd[r].cur, s.o.cls);
    if j: nat :| OwnsAt(t.o, j, loc) { assert OwnsAt(s.o, j, loc); }
    assert EntOk(s, k);
    assert Live(s.o.ents[k]) ==> OwnsAt(s.o, k, LocOf(s.o.ents[k]));
  }

  lemma WriteMapHarmless(s: St, w: nat, id: nat, got: Loc, loc: Loc)
    requires CanWriteMap(s, w, id, got)
    ensures Harmless(s, DoWriteMap(s, w, id, got), loc)
  {
    var t := DoWriteMap(s, w, id, got);
    if j: nat :| OwnsAt(t.o, j, loc) {
      Proof.MappedEnts(s, w, id, got, j);
      if loc != got { assert OwnsAt(s.o, j, loc); }
    }
  }

  lemma MarkHarmless(s: St, id: nat, loc: Loc)
    requires CanMark(s, id)
    ensures Harmless(s, DoMark(s, id), loc)
  {
    if j: nat :| OwnsAt(DoMark(s, id).o, j, loc) { assert OwnsAt(s.o, j, loc); }
  }

  /** Guarantee: a step of one object leaves every cluster owned by others allocated and takes
      over only its own or free clusters. */
  lemma StepHarmless(s: St, a: Action, loc: Loc)
    requires Inv(s) && PageStore.Enabled(s, a)
    ensures Harmless(s, PageStore.Apply(s, a), loc)
  {
    var t := PageStore.Apply(s, a);
    match a
    case Unmap(r) => UnmapHarmless(s, r, loc);
    case WriteMap(w, id, got) => WriteMapHarmless(s, w, id, got, loc);
    case Mark(id) => MarkHarmless(s, id, loc);
    case _ =>
      assert t.used == s.used && t.o.ents == s.o.ents;
      if j: nat :| OwnsAt(t.o, j, loc) { assert OwnsAt(s.o, j, loc); }
  }

  /** Guarantee: a step of one object changes nothing on the device outside its own clusters. */
  lemma StepSlotSafe(s: St, a: Action, x: Slot)
    requires Inv(s) && PageStore.Enabled(s, a)
    ensures SlotSafe(s, PageStore.Apply(s, a), x)
  {
    if a.Land? {
      var k := Quot(s.o.io[a.id].lo, s.o.cls);
      assert IoOk(s.o, a.id);
      assert OwnsAt(s.o, k, s.o.io[a.id].loc);
    } else {
      assert PageStore.Apply(s, a).dev == s.dev;
    }
  }

  /** A page that is stored or has landed lies in a cluster its object owns. */
  lemma SlotOwned(s: St, p: nat)
    requires MapOk(s) && p in s.o.where && (s.o.where[p].Stored? || s.o.where[p].Flying?)
    ensures Owns(s.o, SlotAt(s.o, p).loc)
  {
    var k := Quot(p, s.o.cls);
    assert BitsOk(s.o, p) && EntOk(s, k);
    assert OwnsAt(s.o, k, SlotAt(s.o, p).loc);
  }

  /** Rely: an object does not notice changes outside its own clusters. */
  lemma EnvKeeps(s: St, used: set<Loc>, dev: map<Slot, Data>)
    requires Inv(s)
    requires forall loc: Loc | Owns(s.o, loc) :: loc in used
    requires forall x: Slot | x in s.dev && Owns(s.o, x.loc) :: x in dev && dev[x] == s.dev[x]
    ensures Inv(St(s.o, used, dev))
  {
    var t := St(s.o, used, dev);
    forall k: nat ensures EntOk(t, k) {
      assert EntOk(s, k);
      if k < |s.o.ents| && Live(s.o.ents[k]) { assert OwnsAt(s.o, k, LocOf(s.o.ents[k])); }
    }
    forall p: nat ensures DevOk(t, p) {
      assert DevOk(s, p);
      if p in s.o.where && s.o.where[p].Stored? { SlotOwned(s, p); }
    }
    forall id: nat, p: nat ensures LandedAt(t, id, p) {
      assert LandedAt(s, id, p) && FlyingAt(s.o, id, p);
      if p in s.o.where && s.o.where[p].Flying? { SlotOwned(s, p); }
    }
  }

  // ----- the whole system -----

  ghost predicate ObjOk(s: Sys, id: nat) { id in s.objs ==> Inv(View(s, id)) }

  /** No cluster belongs to two objects. */
  ghost predicate Apart(s: Sys, id: nat, id': nat, loc: Loc) {
    id in s.objs && id' in s.objs && id != id' ==> !(Owns(s.objs[id], loc) && Owns(s.objs[id'], loc))
  }

  ghost predicate SysInv(s: Sys) {
    && (forall id: nat :: ObjOk(s, id))
    && (forall id: nat, id': nat, loc: Loc :: Apart(s, id, id', loc))
  }

  lemma OwnedUsed(s: Sys, id: nat, loc: Loc)
    requires ObjOk(s, id) && id in s.objs && Owns(s.objs[id], loc)
    ensures loc in s.used
  {
    var k: nat :| OwnsAt(s.objs[id], k, loc);
    assert EntOk(View(s, id), k);
  }

  lemma OthersKeep(s: Sys, id: nat, a: Action, j: nat)
    requires SysInv(s) && Enabled(s, Object(id, a)) && j in s.objs && j != id
    ensures ObjOk(Apply(s, Object(id, a)), j)
  {
    var t, v := Apply(s, Object(id, a)), View(s, id);
    assert ObjOk(s, id) && ObjOk(s, j);
    forall loc: Loc | Owns(s.objs[j], loc) ensures loc in t.used {
      assert Apart(s, id, j, loc);
      OwnedUsed(s, j, loc);
      StepHarmless(v, a, loc);
    }
    forall x: Slot | x in s.dev && Owns(s.objs[j], x.loc) ensures x in t.dev && t.dev[x] == s.dev[x] {
      assert Apart(s, id, j, x.loc);
      OwnedUsed(s, j, x.loc);
      StepSlotSafe(v, a, x);
    }
    EnvKeeps(View(s, j), t.used, t.dev);
  }

  lemma StaysApart(s: Sys, id: nat, a: Action, i: nat, j: nat, loc: Loc)
    requires SysInv(s) && Enabled(s, Object(id, a))
    ensures Apart(Apply(s, Object(id, a)), i, j, loc)
  {
    assert Apart(s, i, j, loc) && ObjOk(s, i) && ObjOk(s, j) && ObjOk(s, id);
    StepHarmless(View(s, id), a, loc);
    if i == id && j in s.objs && Owns(s.objs[j], loc) { OwnedUsed(s, j, loc); }
    if j == id && i in s.objs && Owns(s.objs[i], loc) { OwnedUsed(s, i, loc); }
  }

  lemma ObjectKeeps(s: Sys, id: nat, a: Action)
    requires SysInv(s) && Enabled(s, Object(id, a))
    ensures SysInv(Apply(s, Object(id, a)))
  {
    var t := Apply(s, Object(id, a));
    forall j: nat ensures ObjOk(t, j) {
      assert ObjOk(s, j);
      if j == id { Proof.StepKeeps(View(s, id), a); } else if j in s.objs { OthersKeep(s, id, a, j); }
    }
    forall i: nat, j: nat, loc: Loc ensures Apart(t, i, j, loc) { StaysApart(s, id, a, i, j, loc); }
  }

  lemma NewObjOk(used: set<Loc>, dev: map<Slot, Data>, cls: nat, resident: set<nat>)
    requires cls > 0
    ensures Inv(St(NewObj(cls, resident), used, dev))
  {
    var s := St(NewObj(cls, resident), used, dev);
    P.InitOk();
    forall p: nat ensures PlaceOk(s.o, p) && ResOk(s.o, p) && AskOk(s.o, p) && BitsOk(s.o, p) && DevOk(s, p) {}
    forall n: nat, p: nat
      ensures UnsentAt(s.o, n, p) && FlyingAt(s.o, n, p) && AskedAt(s.o, n, p) && RunAt(s.o, n, p)
      ensures LandedAt(s, n, p) {}
    forall n: nat ensures WrOk(s.o, n) && IoOk(s.o, n) && RdOk(s.o, n) && LinkOk(s.o, n) && EntOk(s, n) {}
    forall k: nat, k': nat ensures OwnOk(s.o, k, k') {}
  }

  lemma CreateKeeps(s: Sys, id: nat, cls: nat, resident: set<nat>)
    requires SysInv(s) && Enabled(s, Create(id, cls, resident))
    ensures SysInv(Apply(s, Create(id, cls, resident)))
  {
    var t := Apply(s, Create(id, cls, resident));
    NewObjOk(s.used, s.dev, cls, resident);
    forall j: nat ensures ObjOk(t, j) { assert ObjOk(s, j); }
    forall i: nat, j: nat, loc: Loc ensures Apart(t, i, j, loc) { assert Apart(s, i, j, loc); }
  }

  lemma ClustersOwned(o: Obj, loc: Loc)
    ensures loc in Clusters(o.ents) ==> Owns(o, loc)
  {
    if loc in Clusters(o.ents) {
      var k: nat :| k < |o.ents| && Live(o.ents[k]) && LocOf(o.ents[k]) == loc;
      assert OwnsAt(o, k, loc);
    }
  }

  lemma DestroyKeeps(s: Sys, id: nat)
    requires SysInv(s) && Enabled(s, Destroy(id))
    ensures SysInv(Apply(s, Destroy(id)))
  {
    var t := Apply(s, Destroy(id));
    forall j: nat ensures ObjOk(t, j) {
      assert ObjOk(s, j);
      if j in t.objs {
        forall loc: Loc | Owns(s.objs[j], loc) ensures loc in t.used {
          OwnedUsed(s, j, loc);
          assert Apart(s, id, j, loc);
          ClustersOwned(s.objs[id], loc);
        }
        EnvKeeps(View(s, j), t.used, t.dev);
      }
    }
    forall i: nat, j: nat, loc: Loc ensures Apart(t, i, j, loc) { assert Apart(s, i, j, loc); }
  }

  lemma StepKeeps(s: Sys, e: Event)
    requires SysInv(s) && Enabled(s, e)
    ensures SysInv(Apply(s, e))
  {
    match e
    case Create(id, cls, resident) => CreateKeeps(s, id, cls, resident);
    case Destroy(id) => DestroyKeeps(s, id);
    case Object(id, a) => ObjectKeeps(s, id, a);
  }

  // ----- theorems over all runs -----

  ghost predicate IsRun(tr: seq<Sys>, ev: seq<Event>) {
    && |tr| == |ev| + 1 && tr[0] == Sys(map[], {}, map[])
    && forall i | 0 <= i < |ev| :: Enabled(tr[i], ev[i]) && tr[i + 1] == Apply(tr[i], ev[i])
  }

  lemma {:induction false} RunKeeps(tr: seq<Sys>, ev: seq<Event>, n: nat)
    requires IsRun(tr, ev) && n <= |ev|
    ensures SysInv(tr[n])
  {
    if n == 0 {
      forall id: nat ensures ObjOk(tr[0], id) {}
      forall id: nat, id': nat, loc: Loc ensures Apart(tr[0], id, id', loc) {}
    } else {
      RunKeeps(tr, ev, n - 1);
      StepKeeps(tr[n - 1], ev[n - 1]);
    }
  }

  // ----- no cluster is lost -----

  /** A cluster that is allocated after a step, and was the object's or free before it, is the
      object's. */
  ghost predicate Kept(s: St, t: St, loc: Loc) {
    loc in t.used && (loc !in s.used || Owns(s.o, loc)) ==> Owns(t.o, loc)
  }

  lemma UnmapKept(s: St, r: nat, loc: Loc)
    requires MapOk(s) && CanUnmap(s, r)
    ensures Kept(s, DoUnmap(s, r), loc)
  {
    var t, k := DoUnmap(s, r), Quot(s.o.rd[r].cur, s.o.cls);
    if j: nat :| OwnsAt(s.o, j, loc) {
      assert EntOk(s, j) && EntOk(s, k);
      if j != k || loc in t.used { assert OwnsAt(t.o, j, loc); }
    }
  }

  lemma WriteMapKept(s: St, w: nat, id: nat, got: Loc, loc: Loc)
    requires CanWriteMap(s, w, id, got)
    ensures Kept(s, DoWriteMap(s, w, id, got), loc)
  {
    var t, k := DoWriteMap(s, w, id, got), Quot(s.o.wr[w].cur, s.o.cls);
    Proof.MappedEnts(s, w, id, got, k);
    if loc in t.used && loc !in s.used { assert OwnsAt(t.o, k, loc); }
    if j: nat :| OwnsAt(s.o, j, loc) {
      Proof.MappedEnts(s, w, id, got, j);
      assert OwnsAt(t.o, j, loc);
    }
  }

  lemma StepKept(s: St, a: Action, loc: Loc)
    requires Inv(s) && PageStore.Enabled(s, a)
    ensures Kept(s, PageStore.Apply(s, a), loc)
  {
    var t := PageStore.Apply(s, a);
    match a
    case Unmap(r) => UnmapKept(s, r, loc);
    case WriteMap(w, id, got) => WriteMapKept(s, w, id, got, loc);
    case _ =>
      assert t.used == s.used;
      if j: nat :| OwnsAt(s.o, j, loc) { assert OwnsAt(t.o, j, loc); }
  }

  ghost predicate HasOwner(s: Sys, loc: Loc) { exists id: nat :: OwnedIn(s, id, loc) }

  ghost predicate OwnedIn(s: Sys, id: nat, loc: Loc) { id in s.objs && Owns(s.objs[id], loc) }

  lemma OwnerStays(s: Sys, e: Event, loc: Loc)
    requires SysInv(s) && Enabled(s, e) && loc in Apply(s, e).used && (loc in s.used ==> HasOwner(s, loc))
    ensures HasOwner(Apply(s, e), loc)
  {
    var t := Apply(s, e);
    if e.Object? {
      assert ObjOk(s, e.id);
      StepKept(View(s, e.id), e.a, loc);
    }
    if loc in s.used {
      var id: nat :| OwnedIn(s, id, loc);
      if e.Destroy? && e.id == id { OwnedIsCluster(s.objs[id], loc); }
      assert OwnedIn(t, id, loc);
    } else {
      assert OwnedIn(t, e.id, loc);
    }
  }

  lemma OwnedIsCluster(o: Obj, loc: Loc)
    requires Owns(o, loc)
    ensures loc in Clusters(o.ents)
  {
    var k: nat :| OwnsAt(o, k, loc);
  }

  lemma {:induction false} NoneLost(tr: seq<Sys>, ev: seq<Event>, n: nat, loc: Loc)
    requires IsRun(tr, ev) && n <= |ev| && loc in tr[n].used
    ensures HasOwner(tr[n], loc)
  {
    if n > 0 {
      RunKeeps(tr, ev, n - 1);
      if loc in tr[n - 1].used { NoneLost(tr, ev, n - 1, loc); }
      OwnerStays(tr[n - 1], ev[n - 1], loc);
    }
  }

  /** Over every run, a cluster is allocated exactly if the map of some object names it: none is
      lost by page in, page out or the end of an object. */
  lemma UsedIsOwned(tr: seq<Sys>, ev: seq<Event>, n: nat, loc: Loc)
    requires IsRun(tr, ev) && n <= |ev|
    ensures loc in tr[n].used <==> exists id: nat :: OwnedIn(tr[n], id, loc)
  {
    RunKeeps(tr, ev, n);
    if loc in tr[n].used { NoneLost(tr, ev, n, loc); }
    if id: nat :| OwnedIn(tr[n], id, loc) {
      assert ObjOk(tr[n], id);
      OwnedUsed(tr[n], id, loc);
    }
  }

  /** Page-bit discipline over every run: valid pages are allocated pages, unmapping gives a
      cluster back exactly when its last allocated page goes, and then no write to it is in
      flight. */
  lemma PageBitDiscipline(tr: seq<Sys>, ev: seq<Event>, n: nat, id: nat, r: nat, k: nat, io: nat)
    requires IsRun(tr, ev) && n < |ev| && ev[n] == Object(id, Unmap(r))
    requires id in tr[n].objs && k < |tr[n].objs[id].ents| && Live(tr[n].objs[id].ents[k])
    ensures id in tr[n + 1].objs && k < |tr[n + 1].objs[id].ents|
    ensures var e, e' := tr[n].objs[id].ents[k], tr[n + 1].objs[id].ents[k];
            && e.bmap <= e.alloc && e'.bmap <= e'.alloc
            && (LocOf(e) !in tr[n + 1].used <==> e'.alloc == {})
            && (e'.alloc == {} ==> e' == ClearEntry)
    ensures var o := tr[n].objs[id];
            tr[n + 1].objs[id].ents[k].alloc == {} && io in o.io && !o.io[io].st.Marked? ==>
              o.cls > 0 && Quot(o.io[io].lo, o.cls) != k
  {
    RunKeeps(tr, ev, n);
    RunKeeps(tr, ev, n + 1);
    var s, t := View(tr[n], id), View(tr[n + 1], id);
    assert ObjOk(tr[n], id) && ObjOk(tr[n + 1], id);
    assert EntOk(s, k) && EntOk(t, k);
    assert IoOk(t.o, io);
    UnmapEffect(s, r, k);
  }

  lemma UnmapEffect(s: St, r: nat, k: nat)
    requires CanUnmap(s, r) && k < |s.o.ents| && (forall j: nat :: EntOk(s, j))
             && (forall i: nat, j: nat :: OwnOk(s.o, i, j)) && Live(s.o.ents[k])
    ensures var t := DoUnmap(s, r);
            && t.o.io == s.o.io && t.o.cls == s.o.cls
            && (LocOf(s.o.ents[k]) !in t.used <==> t.o.ents[k].alloc == {})
            && (t.o.ents[k].alloc == {} ==> t.o.ents[k] == ClearEntry)
  {
    var k' := Quot(s.o.rd[r].cur, s.o.cls);
    assert EntOk(s, k) && EntOk(s, k') && OwnOk(s.o, k, k') && OwnOk(s.o, k', k);
  }

  /** The plain page store, read off the run: the contents of page p of object id according to
      the last thing that happened to it among the first n events - a data_return of the page,
      or its data being supplied back, or the object being created or destroyed. */
  ghost function Latest(tr: seq<Sys>, ev: seq<Event>, n: nat, id: nat, p: nat): Option<Data>
    requires IsRun(tr, ev) && n <= |ev|
  {
    if n == 0 then None
    else
      match Happens(tr[n - 1], ev[n - 1], id, p)
      case Some(contents) => contents
      case None => Latest(tr, ev, n - 1, id, p)
  }

  /** What an event does to page p of object id, if anything: it gives it contents or leaves the
      store without it. */
  ghost function Happens(s: Sys, e: Event, id: nat, p: nat): Option<Option<Data>>
    requires Enabled(s, e)
  {
    match e
    case Object(i, SendWrite(lo, data)) => if i == id && lo <= p < lo + |data| then Some(Some(data[p - lo])) else None
    case Object(i, Supply(r)) =>
      if i == id && s.objs[id].rd[r].cur <= p < s.objs[id].rd[r].cur + |s.objs[id].rd[r].st.data| then Some(None)
      else None
    case Create(i, _, _) => if i == id then Some(None) else None
    case Destroy(i) => if i == id then Some(None) else None
    case _ => None
  }

  function Lookup(m: map<nat, Data>, p: nat): Option<Data> { if p in m then Some(m[p]) else None }

  /** How one event changes the page map of an object that exists afterwards. */
  lemma StoreEvent(s: Sys, e: Event, id: nat, p: nat)
    requires Enabled(s, e) && id in Apply(s, e).objs
    ensures match Happens(s, e, id, p)
            case Some(contents) => Lookup(Apply(s, e).objs[id].store, p) == contents
            case None => id in s.objs && Lookup(Apply(s, e).objs[id].store, p) == Lookup(s.objs[id].store, p)
  {
    if e.Object? && e.id == id { StoreStep(View(s, id), e.a, p); }
  }

  lemma {:induction false} StoreIsLatest(tr: seq<Sys>, ev: seq<Event>, n: nat, id: nat, p: nat)
    requires IsRun(tr, ev) && n <= |ev| && id in tr[n].objs
    ensures Lookup(tr[n].objs[id].store, p) == Latest(tr, ev, n, id, p)
  {
    if n > 0 {
      if id in tr[n - 1].objs { StoreIsLatest(tr, ev, n - 1, id, p); }
      StoreEvent(tr[n - 1], ev[n - 1], id, p);
    }
  }

  /** How one step changes the plain page map of its object. */
  lemma StoreStep(s: St, a: Action, p: nat)
    requires PageStore.Enabled(s, a)
    ensures Lookup(PageStore.Apply(s, a).o.store, p) ==
            (match a
             case SendWrite(lo, data) => if lo <= p < lo + |data| then Some(data[p - lo]) else Lookup(s.o.store, p)
             case Supply(r) =>
               if s.o.rd[r].cur <= p < s.o.rd[r].cur + |s.o.rd[r].st.data| then None else Lookup(s.o.store, p)
             case _ => Lookup(s.o.store, p))
  {
  }

  /** Page-store refinement, supply side: in every run of any number of objects, the data
      supplied for a page is that of the latest data_return of the page. */
  lemma SuppliesLatest(tr: seq<Sys>, ev: seq<Event>, n: nat, id: nat, r: nat, p: nat)
    requires IsRun(tr, ev) && n < |ev| && ev[n] == Object(id, Supply(r))
    requires var x := tr[n].objs[id].rd[r]; x.cur <= p < x.cur + |x.st.data|
    ensures var x := tr[n].objs[id].rd[r]; Latest(tr, ev, n, id, p) == Some(x.st.data[p - x.cur])
  {
    RunKeeps(tr, ev, n);
    StoreIsLatest(tr, ev, n, id, p);
    var o := tr[n].objs[id];
    assert ObjOk(tr[n], id) && RunAt(o, r, p) && PlaceOk(o, p);
  }

  /** Page-store refinement, the other side: a page is reported unavailable only if it was
      never paged out, or if its data was supplied back after the last pageout. */
  lemma UnavailableIsAbsent(tr: seq<Sys>, ev: seq<Event>, n: nat, id: nat, r: nat, p: nat)
    requires IsRun(tr, ev) && n < |ev| && ev[n] == Object(id, ReplyUnavail(r))
    requires var x := tr[n].objs[id].rd[r]; x.cur <= p < x.cur + x.st.n
    ensures Latest(tr, ev, n, id, p) == None
  {
    RunKeeps(tr, ev, n);
    StoreIsLatest(tr, ev, n, id, p);
    var o := tr[n].objs[id];
    assert ObjOk(tr[n], id) && RunAt(o, r, p) && PlaceOk(o, p);
  }

  /** In every run, an object with unfinished requests or device writes can go on without the
      kernel, as long as some cluster is free. */
  lemma NeverStuck(tr: seq<Sys>, ev: seq<Event>, n: nat, id: nat, loc: Loc) returns (a: Action)
    requires IsRun(tr, ev) && n <= |ev| && id in tr[n].objs && loc !in tr[n].used && loc.cloff < ENTRY_NULL
    requires !P.Quiescent(tr[n].objs[id].vs) || tr[n].objs[id].io != map[]
    ensures Proof.IsPagers(a) && Enabled(tr[n], Object(id, a))
  {
    RunKeeps(tr, ev, n);
    assert ObjOk(tr[n], id);
    a := Proof.StoreProgress(View(tr[n], id), loc);
  }
}
