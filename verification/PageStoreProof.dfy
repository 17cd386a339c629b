/** Every step of module PageStore keeps its invariant. */
module PageStoreProof {
  import opened Options
  import opened Arith
  import opened ClusterMaps
  import opened PageStore
  import P = Protocol

  /** A request's number is below the port's next number. */
  lemma Numbered(o: Obj, n: nat)
    requires RequestsOk(o)
    ensures n in o.wr || n in o.rd ==> n < o.vs.next
  {
    assert WrOk(o, n) && RdOk(o, n) && P.ReqOk(o.vs, n);
  }

  // ----- SendWrite -----

  lemma SendWritePlaces(s: St, lo: nat, data: seq<Data>)
    requires PlacesOk(s.o) && CanSendWrite(s, lo, data) && s.o.vs.next !in s.o.wr
    ensures PlacesOk(DoSendWrite(s, lo, data).o)
  {
    var o, t := s.o, DoSendWrite(s, lo, data).o;
    forall p: nat ensures PlaceOk(t, p) { SendWritePlace(s, lo, data, p); }
    forall p: nat ensures ResOk(t, p) && AskOk(t, p) { assert ResOk(o, p) && AskOk(o, p); }
  }

  lemma SendWritePlace(s: St, lo: nat, data: seq<Data>, p: nat)
    requires PlaceOk(s.o, p) && s.o.vs.next !in s.o.wr
    ensures PlaceOk(DoSendWrite(s, lo, data).o, p)
  {
    SendWriteAt(s, lo, data, p);
  }

  /** Where the pages are after a pageout, and what the page map says. */
  lemma SendWriteAt(s: St, lo: nat, data: seq<Data>, p: nat)
    ensures var o, t := s.o, DoSendWrite(s, lo, data).o;
            if lo <= p < lo + |data|
            then p in t.where && t.where[p] == Unsent(o.vs.next) && p in t.store && t.store[p] == data[p - lo]
            else && (p in t.where <==> p in o.where) && (p in t.where ==> t.where[p] == o.where[p])
                 && (p in t.store <==> p in o.store) && (p in t.store ==> t.store[p] == o.store[p])
  {
  }

  lemma SendWritePairs(s: St, lo: nat, data: seq<Data>)
    requires Inv(s) && CanSendWrite(s, lo, data)
    ensures PairsOk(DoSendWrite(s, lo, data).o)
  {
    var o, t := s.o, DoSendWrite(s, lo, data).o;
    forall w: nat, p: nat ensures UnsentAt(t, w, p) { assert UnsentAt(o, w, p) && ResOk(o, p); }
    forall id: nat, p: nat ensures FlyingAt(t, id, p) { assert FlyingAt(o, id, p) && ResOk(o, p); }
    forall r: nat, p: nat ensures AskedAt(t, r, p) { assert AskedAt(o, r, p); }
    forall r: nat, p: nat ensures RunAt(t, r, p) {
      assert RunAt(o, r, p) && AskedAt(o, r, p) && ResOk(o, p) && RdOk(o, r);
    }
  }

  lemma SendWriteRequests(s: St, lo: nat, data: seq<Data>)
    requires Inv(s) && CanSendWrite(s, lo, data)
    ensures RequestsOk(DoSendWrite(s, lo, data).o)
  {
    var o, t, n := s.o, DoSendWrite(s, lo, data).o, s.o.vs.next;
    P.StepKeeps(o.vs, P.Arrive(P.DataReturn(PAGE * |data|)));
    assert P.ReqOk(o.vs, n);
    forall w: nat ensures WrOk(t, w) { assert WrOk(o, w); }
    forall id: nat ensures IoOk(t, id) {
      assert IoOk(o, id);
      if id in o.io && !o.io[id].async { assert WrOk(o, o.io[id].w); }
    }
    forall r: nat ensures RdOk(t, r) { assert RdOk(o, r); }
    forall m: nat ensures LinkOk(t, m) { assert LinkOk(o, m); }
  }

  lemma SendWriteMap(s: St, lo: nat, data: seq<Data>)
    requires Inv(s) && CanSendWrite(s, lo, data)
    ensures MapOk(DoSendWrite(s, lo, data))
  {
    var t := DoSendWrite(s, lo, data);
    forall p: nat ensures BitsOk(t.o, p) && DevOk(t, p) { assert BitsOk(s.o, p) && DevOk(s, p) && ResOk(s.o, p); }
    forall k: nat ensures EntOk(t, k) { assert EntOk(s, k); }
    forall k: nat, k': nat ensures OwnOk(t.o, k, k') { assert OwnOk(s.o, k, k'); }
    forall id: nat, p: nat ensures LandedAt(t, id, p) { assert LandedAt(s, id, p); }
  }

  // ----- SendRead -----

  lemma SendReadPlaces(s: St, lo: nat, hi: nat)
    requires Inv(s) && CanSendRead(s, lo, hi)
    ensures PlacesOk(DoSendRead(s, lo, hi).o)
  {
    var o, t := s.o, DoSendRead(s, lo, hi).o;
    Numbered(o, o.vs.next);
    forall p: nat ensures PlaceOk(t, p) && ResOk(t, p) && AskOk(t, p) {
      assert PlaceOk(o, p) && ResOk(o, p) && AskOk(o, p);
      if p in o.where && o.where[p].Unsent? { Numbered(o, o.where[p].w); }
      if p in o.where && o.where[p].Flying? { IoNumbered(o, o.where[p].id); }
    }
  }

  lemma SendReadPairs(s: St, lo: nat, hi: nat)
    requires Inv(s) && CanSendRead(s, lo, hi)
    ensures PairsOk(DoSendRead(s, lo, hi).o)
  {
    var o, t := s.o, DoSendRead(s, lo, hi).o;
    forall w: nat, p: nat ensures UnsentAt(t, w, p) { assert UnsentAt(o, w, p); }
    forall id: nat, p: nat ensures FlyingAt(t, id, p) { assert FlyingAt(o, id, p); }
    forall r: nat, p: nat ensures AskedAt(t, r, p) { assert AskedAt(o, r, p); }
    forall r: nat, p: nat ensures RunAt(t, r, p) { assert RunAt(o, r, p); }
  }

  lemma IoNumbered(o: Obj, id: nat)
    requires RequestsOk(o)
    ensures id in o.io ==> o.io[id].w < o.vs.next
  {
    assert IoOk(o, id) && P.IoOk(o.vs, id);
    if id in o.io { Numbered(o, o.io[id].w); }
  }

  lemma SendReadRequests(s: St, lo: nat, hi: nat)
    requires Inv(s) && CanSendRead(s, lo, hi)
    ensures RequestsOk(DoSendRead(s, lo, hi).o)
  {
    var o, t, n := s.o, DoSendRead(s, lo, hi).o, s.o.vs.next;
    P.StepKeeps(o.vs, P.Arrive(P.DataRequest));
    assert P.ReqOk(o.vs, n);
    forall w: nat ensures WrOk(t, w) { assert WrOk(o, w); }
    forall id: nat ensures IoOk(t, id) { assert IoOk(o, id); }
    forall r: nat ensures RdOk(t, r) { assert RdOk(o, r); }
    forall m: nat ensures LinkOk(t, m) { assert LinkOk(o, m); }
  }

  /** Steps that leave the cluster map, the device, the chunks and the places alone. */
  lemma MapSame(s: St, t: St)
    requires MapOk(s) && t.o.cls == s.o.cls && t.o.ents == s.o.ents && t.o.where == s.o.where && t.o.store == s.o.store
    requires t.used == s.used && t.dev == s.dev
    requires forall id | id in t.o.io :: t.o.io[id].st.Landed? ==> id in s.o.io && t.o.io[id] == s.o.io[id]
    ensures MapOk(t)
  {
    forall p: nat ensures BitsOk(t.o, p) && DevOk(t, p) { assert BitsOk(s.o, p) && DevOk(s, p); }
    forall k: nat ensures EntOk(t, k) { assert EntOk(s, k); }
    forall k: nat, k': nat ensures OwnOk(t.o, k, k') { assert OwnOk(s.o, k, k'); }
    forall id: nat, p: nat ensures LandedAt(t, id, p) { assert LandedAt(s, id, p); }
  }

  /** Steps that leave pages, requests' progress and readers' replies alone. */
  lemma PagesSame(o: Obj, t: Obj)
    requires PlacesOk(o) && PairsOk(o)
    requires t.where == o.where && t.store == o.store && t.asked == o.asked && t.resident <= o.resident && t.rd == o.rd
    requires forall w | w in t.wr ::
             w in o.wr && t.wr[w].lo == o.wr[w].lo && t.wr[w].data == o.wr[w].data && t.wr[w].cur == o.wr[w].cur
    requires forall w | w in o.wr && o.wr[w].cur < End(o.wr[w]) :: w in t.wr
    requires forall id | id in t.io ::
             id in o.io && t.io[id].w == o.io[id].w && t.io[id].lo == o.io[id].lo && t.io[id].data == o.io[id].data
                                       && t.io[id].st.Marked? == o.io[id].st.Marked?
    requires forall id | id in o.io && !o.io[id].st.Marked? :: id in t.io
    ensures PlacesOk(t) && PairsOk(t)
  {
    forall q: nat ensures PlaceOk(t, q) && ResOk(t, q) && AskOk(t, q) {
      assert PlaceOk(o, q) && ResOk(o, q) && AskOk(o, q);
    }
    forall w: nat, q: nat ensures UnsentAt(t, w, q) && FlyingAt(t, w, q) && AskedAt(t, w, q) && RunAt(t, w, q) {
      assert UnsentAt(o, w, q) && FlyingAt(o, w, q) && AskedAt(o, w, q) && RunAt(o, w, q);
    }
  }

  // ----- Drop, Thread -----

  lemma DropKeeps(s: St, p: nat)
    requires Inv(s)
    ensures Inv(DoDrop(s, p))
  {
    var o, t := s.o, DoDrop(s, p).o;
    MapSame(s, DoDrop(s, p));
    PagesSame(o, t);
    forall n: nat ensures WrOk(t, n) && IoOk(t, n) && RdOk(t, n) && LinkOk(t, n) {
      assert WrOk(o, n) && IoOk(o, n) && RdOk(o, n) && LinkOk(o, n);
    }
  }

  /** A critical section or broadcast moves requests forward but starts no body half-way. */
  lemma ThreadReq(vs: P.Vs, a: P.Action, n: nat)
    requires P.Inv(vs) && P.Enabled(vs, a)
             && (a.Run? || a.Broadcast? || (a.Arrive? && (a.kind.Terminate? || a.kind.Plain?)))
    ensures var us := P.Apply(vs, a);
            && us.ios == vs.ios
            && (n in vs.reqs ==>
                  && n in us.reqs && us.reqs[n].kind == vs.reqs[n].kind
                  && (vs.reqs[n].pc.Body? || vs.reqs[n].pc.Done? ==> us.reqs[n].pc == vs.reqs[n].pc)
                  && (us.reqs[n].pc.Done? && !vs.reqs[n].pc.Done? ==>
                    !vs.reqs[n].kind.DataRequest? && !vs.reqs[n].kind.DataReturn?)
                  && (us.reqs[n].pc.Body? && !vs.reqs[n].pc.Body? && vs.reqs[n].kind.DataReturn? ==>
                    us.reqs[n].pc.left == vs.reqs[n].kind.cnt))
            && (n in us.reqs && n !in vs.reqs ==> us.reqs[n].kind.Terminate? || us.reqs[n].kind.Plain?)
  {
    assert P.ReqOk(vs, n);
    if a.Arrive? { assert P.ReqOk(vs, vs.next); }
    if a.Run? { assert P.ReqOk(vs, a.n); }
  }

  lemma ThreadRequests(s: St, a: P.Action)
    requires RequestsOk(s.o) && CanThread(s, a)
    ensures RequestsOk(DoThread(s, a).o)
  {
    var o, t := s.o, DoThread(s, a).o;
    P.StepKeeps(o.vs, a);
    forall n: nat ensures WrOk(t, n) && IoOk(t, n) && RdOk(t, n) && LinkOk(t, n) {
      ThreadReq(o.vs, a, n);
      assert WrOk(o, n) && IoOk(o, n) && RdOk(o, n) && LinkOk(o, n);
    }
  }

  lemma ThreadKeeps(s: St, a: P.Action)
    requires Inv(s) && CanThread(s, a)
    ensures Inv(DoThread(s, a))
  {
    ThreadRequests(s, a);
    MapSame(s, DoThread(s, a));
    PagesSame(s.o, DoThread(s, a).o);
  }

  // ----- WriteMap -----

  /** The map after ps_clmap(CL_ALLOC): one entry changed, and a live one kept its cluster. */
  lemma MappedEnts(s: St, w: nat, id: nat, loc: Loc, j: nat)
    requires CanWriteMap(s, w, id, loc)
    ensures var o := s.o; var t := DoWriteMap(s, w, id, loc).o; var k := Quot(o.wr[w].cur, o.cls);
            && k < |t.ents|
            && (j != k ==> At(t.ents, j) == At(o.ents, j))
            && (j < |t.ents| <==> j < |o.ents| || j <= k)
            && At(t.ents, k) == Allocated(At(o.ents, k), loc, Bits(Rem(o.wr[w].cur, o.cls), ChunkLen(o, o.wr[w])))
  {
    var o, k := s.o, Quot(s.o.wr[w].cur, s.o.cls);
    var ents := Extended(o.ents, k + 1);
    assert At(ents, k) == At(o.ents, k) && At(ents, j) == At(o.ents, j);
  }

  lemma WriteMapPlaces(s: St, w: nat, id: nat, loc: Loc)
    requires PlacesOk(s.o) && PairsOk(s.o) && CanWriteMap(s, w, id, loc)
    ensures PlacesOk(DoWriteMap(s, w, id, loc).o)
  {
    var o, t := s.o, DoWriteMap(s, w, id, loc).o;
    forall p: nat ensures PlaceOk(t, p) && ResOk(t, p) && AskOk(t, p) {
      assert PlaceOk(o, p) && ResOk(o, p) && AskOk(o, p) && UnsentAt(o, w, p);
    }
  }

  lemma WriteMapPairs(s: St, w: nat, id: nat, loc: Loc)
    requires PairsOk(s.o) && CanWriteMap(s, w, id, loc)
    ensures PairsOk(DoWriteMap(s, w, id, loc).o)
  {
    var o, t := s.o, DoWriteMap(s, w, id, loc).o;
    forall v: nat, p: nat ensures UnsentAt(t, v, p) { assert UnsentAt(o, v, p) && UnsentAt(o, w, p); }
    forall i: nat, p: nat ensures FlyingAt(t, i, p) { assert FlyingAt(o, i, p) && UnsentAt(o, w, p); }
    forall r: nat, p: nat ensures AskedAt(t, r, p) { assert AskedAt(o, r, p); }
    forall r: nat, p: nat ensures RunAt(t, r, p) { assert RunAt(o, r, p) && UnsentAt(o, w, p); }
  }

  lemma WriteMapWr(s: St, w: nat, id: nat, loc: Loc, v: nat)
    requires WrOk(s.o, v) && WrOk(s.o, w) && CanWriteMap(s, w, id, loc)
    ensures WrOk(DoWriteMap(s, w, id, loc).o, v)
  {
  }

  lemma WriteMapIo(s: St, w: nat, id: nat, loc: Loc, i: nat)
    requires IoOk(s.o, i) && IoOk(s.o, id) && CanWriteMap(s, w, id, loc) && EntOk(s, Quot(s.o.wr[w].cur, s.o.cls))
    ensures IoOk(DoWriteMap(s, w, id, loc).o, i)
  {
    MappedEnts(s, w, id, loc, if i in s.o.io then Quot(s.o.io[i].lo, s.o.cls) else 0);
  }

  lemma WriteMapRd(s: St, w: nat, id: nat, loc: Loc, r: nat)
    requires RdOk(s.o, r) && CanWriteMap(s, w, id, loc)
    ensures RdOk(DoWriteMap(s, w, id, loc).o, r)
  {
    MappedEnts(s, w, id, loc, if r in s.o.rd then Quot(s.o.rd[r].cur, s.o.cls) else 0);
  }

  lemma WriteMapRequests(s: St, w: nat, id: nat, loc: Loc)
    requires RequestsOk(s.o) && MapOk(s) && CanWriteMap(s, w, id, loc)
    ensures RequestsOk(DoWriteMap(s, w, id, loc).o)
  {
    var o, t := s.o, DoWriteMap(s, w, id, loc).o;
    assert EntOk(s, Quot(o.wr[w].cur, o.cls));
    forall n: nat ensures WrOk(t, n) && IoOk(t, n) && RdOk(t, n) && LinkOk(t, n) {
      assert LinkOk(o, n);
      WriteMapWr(s, w, id, loc, n);
      WriteMapIo(s, w, id, loc, n);
      WriteMapRd(s, w, id, loc, n);
    }
  }

  lemma WriteMapBits(s: St, w: nat, id: nat, loc: Loc, p: nat)
    requires PairsOk(s.o) && MapOk(s) && CanWriteMap(s, w, id, loc)
    ensures BitsOk(DoWriteMap(s, w, id, loc).o, p)
  {
    var o, x := s.o, s.o.wr[w];
    assert BitsOk(o, p) && UnsentAt(o, w, p) && EntOk(s, Quot(x.cur, o.cls));
    MappedEnts(s, w, id, loc, Quot(p, o.cls));
    ChunkPages(o.cls, x.cur, ChunkLen(o, x), p);
  }

  lemma WriteMapEnts(s: St, w: nat, id: nat, loc: Loc, j: nat)
    requires MapOk(s) && CanWriteMap(s, w, id, loc)
    ensures EntOk(DoWriteMap(s, w, id, loc), j)
  {
    var o, x := s.o, s.o.wr[w];
    assert EntOk(s, j) && EntOk(s, Quot(x.cur, o.cls));
    MappedEnts(s, w, id, loc, j);
    assert Rem(x.cur, o.cls) in Bits(Rem(x.cur, o.cls), ChunkLen(o, x));
  }

  lemma WriteMapOwn(s: St, w: nat, id: nat, loc: Loc, j: nat, j': nat)
    requires MapOk(s) && CanWriteMap(s, w, id, loc)
    ensures OwnOk(DoWriteMap(s, w, id, loc).o, j, j')
  {
    var o, k := s.o, Quot(s.o.wr[w].cur, s.o.cls);
    assert OwnOk(o, j, j') && EntOk(s, j) && EntOk(s, j');
    MappedEnts(s, w, id, loc, j);
    MappedEnts(s, w, id, loc, j');
  }

  lemma WriteMapDev(s: St, w: nat, id: nat, loc: Loc, p: nat)
    requires PairsOk(s.o) && MapOk(s) && CanWriteMap(s, w, id, loc)
    ensures DevOk(DoWriteMap(s, w, id, loc), p)
  {
    assert DevOk(s, p) && BitsOk(s.o, p) && EntOk(s, Quot(p, s.o.cls)) && UnsentAt(s.o, w, p);
    MappedEnts(s, w, id, loc, Quot(p, s.o.cls));
  }

  lemma WriteMapLanded(s: St, w: nat, id: nat, loc: Loc, i: nat, p: nat)
    requires RequestsOk(s.o) && MapOk(s) && CanWriteMap(s, w, id, loc)
    ensures LandedAt(DoWriteMap(s, w, id, loc), i, p)
  {
    assert LandedAt(s, i, p) && IoOk(s.o, i);
    MappedEnts(s, w, id, loc, Quot(p, s.o.cls));
    if i in s.o.io { ChunkPages(s.o.cls, s.o.io[i].lo, |s.o.io[i].data|, p); }
  }

  lemma WriteMapMap(s: St, w: nat, id: nat, loc: Loc)
    requires Inv(s) && CanWriteMap(s, w, id, loc)
    ensures MapOk(DoWriteMap(s, w, id, loc))
  {
    var t := DoWriteMap(s, w, id, loc);
    forall p: nat ensures BitsOk(t.o, p) && DevOk(t, p) {
      WriteMapBits(s, w, id, loc, p);
      WriteMapDev(s, w, id, loc, p);
    }
    forall k: nat ensures EntOk(t, k) { WriteMapEnts(s, w, id, loc, k); }
    forall k: nat, k': nat ensures OwnOk(t.o, k, k') { WriteMapOwn(s, w, id, loc, k, k'); }
    forall i: nat, p: nat ensures LandedAt(t, i, p) { WriteMapLanded(s, w, id, loc, i, p); }
  }

  // ----- WriteIssue -----

  lemma WriteIssueWr(s: St, w: nat, async: bool, v: nat)
    requires CanWriteIssue(s, w) && P.Enabled(s.o.vs, IssueAction(s, w, async))
    requires WrOk(s.o, v) && WrOk(s.o, w) && LinkOk(s.o, v) && RdOk(s.o, v)
    ensures var t := DoWriteIssue(s, w, async).o; WrOk(t, v) && LinkOk(t, v) && RdOk(t, v)
  {
  }

  lemma WriteIssueIo(s: St, w: nat, async: bool, i: nat)
    requires CanWriteIssue(s, w) && P.Enabled(s.o.vs, IssueAction(s, w, async))
    requires IoOk(s.o, i) && IoOk(s.o, s.o.wr[w].busy.value) && WrOk(s.o, w)
    ensures IoOk(DoWriteIssue(s, w, async).o, i)
  {
  }

  lemma WriteIssueRequests(s: St, w: nat, async: bool)
    requires RequestsOk(s.o) && CanWriteIssue(s, w) && P.Enabled(s.o.vs, IssueAction(s, w, async))
    ensures RequestsOk(DoWriteIssue(s, w, async).o)
  {
    var t := DoWriteIssue(s, w, async).o;
    P.StepKeeps(s.o.vs, IssueAction(s, w, async));
    forall n: nat ensures WrOk(t, n) && IoOk(t, n) && RdOk(t, n) && LinkOk(t, n) {
      WriteIssueWr(s, w, async, n);
      WriteIssueIo(s, w, async, n);
    }
  }

  /** The protocol always lets the body issue the chunk it has mapped, asynchronously or not. */
  lemma IssueEnabled(s: St, w: nat, async: bool)
    requires RequestsOk(s.o) && CanWriteIssue(s, w)
    ensures P.Enabled(s.o.vs, IssueAction(s, w, async)) && Enabled(s, WriteIssue(w, async))
  {
    assert WrOk(s.o, w) && IoOk(s.o, s.o.wr[w].busy.value);
  }

  lemma WriteIssueKeeps(s: St, w: nat, async: bool)
    requires Inv(s) && CanWriteIssue(s, w) && P.Enabled(s.o.vs, IssueAction(s, w, async))
    ensures Inv(DoWriteIssue(s, w, async))
  {
    WriteIssueRequests(s, w, async);
    MapSame(s, DoWriteIssue(s, w, async));
    PagesSame(s.o, DoWriteIssue(s, w, async).o);
  }

  // ----- Land -----

  /** A write to the device does not disturb any page but those of its own chunk. */
  lemma LandElsewhere(s: St, id: nat, p: nat)
    requires MapOk(s) && RequestsOk(s.o) && CanLand(s, id) && Live(EntAt(s.o, p)) && Quot(p, s.o.cls) < |s.o.ents|
    requires !(s.o.io[id].lo <= p < s.o.io[id].lo + |s.o.io[id].data|)
    requires SlotAt(s.o, p) in s.dev
    ensures SlotAt(s.o, p) in DoLand(s, id).dev && DoLand(s, id).dev[SlotAt(s.o, p)] == s.dev[SlotAt(s.o, p)]
  {
    var o, x := s.o, s.o.io[id];
    assert IoOk(o, id) && OwnOk(o, Quot(p, o.cls), Quot(x.lo, o.cls)) && OwnOk(o, Quot(x.lo, o.cls), Quot(p, o.cls));
    ChunkPages(o.cls, x.lo, |x.data|, p);
  }

  lemma LandDev(s: St, id: nat, p: nat)
    requires Inv(s) && CanLand(s, id)
    ensures DevOk(DoLand(s, id), p)
  {
    var o := s.o;
    assert DevOk(s, p) && FlyingAt(o, id, p) && BitsOk(o, p) && EntOk(s, Quot(p, o.cls));
    if p in o.where && o.where[p].Stored? { LandElsewhere(s, id, p); }
  }

  lemma LandOwn(s: St, id: nat, p: nat)
    requires IoOk(s.o, id) && CanLand(s, id)
    ensures LandedAt(DoLand(s, id), id, p)
  {
    var x := s.o.io[id];
    if x.lo <= p < x.lo + |x.data| { ChunkPages(s.o.cls, x.lo, |x.data|, p); }
  }

  lemma LandOther(s: St, id: nat, i: nat, p: nat)
    requires MapOk(s) && RequestsOk(s.o) && CanLand(s, id) && i != id && LandedAt(s, i, p) && IoOk(s.o, i)
    requires FlyingAt(s.o, id, p) && FlyingAt(s.o, i, p)
    ensures LandedAt(DoLand(s, id), i, p)
  {
    var o := s.o;
    if i in o.io && o.io[i].st.Landed? && o.io[i].lo <= p < o.io[i].lo + |o.io[i].data| {
      ChunkPages(o.cls, o.io[i].lo, |o.io[i].data|, p);
      LandElsewhere(s, id, p);
    }
  }

  lemma LandLanded(s: St, id: nat, i: nat, p: nat)
    requires Inv(s) && CanLand(s, id)
    ensures LandedAt(DoLand(s, id), i, p)
  {
    var o := s.o;
    assert IoOk(o, id) && IoOk(o, i) && LandedAt(s, i, p) && FlyingAt(o, id, p) && FlyingAt(o, i, p);
    if i == id { LandOwn(s, id, p); } else { LandOther(s, id, i, p); }
  }

  lemma LandRequests(s: St, id: nat)
    requires RequestsOk(s.o) && CanLand(s, id)
    ensures RequestsOk(DoLand(s, id).o)
  {
    var o, t := s.o, DoLand(s, id).o;
    forall n: nat ensures WrOk(t, n) && IoOk(t, n) && RdOk(t, n) && LinkOk(t, n) {
      assert WrOk(o, n) && IoOk(o, n) && RdOk(o, n) && LinkOk(o, n);
    }
  }

  lemma LandKeeps(s: St, id: nat)
    requires Inv(s) && CanLand(s, id)
    ensures Inv(DoLand(s, id))
  {
    var t := DoLand(s, id);
    PagesSame(s.o, t.o);
    LandRequests(s, id);
    forall p: nat ensures BitsOk(t.o, p) && DevOk(t, p) { assert BitsOk(s.o, p); LandDev(s, id, p); }
    forall k: nat ensures EntOk(t, k) { assert EntOk(s, k); }
    forall k: nat, k': nat ensures OwnOk(t.o, k, k') { assert OwnOk(s.o, k, k'); }
    forall i: nat, p: nat ensures LandedAt(t, i, p) { LandLanded(s, id, i, p); }
  }

  // ----- Mark -----

  lemma MarkPlaces(s: St, id: nat)
    requires PlacesOk(s.o) && PairsOk(s.o) && CanMark(s, id)
    ensures PlacesOk(DoMark(s, id).o)
  {
    var o, t := s.o, DoMark(s, id).o;
    forall p: nat ensures PlaceOk(t, p) && ResOk(t, p) && AskOk(t, p) {
      assert PlaceOk(o, p) && ResOk(o, p) && AskOk(o, p) && FlyingAt(o, id, p);
    }
  }

  lemma MarkPairs(s: St, id: nat)
    requires PairsOk(s.o) && CanMark(s, id)
    ensures PairsOk(DoMark(s, id).o)
  {
    var o, t := s.o, DoMark(s, id).o;
    forall n: nat, p: nat ensures UnsentAt(t, n, p) && FlyingAt(t, n, p) && AskedAt(t, n, p) && RunAt(t, n, p) {
      assert UnsentAt(o, n, p) && FlyingAt(o, n, p) && AskedAt(o, n, p) && RunAt(o, n, p) && FlyingAt(o, id, p);
    }
  }

  lemma MarkRequests(s: St, id: nat)
    requires RequestsOk(s.o) && CanMark(s, id)
    ensures RequestsOk(DoMark(s, id).o)
  {
    var o, t := s.o, DoMark(s, id).o;
    forall n: nat ensures WrOk(t, n) && IoOk(t, n) && RdOk(t, n) && LinkOk(t, n) {
      assert WrOk(o, n) && IoOk(o, n) && RdOk(o, n) && LinkOk(o, n);
    }
  }

  lemma MarkPage(s: St, id: nat, p: nat)
    requires Inv(s) && CanMark(s, id)
    ensures BitsOk(DoMark(s, id).o, p) && DevOk(DoMark(s, id), p)
  {
    var o, x := s.o, s.o.io[id];
    assert BitsOk(o, p) && DevOk(s, p) && FlyingAt(o, id, p) && LandedAt(s, id, p) && IoOk(o, id) && PlaceOk(o, p);
    ChunkPages(o.cls, x.lo, |x.data|, p);
  }

  lemma MarkEnt(s: St, id: nat, k: nat)
    requires Inv(s) && CanMark(s, id)
    ensures EntOk(DoMark(s, id), k)
  {
    var o, x := s.o, s.o.io[id];
    assert EntOk(s, k) && IoOk(o, id);
    if k == Quot(x.lo, o.cls) {
      forall i | i in Bits(Rem(x.lo, o.cls), |x.data|) ensures i in o.ents[k].alloc {
        var p := x.lo + i - Rem(x.lo, o.cls);
        ChunkPages(o.cls, x.lo, |x.data|, p);
        assert FlyingAt(o, id, p) && BitsOk(o, p);
      }
    }
  }

  lemma MarkMap(s: St, id: nat)
    requires Inv(s) && CanMark(s, id)
    ensures MapOk(DoMark(s, id))
  {
    var o, t := s.o, DoMark(s, id);
    forall p: nat ensures BitsOk(t.o, p) && DevOk(t, p) { MarkPage(s, id, p); }
    forall k: nat ensures EntOk(t, k) { MarkEnt(s, id, k); }
    forall k: nat, k': nat ensures OwnOk(t.o, k, k') { assert OwnOk(o, k, k'); }
    forall i: nat, p: nat ensures LandedAt(t, i, p) { MarkLanded(s, id, i, p); }
  }

  lemma MarkLanded(s: St, id: nat, i: nat, p: nat)
    requires CanMark(s, id) && LandedAt(s, i, p)
    ensures LandedAt(DoMark(s, id), i, p)
  {
  }

  lemma MarkKeeps(s: St, id: nat)
    requires Inv(s) && CanMark(s, id)
    ensures Inv(DoMark(s, id))
  {
    MarkPlaces(s, id);
    MarkPairs(s, id);
    MarkRequests(s, id);
    MarkMap(s, id);
  }

  // ----- Retire, WriteFinish -----

  lemma RetireRequests(s: St, id: nat)
    requires RequestsOk(s.o) && CanRetire(s, id)
    ensures RequestsOk(DoRetire(s, id).o)
  {
    var o, t := s.o, DoRetire(s, id).o;
    if o.io[id].async { P.StepKeeps(o.vs, P.Complete(id)); }
    assert IoOk(o, id);
    forall n: nat ensures WrOk(t, n) && RdOk(t, n) && LinkOk(t, n) { assert WrOk(o, n) && RdOk(o, n) && LinkOk(o, n); }
    forall i: nat ensures IoOk(t, i) { assert IoOk(o, i); }
  }

  lemma RetireKeeps(s: St, id: nat)
    requires Inv(s) && CanRetire(s, id)
    ensures Inv(DoRetire(s, id))
  {
    RetireRequests(s, id);
    MapSame(s, DoRetire(s, id));
    PagesSame(s.o, DoRetire(s, id).o);
  }

  lemma WriteFinishRequests(s: St, w: nat)
    requires RequestsOk(s.o) && CanWriteFinish(s, w)
    ensures RequestsOk(DoWriteFinish(s, w).o)
  {
    var o, t := s.o, DoWriteFinish(s, w).o;
    P.StepKeeps(o.vs, P.FinishWrite(w));
    forall n: nat ensures WrOk(t, n) && IoOk(t, n) && RdOk(t, n) && LinkOk(t, n) {
      assert WrOk(o, n) && IoOk(o, n) && RdOk(o, n) && LinkOk(o, n);
    }
  }

  lemma WriteFinishKeeps(s: St, w: nat)
    requires Inv(s) && CanWriteFinish(s, w)
    ensures Inv(DoWriteFinish(s, w))
  {
    WriteFinishRequests(s, w);
    MapSame(s, DoWriteFinish(s, w));
    PagesSame(s.o, DoWriteFinish(s, w).o);
  }

  // ----- Lookup -----

  /** What a lookup reports about a page agrees with where the page is. */
  lemma LookupRun(s: St, r: nat, p: nat)
    requires PairsOk(s.o) && RequestsOk(s.o) && MapOk(s) && CanLookup(s, r)
    ensures var x := s.o.rd[r]; var st := LookUp(s.o, x);
            && (st.Unavail? || st.Found?) && 0 < RunLen(st) && x.cur + RunLen(st) <= x.hi
            && Rem(x.cur, s.o.cls) + RunLen(st) <= s.o.cls
            && (x.cur <= p < x.cur + RunLen(st) ==> (st.Found? <==> Rem(p, s.o.cls) in EntAt(s.o, p).bmap))
  {
    var o, x := s.o, s.o.rd[r];
    assert EntOk(s, Quot(x.cur, o.cls));
    ChunkPages(o.cls, x.cur, RunLen(LookUp(o, x)), p);
  }

  /** When a reader's body runs, none of its pages is on its way to the device. */
  lemma ReaderSees(s: St, r: nat, p: nat)
    requires Inv(s) && r in s.o.rd && InBody(s.o, r) && s.o.rd[r].cur <= p < s.o.rd[r].hi
    ensures p in s.o.where ==> s.o.where[p].Stored? || s.o.where[p] == Held(r)
  {
    var o := s.o;
    assert AskedAt(o, r, p) && AskOk(o, p) && PlaceOk(o, p) && RdOk(o, r) && P.ReqOk(o.vs, r);
    var id := if p in o.where && o.where[p].Flying? then o.where[p].id else 0;
    var w := if p in o.where && o.where[p].Unsent? then o.where[p].w else if id in o.io then o.io[id].w else 0;
    var r' := if p in o.where && o.where[p].Held? then o.where[p].r else r;
    assert WrOk(o, w) && P.WriteOver(o.vs, w, r) && IoOk(o, id) && P.IoOver(o.vs, id, r);
    assert AskedAt(o, r', p) && RdOk(o, r');
  }

  lemma LookupRunAt(s: St, r: nat, r': nat, p: nat)
    requires Inv(s) && CanLookup(s, r)
    ensures RunAt(DoLookup(s, r).o, r', p)
  {
    var o := s.o;
    assert RunAt(o, r', p);
    LookupRun(s, r, p);
    if r' == r && o.rd[r].cur <= p < o.rd[r].cur + RunLen(LookUp(o, o.rd[r])) {
      ReaderSees(s, r, p);
      assert BitsOk(o, p) && PlaceOk(o, p);
    }
  }

  lemma LookupPages(s: St, r: nat)
    requires Inv(s) && CanLookup(s, r)
    ensures PlacesOk(DoLookup(s, r).o) && PairsOk(DoLookup(s, r).o)
  {
    var o, t := s.o, DoLookup(s, r).o;
    forall p: nat ensures PlaceOk(t, p) && ResOk(t, p) && AskOk(t, p) {
      assert PlaceOk(o, p) && ResOk(o, p) && AskOk(o, p);
    }
    forall n: nat, p: nat ensures UnsentAt(t, n, p) && FlyingAt(t, n, p) && AskedAt(t, n, p) && RunAt(t, n, p) {
      assert UnsentAt(o, n, p) && FlyingAt(o, n, p) && AskedAt(o, n, p);
      LookupRunAt(s, r, n, p);
    }
  }

  lemma LookupRequests(s: St, r: nat)
    requires Inv(s) && CanLookup(s, r)
    ensures RequestsOk(DoLookup(s, r).o)
  {
    var o, t := s.o, DoLookup(s, r).o;
    LookupRun(s, r, o.rd[r].cur);
    assert EntOk(s, Quot(o.rd[r].cur, o.cls));
    forall n: nat ensures WrOk(t, n) && IoOk(t, n) && RdOk(t, n) && LinkOk(t, n) {
      assert WrOk(o, n) && IoOk(o, n) && RdOk(o, n) && LinkOk(o, n);
    }
  }

  lemma LookupKeeps(s: St, r: nat)
    requires Inv(s) && CanLookup(s, r)
    ensures Inv(DoLookup(s, r))
  {
    LookupPages(s, r);
    LookupRequests(s, r);
    MapSame(s, DoLookup(s, r));
  }

  // ----- ReplyUnavail, Supply -----

  lemma ReplyUnavailPages(s: St, r: nat)
    requires PlacesOk(s.o) && PairsOk(s.o) && RdOk(s.o, r) && CanReplyUnavail(s, r)
    ensures PlacesOk(DoReplyUnavail(s, r).o) && PairsOk(DoReplyUnavail(s, r).o)
  {
    var o, t := s.o, DoReplyUnavail(s, r).o;
    forall p: nat ensures PlaceOk(t, p) && ResOk(t, p) && AskOk(t, p) {
      assert PlaceOk(o, p) && ResOk(o, p) && AskOk(o, p) && AskedAt(o, r, p) && RunAt(o, r, p);
    }
    forall n: nat, p: nat ensures UnsentAt(t, n, p) && FlyingAt(t, n, p) && AskedAt(t, n, p) && RunAt(t, n, p) {
      assert UnsentAt(o, n, p) && FlyingAt(o, n, p) && AskedAt(o, n, p) && RunAt(o, n, p) && AskedAt(o, r, p);
    }
  }

  lemma ReplyUnavailKeeps(s: St, r: nat)
    requires Inv(s) && CanReplyUnavail(s, r)
    ensures Inv(DoReplyUnavail(s, r))
  {
    var o, t := s.o, DoReplyUnavail(s, r).o;
    assert RdOk(o, r);
    ReplyUnavailPages(s, r);
    MapSame(s, DoReplyUnavail(s, r));
    forall n: nat ensures WrOk(t, n) && IoOk(t, n) && RdOk(t, n) && LinkOk(t, n) {
      assert WrOk(o, n) && IoOk(o, n) && RdOk(o, n) && LinkOk(o, n);
    }
  }

  lemma SupplyPlaces(s: St, r: nat)
    requires PlacesOk(s.o) && PairsOk(s.o) && RdOk(s.o, r) && CanSupply(s, r)
    ensures PlacesOk(DoSupply(s, r).o)
  {
    var o, t := s.o, DoSupply(s, r).o;
    forall p: nat ensures PlaceOk(t, p) && ResOk(t, p) && AskOk(t, p) {
      assert PlaceOk(o, p) && ResOk(o, p) && AskOk(o, p) && AskedAt(o, r, p) && RunAt(o, r, p);
    }
  }

  lemma SupplyPairs(s: St, r: nat)
    requires PlacesOk(s.o) && PairsOk(s.o) && RequestsOk(s.o) && CanSupply(s, r)
    ensures PairsOk(DoSupply(s, r).o)
  {
    var o, t := s.o, DoSupply(s, r).o;
    assert RdOk(o, r);
    forall n: nat, p: nat ensures UnsentAt(t, n, p) && FlyingAt(t, n, p) {
      assert UnsentAt(o, n, p) && FlyingAt(o, n, p) && RunAt(o, r, p);
    }
    forall n: nat, p: nat ensures AskedAt(t, n, p) && RunAt(t, n, p) {
      assert AskedAt(o, n, p) && RunAt(o, n, p) && RunAt(o, r, p) && AskedAt(o, r, p) && RdOk(o, n);
    }
  }

  lemma SupplyMap(s: St, r: nat)
    requires PairsOk(s.o) && MapOk(s) && CanSupply(s, r)
    ensures MapOk(DoSupply(s, r))
  {
    var t := DoSupply(s, r);
    forall p: nat ensures BitsOk(t.o, p) && DevOk(t, p) { assert BitsOk(s.o, p) && DevOk(s, p) && RunAt(s.o, r, p); }
    forall k: nat ensures EntOk(t, k) { assert EntOk(s, k); }
    forall k: nat, k': nat ensures OwnOk(t.o, k, k') { assert OwnOk(s.o, k, k'); }
    forall id: nat, p: nat ensures LandedAt(t, id, p) { assert LandedAt(s, id, p); }
  }

  lemma SupplyKeeps(s: St, r: nat)
    requires Inv(s) && CanSupply(s, r)
    ensures Inv(DoSupply(s, r))
  {
    var o, t := s.o, DoSupply(s, r).o;
    assert RdOk(o, r);
    SupplyPlaces(s, r);
    SupplyPairs(s, r);
    SupplyMap(s, r);
    forall n: nat ensures WrOk(t, n) && IoOk(t, n) && RdOk(t, n) && LinkOk(t, n) {
      assert WrOk(o, n) && IoOk(o, n) && RdOk(o, n) && LinkOk(o, n);
    }
  }

  // ----- DevRead -----

  /** Reading the slots of a run gives the stored contents of its pages. */
  lemma FetchPage(s: St, r: nat, p: nat)
    requires CanDevRead(s, r) && RdOk(s.o, r) && DevOk(s, p) && p in s.o.where && s.o.where[p].Stored?
    requires var x := s.o.rd[r]; x.cur <= p < x.cur + x.st.n
    ensures var x := s.o.rd[r];
            p in s.o.store && Fetch(s.dev, x.st.loc, Rem(x.cur, s.o.cls), x.st.n)[p - x.cur] == s.o.store[p]
  {
    var o, x := s.o, s.o.rd[r];
    ChunkPages(o.cls, x.cur, x.st.n, p);
    var j := p - x.cur;
    assert SlotAt(o, p) == Slot(x.st.loc, Rem(x.cur, o.cls) + j);
    assert Fetch(s.dev, x.st.loc, Rem(x.cur, o.cls), x.st.n)[j] == Get(s.dev, SlotAt(o, p));
  }

  lemma DevReadRunAt(s: St, r: nat, r': nat, p: nat)
    requires PairsOk(s.o) && RdOk(s.o, r) && DevOk(s, p) && CanDevRead(s, r)
    ensures RunAt(DoDevRead(s, r).o, r', p)
  {
    var x := s.o.rd[r];
    assert RunAt(s.o, r', p);
    if r' == r && x.cur <= p < x.cur + x.st.n { FetchPage(s, r, p); }
  }

  lemma DevReadKeeps(s: St, r: nat)
    requires Inv(s) && CanDevRead(s, r)
    ensures Inv(DoDevRead(s, r))
  {
    var o, t := s.o, DoDevRead(s, r).o;
    assert RdOk(o, r);
    MapSame(s, DoDevRead(s, r));
    forall p: nat ensures PlaceOk(t, p) && ResOk(t, p) && AskOk(t, p) {
      assert PlaceOk(o, p) && ResOk(o, p) && AskOk(o, p);
    }
    forall n: nat, p: nat ensures UnsentAt(t, n, p) && FlyingAt(t, n, p) && AskedAt(t, n, p) && RunAt(t, n, p) {
      assert UnsentAt(o, n, p) && FlyingAt(o, n, p) && AskedAt(o, n, p) && DevOk(s, p);
      DevReadRunAt(s, r, n, p);
    }
    forall n: nat ensures WrOk(t, n) && IoOk(t, n) && RdOk(t, n) && LinkOk(t, n) {
      assert WrOk(o, n) && IoOk(o, n) && RdOk(o, n) && LinkOk(o, n);
    }
  }

  // ----- ReadFinish -----

  lemma ReadFinishRequests(s: St, r: nat)
    requires RequestsOk(s.o) && CanReadFinish(s, r)
    ensures RequestsOk(DoReadFinish(s, r).o)
  {
    var o, t := s.o, DoReadFinish(s, r).o;
    P.StepKeeps(o.vs, P.FinishRead(r));
    forall n: nat ensures WrOk(t, n) && IoOk(t, n) && RdOk(t, n) && LinkOk(t, n) {
      assert WrOk(o, n) && IoOk(o, n) && RdOk(o, n) && LinkOk(o, n);
    }
  }

  lemma ReadFinishKeeps(s: St, r: nat)
    requires Inv(s) && CanReadFinish(s, r)
    ensures Inv(DoReadFinish(s, r))
  {
    var o, t := s.o, DoReadFinish(s, r).o;
    ReadFinishRequests(s, r);
    MapSame(s, DoReadFinish(s, r));
    forall p: nat ensures PlaceOk(t, p) && ResOk(t, p) && AskOk(t, p) {
      assert PlaceOk(o, p) && ResOk(o, p) && AskOk(o, p);
    }
    forall n: nat, p: nat ensures UnsentAt(t, n, p) && FlyingAt(t, n, p) && AskedAt(t, n, p) && RunAt(t, n, p) {
      assert UnsentAt(o, n, p) && FlyingAt(o, n, p) && AskedAt(o, n, p) && RunAt(o, n, p);
    }
  }

  // ----- Unmap -----

  lemma UnmapPlaces(s: St, r: nat)
    requires PlacesOk(s.o) && PairsOk(s.o) && CanUnmap(s, r)
    ensures PlacesOk(DoUnmap(s, r).o)
  {
    var o, t := s.o, DoUnmap(s, r).o;
    forall p: nat ensures PlaceOk(t, p) && ResOk(t, p) && AskOk(t, p) {
      assert PlaceOk(o, p) && ResOk(o, p) && AskOk(o, p) && RunAt(o, r, p);
    }
  }

  lemma UnmapPairs(s: St, r: nat)
    requires PlacesOk(s.o) && PairsOk(s.o) && RequestsOk(s.o) && CanUnmap(s, r)
    ensures PairsOk(DoUnmap(s, r).o)
  {
    var o, t := s.o, DoUnmap(s, r).o;
    assert RdOk(o, r);
    forall n: nat, p: nat ensures UnsentAt(t, n, p) && FlyingAt(t, n, p) {
      assert UnsentAt(o, n, p) && FlyingAt(o, n, p) && RunAt(o, r, p);
    }
    forall n: nat, p: nat ensures AskedAt(t, n, p) && RunAt(t, n, p) {
      assert AskedAt(o, n, p) && RunAt(o, n, p) && RunAt(o, r, p) && AskedAt(o, r, p) && RdOk(o, n);
    }
  }

  lemma UnmapBits(s: St, r: nat, p: nat)
    requires PairsOk(s.o) && RequestsOk(s.o) && MapOk(s) && CanUnmap(s, r)
    ensures BitsOk(DoUnmap(s, r).o, p)
  {
    var o, x := s.o, s.o.rd[r];
    assert BitsOk(o, p) && RunAt(o, r, p) && RdOk(o, r) && EntOk(s, Quot(x.cur, o.cls));
    ChunkPages(o.cls, x.cur, |x.st.data|, p);
  }

  /** A page that stays stored or in flight keeps its entry, so its cluster is not given back. */
  lemma UnmapStays(s: St, r: nat, p: nat)
    requires PairsOk(s.o) && RequestsOk(s.o) && MapOk(s) && CanUnmap(s, r)
    requires p in s.o.where && (s.o.where[p].Stored? || s.o.where[p].Flying?)
    requires !(s.o.rd[r].cur <= p < s.o.rd[r].cur + |s.o.rd[r].st.data|)
    ensures LocOf(EntAt(DoUnmap(s, r).o, p)) == LocOf(EntAt(s.o, p))
            && Live(EntAt(DoUnmap(s, r).o, p)) == Live(EntAt(s.o, p))
  {
    var o, x := s.o, s.o.rd[r];
    assert BitsOk(o, p) && RdOk(o, r) && EntOk(s, Quot(x.cur, o.cls));
    ChunkPages(o.cls, x.cur, |x.st.data|, p);
  }

  lemma UnmapIo(s: St, r: nat, i: nat)
    requires PairsOk(s.o) && RequestsOk(s.o) && MapOk(s) && CanUnmap(s, r)
    ensures IoOk(DoUnmap(s, r).o, i)
  {
    var o := s.o;
    assert IoOk(o, i);
    if i in o.io && !o.io[i].st.Marked? {
      assert FlyingAt(o, i, o.io[i].lo) && RunAt(o, r, o.io[i].lo);
      UnmapStays(s, r, o.io[i].lo);
    }
  }

  lemma UnmapRd(s: St, r: nat, n: nat)
    requires PairsOk(s.o) && RequestsOk(s.o) && MapOk(s) && CanUnmap(s, r)
    ensures RdOk(DoUnmap(s, r).o, n)
  {
    var o := s.o;
    assert RdOk(o, n) && RdOk(o, r);
    if n in o.rd && n != r && (o.rd[n].st.Found? || o.rd[n].st.InBuffer?) {
      var p := o.rd[n].cur;
      assert RunAt(o, n, p) && AskedAt(o, n, p) && AskedAt(o, r, p);
      UnmapStays(s, r, p);
    }
  }

  lemma UnmapRequests(s: St, r: nat)
    requires Inv(s) && CanUnmap(s, r)
    ensures RequestsOk(DoUnmap(s, r).o)
  {
    var o, t := s.o, DoUnmap(s, r).o;
    forall n: nat ensures WrOk(t, n) && IoOk(t, n) && RdOk(t, n) && LinkOk(t, n) {
      assert WrOk(o, n) && LinkOk(o, n);
      UnmapIo(s, r, n);
      UnmapRd(s, r, n);
    }
  }

  lemma UnmapEnt(s: St, r: nat, k: nat)
    requires MapOk(s) && CanUnmap(s, r)
    ensures EntOk(DoUnmap(s, r), k)
  {
    var k0 := Quot(s.o.rd[r].cur, s.o.cls);
    assert EntOk(s, k) && EntOk(s, k0) && OwnOk(s.o, k, k0) && OwnOk(s.o, k0, k);
  }

  lemma UnmapMap(s: St, r: nat)
    requires Inv(s) && CanUnmap(s, r)
    ensures MapOk(DoUnmap(s, r))
  {
    var o, t := s.o, DoUnmap(s, r);
    forall p: nat ensures BitsOk(t.o, p) { UnmapBits(s, r, p); }
    forall k: nat ensures EntOk(t, k) { UnmapEnt(s, r, k); }
    forall k: nat, k': nat ensures OwnOk(t.o, k, k') { assert OwnOk(o, k, k'); }
    forall p: nat ensures DevOk(t, p) {
      assert DevOk(s, p);
      if p in t.o.where && t.o.where[p].Stored? { UnmapStays(s, r, p); }
    }
    forall i: nat, p: nat ensures LandedAt(t, i, p) { UnmapLanded(s, r, i, p); }
  }

  lemma UnmapLanded(s: St, r: nat, i: nat, p: nat)
    requires Inv(s) && CanUnmap(s, r)
    ensures LandedAt(DoUnmap(s, r), i, p)
  {
    assert LandedAt(s, i, p) && FlyingAt(s.o, i, p) && RunAt(s.o, r, p);
    if i in s.o.io && s.o.io[i].st.Landed? && s.o.io[i].lo <= p < s.o.io[i].lo + |s.o.io[i].data| {
      UnmapStays(s, r, p);
    }
  }

  lemma UnmapKeeps(s: St, r: nat)
    requires Inv(s) && CanUnmap(s, r)
    ensures Inv(DoUnmap(s, r))
  {
    UnmapPlaces(s, r);
    UnmapPairs(s, r);
    UnmapRequests(s, r);
    UnmapMap(s, r);
  }

  // ----- all steps -----

  lemma SendKeeps(s: St, a: Action)
    requires Inv(s) && Enabled(s, a) && (a.SendWrite? || a.SendRead?)
    ensures Inv(Apply(s, a))
  {
    if a.SendWrite? {
      Numbered(s.o, s.o.vs.next);
      SendWritePlaces(s, a.lo, a.data);
      SendWritePairs(s, a.lo, a.data);
      SendWriteRequests(s, a.lo, a.data);
      SendWriteMap(s, a.lo, a.data);
    } else {
      SendReadPlaces(s, a.lo, a.hi);
      SendReadPairs(s, a.lo, a.hi);
      SendReadRequests(s, a.lo, a.hi);
      MapSame(s, DoSendRead(s, a.lo, a.hi));
    }
  }

  lemma WriteMapKeeps(s: St, w: nat, id: nat, loc: Loc)
    requires Inv(s) && CanWriteMap(s, w, id, loc)
    ensures Inv(DoWriteMap(s, w, id, loc))
  {
    WriteMapPlaces(s, w, id, loc);
    WriteMapPairs(s, w, id, loc);
    WriteMapRequests(s, w, id, loc);
    WriteMapMap(s, w, id, loc);
  }

  /** Every step keeps the invariant. */
  lemma StepKeeps(s: St, a: Action)
    requires Inv(s) && Enabled(s, a)
    ensures Inv(Apply(s, a))
  {
    match a
    case SendWrite(_, _) => SendKeeps(s, a);
    case SendRead(_, _) => SendKeeps(s, a);
    case Drop(p) => DropKeeps(s, p);
    case Thread(pa) => ThreadKeeps(s, pa);
    case WriteMap(w, id, loc) => WriteMapKeeps(s, w, id, loc);
    case WriteIssue(w, async) => WriteIssueKeeps(s, w, async);
    case Land(id) => LandKeeps(s, id);
    case Mark(id) => MarkKeeps(s, id);
    case Retire(id) => RetireKeeps(s, id);
    case WriteFinish(w) => WriteFinishKeeps(s, w);
    case Lookup(r) => LookupKeeps(s, r);
    case ReplyUnavail(r) => ReplyUnavailKeeps(s, r);
    case DevRead(r) => DevReadKeeps(s, r);
    case Unmap(r) => UnmapKeeps(s, r);
    case Supply(r) => SupplyKeeps(s, r);
    case ReadFinish(r) => ReadFinishKeeps(s, r);
  }

  // ----- what the cluster map can rely on -----

  /** The pages a write is about to map are neither valid nor being written. */
  lemma MapsNewPages(s: St, w: nat, id: nat, loc: Loc)
    requires Inv(s) && CanWriteMap(s, w, id, loc)
    ensures var o := s.o; var x := o.wr[w];
            Bits(Rem(x.cur, o.cls), ChunkLen(o, x)) !! EntAt(o, x.cur).alloc
  {
    var o := s.o; var x := o.wr[w];
    var i, n := Rem(x.cur, o.cls), ChunkLen(o, x);
    forall j | j in Bits(i, n) ensures j !in EntAt(o, x.cur).alloc {
      var q := x.cur + (j - i);
      ChunkPages(o.cls, x.cur, n, q);
      assert UnsentAt(o, w, q) && BitsOk(o, q);
    }
  }

  /** Only valid pages are unmapped. */
  lemma UnmapsValidPages(s: St, r: nat)
    requires Inv(s) && CanUnmap(s, r)
    ensures var o := s.o; var x := o.rd[r]; Bits(Rem(x.cur, o.cls), |x.st.data|) <= EntAt(o, x.cur).bmap
  {
    var o := s.o; var x := o.rd[r];
    var i, n := Rem(x.cur, o.cls), |x.st.data|;
    assert RdOk(o, r);
    forall j | j in Bits(i, n) ensures j in EntAt(o, x.cur).bmap {
      var q := x.cur + (j - i);
      ChunkPages(o.cls, x.cur, n, q);
      assert RunAt(o, r, q) && BitsOk(o, q);
    }
  }

  // ----- progress -----

  /** A step of the pager or the device, not of the kernel. */
  predicate IsPagers(a: Action) { !a.SendWrite? && !a.SendRead? && !a.Drop? && !(a.Thread? && a.a.Arrive?) }

  /** A write on its way through the device can take its next step. */
  lemma IoProgress(s: St, id: nat) returns (a: Action)
    requires RequestsOk(s.o) && id in s.o.io
    ensures IsPagers(a) && Enabled(s, a)
  {
    assert IoOk(s.o, id);
    var x := s.o.io[id];
    match x.st
    case Mapped =>
      IssueEnabled(s, x.w, false);
      a := WriteIssue(x.w, false);
    case Queued => a := Land(id);
    case Landed => a := Mark(id);
    case Marked =>
      if x.async { P.CompleteEnabled(s.o.vs, id); }
      a := Retire(id);
  }

  /** So can a data_request, */
  lemma ReadProgress(s: St, r: nat) returns (a: Action)
    requires RequestsOk(s.o) && r in s.o.rd && InBody(s.o, r) && P.Enabled(s.o.vs, P.FinishRead(r))
    ensures IsPagers(a) && Enabled(s, a)
  {
    assert RdOk(s.o, r);
    var x := s.o.rd[r];
    match x.st
    case Idle => a := if x.cur < x.hi then Lookup(r) else ReadFinish(r);
    case Unavail(_) => a := ReplyUnavail(r);
    case Found(_, _) => a := DevRead(r);
    case InBuffer(_) => a := Unmap(r);
    case Taken(_) => a := Supply(r);
  }

  /** and a data_return while there is a free cluster. */
  lemma WriteProgress(s: St, w: nat, loc: Loc) returns (a: Action)
    requires MapOk(s) && RequestsOk(s.o) && s.o.io == map[] && loc !in s.used && loc.cloff < ENTRY_NULL
    requires w in s.o.wr && InBody(s.o, w) && P.Enabled(s.o.vs, P.FinishWrite(w))
    ensures IsPagers(a) && Enabled(s, a)
  {
    assert WrOk(s.o, w);
    a := if s.o.wr[w].cur < End(s.o.wr[w]) then WriteMap(w, 0, loc) else WriteFinish(w);
  }

  /** No reachable state with unfinished work is stuck as long as there is a free cluster: the
      pager or the device can take a step without the kernel doing anything. */
  lemma StoreProgress(s: St, loc: Loc) returns (a: Action)
    requires Inv(s) && loc !in s.used && loc.cloff < ENTRY_NULL
    requires !P.Quiescent(s.o.vs) || s.o.io != map[]
    ensures IsPagers(a) && Enabled(s, a)
  {
    if P.Quiescent(s.o.vs) {
      var id :| id in s.o.io;
      a := IoProgress(s, id);
      return;
    }
    var pa := P.Progress(s.o.vs);
    match pa
    case FinishRead(n) =>
      assert LinkOk(s.o, n);
      a := ReadProgress(s, n);
    case FinishWrite(n) =>
      assert LinkOk(s.o, n);
      if id :| id in s.o.io { a := IoProgress(s, id); } else { a := WriteProgress(s, n, loc); }
    case Complete(id) =>
      assert IoOk(s.o, id);
      a := IoProgress(s, id);
    case _ => a := Thread(pa);
  }
}
