/** Runs that show what failed writes lead to, and what ps_clunmap does to an entry in error. */
module FailedRuns {
  import opened Options
  import G = Segments
  import opened ClusterMaps
  import opened Ownership
  import opened FailedWrites

  // ----- failed writes -----

  /** Page 0 of entry (1, 0) is being written to cluster 1 by write 8, and nothing else is. */
  ghost predicate OnePage(w: World) {
    && HasEnt(w, 1, 0) && 1 !in w.lock && Ent(w, 1, 0) == Entry(1, 0, false, {}, {0})
    && 8 in w.writes && w.writes[8] == Write(1, 0, Some(Loc(0, 1)), {0})
    && 9 !in w.writes && 10 !in w.writes && 11 !in w.writes && w.back == {}
    && forall v: nat :: OnEntry(w, v, 1, 0) ==> v == 8
  }

  ghost function To1(p: nat): Write { Write(1, 0, Some(Loc(0, 1)), {p}) }

  /** Writes 9 and 10 of pages 1 and 2 have been added. */
  lemma AddPages(tr: seq<World>, acts: seq<Action>) returns (tr': seq<World>, acts': seq<Action>)
    requires TidyRun(tr, acts) && OnePage(tr[|acts|])
    ensures TidyRun(tr', acts') && tr <= tr' && acts <= acts'
    ensures var w, t := tr[|acts|], tr'[|acts'|];
            && HasEnt(w, 1, 0)
            && t == PutEnt(w, 1, 0, Entry(1, 0, false, {}, {0, 1, 2})).(writes := w.writes[9 := To1(1)][10 := To1(2)])
  {
    var w := tr[|acts|];
    tr', acts' := GoExtra(tr, acts, 9, 1, 0, {1});
    var w1 := tr'[|acts'|];
    assert Ent(w1, 1, 0) == Entry(1, 0, false, {}, {0, 1});
    forall v: nat ensures OnEntry(w1, v, 1, 0) ==> v == 8 || v == 9 { assert OnEntry(w, v, 1, 0) ==> v == 8; }
    tr', acts' := GoExtra(tr', acts', 10, 1, 0, {2});
    assert {0, 1} + {2} == {0, 1, 2};
    PutTwice(w, 1, 0, Entry(1, 0, false, {}, {0, 1}), Entry(1, 0, false, {}, {0, 1, 2}));
  }

  /** Write 8 completes and write 9 fails. */
  lemma FailTwo(tr: seq<World>, acts: seq<Action>, w: World) returns (tr': seq<World>, acts': seq<Action>)
    requires TidyRun(tr, acts) && HasEnt(w, 1, 0) && 1 !in w.lock && w.back == {}
    requires 8 in w.writes && w.writes[8] == To1(0)
    requires tr[|acts|] == PutEnt(w, 1, 0, Entry(1, 0, false, {}, {0, 1, 2}))
                           .(writes := w.writes[9 := To1(1)][10 := To1(2)])
    ensures TidyRun(tr', acts') && tr <= tr' && acts <= acts'
    ensures tr'[|acts'|] == PutEnt(w, 1, 0, Entry(5, 0, true, {0}, {0, 1, 2}))
                            .(freeing := w.freeing + {Loc(0, 1)}, writes := (w.writes - {8, 9})[10 := To1(2)])
  {
    tr', acts' := GoComplete(tr, acts, 8);
    var w1 := tr'[|acts'|];
    assert {} + {0} == {0};
    PutTwice(w, 1, 0, Entry(1, 0, false, {}, {0, 1, 2}), Entry(1, 0, false, {0}, {0, 1, 2}));
    assert EntOf(w1, 9) == Entry(1, 0, false, {0}, {0, 1, 2});
    tr', acts' := GoFail(tr', acts', 9, 5);
    var t := tr'[|acts'|];
    PutTwice(w, 1, 0, Entry(1, 0, false, {0}, {0, 1, 2}), Entry(5, 0, true, {0}, {0, 1, 2}));
    assert t.writes == (w.writes - {8, 9})[10 := To1(2)];
  }

  /** Three pages are sent, one arrives, one fails, and the cluster is given back. */
  lemma FailOne(tr: seq<World>, acts: seq<Action>) returns (tr': seq<World>, acts': seq<Action>)
    requires TidyRun(tr, acts) && OnePage(tr[|acts|]) && Loc(0, 1) !in tr[|acts|].freeing
    ensures TidyRun(tr', acts') && tr <= tr' && acts <= acts'
    ensures var w, t := tr[|acts|], tr'[|acts'|];
            && HasEnt(w, 1, 0)
            && t == ClearBit(PutEnt(w, 1, 0, Entry(5, 0, true, {0}, {0, 1, 2})), Loc(0, 1))
                    .(writes := (w.writes - {8, 9})[10 := To1(2)])
  {
    var w := tr[|acts|];
    tr', acts' := AddPages(tr, acts);
    tr', acts' := FailTwo(tr', acts', w);
    tr', acts' := GoReturn(tr', acts', Loc(0, 1));
    assert w.freeing + {Loc(0, 1)} - {Loc(0, 1)} == w.freeing;
  }

  /** With cluster 0 taken and cluster 1 free, cluster 1 is next. */
  lemma NextFree(tr: seq<World>, acts: seq<Action>)
    requires IsRun(tr, acts)
    requires var w := tr[|acts|];
             && |w.segs| > 0 && |w.reserved| == |w.segs| && w.reserved[0] == 0 && !w.segs[0].goingAway
             && w.segs[0].ncls > 1 && Bit(w, Loc(0, 0)) && !Bit(w, Loc(0, 1))
    ensures CanTake(tr[|acts|], 1)
  {
    RunKeeps(tr, acts, |acts|);
    assert SegOk(tr[|acts|], 0);
  }

  /** The bits of segment 0 when object id has got cluster c. */
  lemma GotBits(w: World, v: nat, id: nat, c: nat, d: nat)
    requires |w.segs| > 0 && w.segs[0].clcount > 0 && c / 8 < |w.segs[0].bmap| && HasEnt(w, id, 0)
    ensures Bit(Got(w, v, id, c), Loc(0, d)) <==> Bit(w, Loc(0, d)) || (d == c && d < w.segs[0].ncls)
  {
  }

  /** Objects 1, 2 and 3 exist, object 3 has cluster 0, and cluster 1 is next. */
  lemma Prelude(w: World) returns (tr: seq<World>, acts: seq<Action>)
    requires Init(w) && CanTake(w, 0) && w.segs[0].ncls > 1
    ensures TidyRun(tr, acts) && tr[0] == w && CanTake(tr[|acts|], 1)
    ensures var t := tr[|acts|];
            && HasEnt(t, 1, 0) && Ent(t, 1, 0) == ClearEntry && HasEnt(t, 2, 0) && Ent(t, 2, 0) == ClearEntry
            && t.lock == map[] && t.held == {} && t.freeing == {} && t.lost == {} && t.back == {}
            && t.writes == map[7 := Write(3, 0, Some(Loc(0, 0)), {0})]
  {
    assert !Bit(w, Loc(0, 1));
    tr, acts := GoCreate([w], [], 1);
    tr, acts := GoCreate(tr, acts, 2);
    tr, acts := GoCreate(tr, acts, 3);
    var w1 := tr[|acts|];
    tr, acts := GetCluster(tr, acts, 7, 3, 0);
    GotBits(w1, 7, 3, 0, 0);
    GotBits(w1, 7, 3, 0, 1);
    NextFree(tr, acts);
  }

  /** From every initial state with a segment of two clusters or more: a page is valid, another
      page of its cluster fails to be written, and the cluster goes to another object.  The
      valid bit is still set, and a third write still goes to that cluster. */
  lemma FailedWriteRun(w: World) returns (tr: seq<World>, acts: seq<Action>)
    requires Init(w) && CanTake(w, 0) && w.segs[0].ncls > 1
    ensures TidyRun(tr, acts) && tr[0] == w
    ensures var t, e := tr[|acts|], Ent(tr[|acts|], 1, 0);
            && IsErr(e) && 0 in e.bmap
            && Current(t, 2, 0) && LocOf(Ent(t, 2, 0)) == Loc(0, 1)
            && 10 in t.writes && t.writes[10] == Write(1, 0, Some(Loc(0, 1)), {2}) && 10 !in t.back
            && IsLate(t, 10)
  {
    tr, acts := Prelude(w);
    var w1 := tr[|acts|];
    tr, acts := GetCluster(tr, acts, 8, 1, 1);
    GotBits(w1, 8, 1, 1, 0);
    var w2 := tr[|acts|];
    tr, acts := FailOne(tr, acts);
    var w3 := PutEnt(w2, 1, 0, Entry(5, 0, true, {0}, {0, 1, 2}));
    ClearBitAt(w3, Loc(0, 1), Loc(0, 0));
    ClearBitAt(w3, Loc(0, 1), Loc(0, 1));
    NextFree(tr, acts);
    tr, acts := GetCluster(tr, acts, 11, 2, 1);
  }

  /** Write 8 fails, its page goes out again as write 9, and only then is the failure recorded. */
  lemma Resend(tr: seq<World>, acts: seq<Action>) returns (tr': seq<World>, acts': seq<Action>)
    requires TidyRun(tr, acts) && OnePage(tr[|acts|])
    ensures TidyRun(tr', acts') && tr <= tr' && acts <= acts'
    ensures var w := tr[|acts|]; tr'[|acts'|] == w.(writes := w.writes[9 := To1(0)], back := {8})
  {
    var w := tr[|acts|];
    tr', acts' := GoSendBack(tr, acts, 8);
    var w1 := tr'[|acts'|];
    forall v: nat ensures OnEntry(w1, v, 1, 0) ==> v == 8 { assert OnEntry(w, v, 1, 0) ==> v == 8; }
    tr', acts' := GoExtra(tr', acts', 9, 1, 0, {0});
    assert {0} + {0} == {0};
    assert w.objs[1][0 := Entry(1, 0, false, {}, {0})] == w.objs[1];
    assert w.objs[1 := w.objs[1]] == w.objs;
    assert {} + {8} == {8};
  }

  /** The failure of write 8 is recorded and its cluster given back. */
  lemma RecordFirst(tr: seq<World>, acts: seq<Action>, w: World) returns (tr': seq<World>, acts': seq<Action>)
    requires TidyRun(tr, acts) && OnePage(w) && Loc(0, 1) !in w.freeing
    requires tr[|acts|] == w.(writes := w.writes[9 := To1(0)], back := {8})
    ensures TidyRun(tr', acts') && tr <= tr' && acts <= acts' && |acts'| > |acts| && acts'[|acts|] == Fail(8, 5)
    ensures HasEnt(w, 1, 0)
    ensures tr'[|acts'|] == ClearBit(PutEnt(w, 1, 0, Entry(5, 0, true, {}, {0})), Loc(0, 1))
                            .(writes := (w.writes - {8})[9 := To1(0)])
  {
    tr', acts' := GoRecord(tr, acts, 8, 5);
    var w1 := tr'[|acts'|];
    assert w.writes[9 := To1(0)] - {8} == (w.writes - {8})[9 := To1(0)];
    assert {8} - {8} == w.back;
    assert w1 == PutEnt(w, 1, 0, Entry(5, 0, true, {}, {0}))
                 .(freeing := w.freeing + {Loc(0, 1)}, writes := (w.writes - {8})[9 := To1(0)]);
    var acts1 := acts';
    tr', acts' := GoReturn(tr', acts', Loc(0, 1));
    assert acts'[|acts|] == acts1[|acts|];
    assert w.freeing + {Loc(0, 1)} - {Loc(0, 1)} == w.freeing;
  }

  /** In step n write 8 fails alone in its cluster, except that its page was sent out twice. */
  ghost predicate FailsTwice(tr: seq<World>, acts: seq<Action>, n: nat) {
    && |tr| == |acts| + 1 && n < |acts| && acts[n] == Fail(8, 5) && 8 in tr[n].writes
    && var e := EntOf(tr[n], 8);
       && Live(e) && e.cloff != 0 && e.alloc <= tr[n].writes[8].bits
       && StillUsed(tr[n], 8) && WasResent(tr, acts, n, 8)
  }

  lemma ResendAndFail(tr: seq<World>, acts: seq<Action>) returns (tr': seq<World>, acts': seq<Action>, n: nat)
    requires TidyRun(tr, acts) && OnePage(tr[|acts|]) && Loc(0, 1) !in tr[|acts|].freeing
    ensures TidyRun(tr', acts') && tr <= tr' && acts <= acts' && FailsTwice(tr', acts', n)
    ensures var w := tr[|acts|];
            && HasEnt(w, 1, 0)
            && tr'[|acts'|] == ClearBit(PutEnt(w, 1, 0, Entry(5, 0, true, {}, {0})), Loc(0, 1))
                               .(writes := (w.writes - {8})[9 := To1(0)])
  {
    var w := tr[|acts|];
    tr', acts' := Resend(tr, acts);
    n := |acts'|;
    assert Located(tr'[n], 9, 1, 0);
    tr', acts' := RecordFirst(tr', acts', w);
    UsedExactly(tr', acts', n, 8);
  }

  /** From every initial state with a segment of two clusters or more: in step n a write fails
      whose pages are all that is allocated, and yet another write still goes to its cluster,
      which another object gets.  The page was sent out twice. */
  lemma ResentRun(w: World) returns (tr: seq<World>, acts: seq<Action>, n: nat)
    requires Init(w) && CanTake(w, 0) && w.segs[0].ncls > 1
    ensures TidyRun(tr, acts) && tr[0] == w && FailsTwice(tr, acts, n)
    ensures var t := tr[|acts|];
            && Current(t, 2, 0) && LocOf(Ent(t, 2, 0)) == Loc(0, 1)
            && 9 in t.writes && t.writes[9] == Write(1, 0, Some(Loc(0, 1)), {0}) && 9 !in t.back && IsLate(t, 9)
  {
    tr, acts := Prelude(w);
    var w1 := tr[|acts|];
    tr, acts := GetCluster(tr, acts, 8, 1, 1);
    GotBits(w1, 8, 1, 1, 0);
    var w2 := tr[|acts|];
    tr, acts, n := ResendAndFail(tr, acts);
    var w3 := PutEnt(w2, 1, 0, Entry(5, 0, true, {}, {0}));
    ClearBitAt(w3, Loc(0, 1), Loc(0, 0));
    ClearBitAt(w3, Loc(0, 1), Loc(0, 1));
    NextFree(tr, acts);
    var tr1, acts1 := tr, acts;
    tr, acts := GetCluster(tr, acts, 11, 2, 1);
    FailsTwiceStill(tr1, acts1, tr, acts, n);
  }

  lemma FailsTwiceStill(tr: seq<World>, acts: seq<Action>, tr': seq<World>, acts': seq<Action>, n: nat)
    requires FailsTwice(tr, acts, n) && |tr'| == |acts'| + 1 && tr <= tr' && acts <= acts'
    ensures FailsTwice(tr', acts', n)
  {
    ResentPrefix(tr, acts, tr', acts', n, 8);
  }

  lemma ResentPrefix(tr: seq<World>, acts: seq<Action>, tr': seq<World>, acts': seq<Action>, n: nat, v: nat)
    requires |tr| == |acts| + 1 && |tr'| == |acts'| + 1 && n <= |acts| && tr <= tr' && acts <= acts'
    requires WasResent(tr, acts, n, v)
    ensures WasResent(tr', acts', n, v)
  {
    var i: nat :| Resent(tr, acts, n, v, i);
    assert Resent(tr', acts', n, v, i);
  }

  // ----- unmapping an entry in error -----

  /** What ps_clunmap does to an entry in error: the error number is taken for the number of the
      cluster to give back. */
  function UnmapError(w: World, id: nat, k: nat, bits: set<nat>): World
    requires HasEnt(w, id, k) && IsErr(Ent(w, id, k))
    requires var e := Ent(w, id, k); e.ps < |w.segs| && e.cloff / 8 < |w.segs[e.ps].bmap|
  {
    var e := Ent(w, id, k);
    var e1 := e.(bmap := e.bmap - bits, alloc := e.alloc - bits);
    if e1.alloc != {} then PutEnt(w, id, k, e1)
    else PutSeg(PutEnt(w, id, k, ClearEntry), e.ps, G.Release(w.segs[e.ps], e.cloff))
  }

  lemma NoneLeft(a: set<nat>, b: set<nat>)
    ensures a - b == {} <==> a <= b
  {
    if a - b == {} {
      forall x | x in a ensures x in b { assert x !in a - b; }
    }
  }

  /** The bit of a cluster is cleared exactly if no allocated page is left and the error number
      is the number of the cluster; its owner does not notice. */
  lemma ErrorUnmapClears(w: World, id: nat, k: nat, bits: set<nat>, l: Loc)
    requires HasEnt(w, id, k) && IsErr(Ent(w, id, k)) && Ent(w, id, k).ps < |w.segs|
    requires var g := w.segs[Ent(w, id, k).ps]; Ent(w, id, k).cloff < g.ncls && |g.bmap| == (g.ncls + 7) / 8
    ensures var e, t := Ent(w, id, k), UnmapError(w, id, k, bits);
            && (Bit(t, l) <==> Bit(w, l) && !(e.alloc <= bits && LocOf(e) == l))
            && forall o :: OwnedBy(t, l, o) <==> OwnedBy(w, l, o)
  {
    var e, t := Ent(w, id, k), UnmapError(w, id, k, bits);
    NoneLeft(e.alloc, bits);
    forall o ensures OwnedBy(t, l, o) <==> OwnedBy(w, l, o) {
      if o.Slot? {
        PutEntAt(w, id, k, e.(bmap := e.bmap - bits, alloc := e.alloc - bits), o.id, o.k);
        PutEntAt(w, id, k, ClearEntry, o.id, o.k);
      }
    }
  }

  /** Unmapping pages of an entry in error keeps ownership and counts sound if and only if an
      allocated page is left. */
  lemma ErrorUnmapExact(w: World, id: nat, k: nat, bits: set<nat>)
    requires Inv(w) && HasEnt(w, id, k) && id !in w.lock && IsErr(Ent(w, id, k)) && Ent(w, id, k).ps < |w.segs|
    requires Ent(w, id, k).cloff < w.segs[Ent(w, id, k).ps].ncls
    ensures Ent(w, id, k).cloff / 8 < |w.segs[Ent(w, id, k).ps].bmap|
    ensures Inv(UnmapError(w, id, k, bits)) <==> !(Ent(w, id, k).alloc <= bits)
  {
    var e := Ent(w, id, k);
    assert SegOk(w, e.ps);
    var t := UnmapError(w, id, k, bits);
    NoneLeft(e.alloc, bits);
    if e.alloc <= bits {
      ErrorUnmapBreaks(w, id, k, bits);
    } else {
      var e1 := e.(bmap := e.bmap - bits, alloc := e.alloc - bits);
      forall j: nat ensures SegOk(t, j) { assert SegOk(w, j); }
      forall i: nat, j: nat ensures EntOk(t, i, j) { PutEntAt(w, id, k, e1, i, j); assert EntOk(w, i, j); }
      forall l: Loc ensures LocOk(t, l) {
        assert LocOk(w, l);
        SameMoves(w, t, id, k, e1, l);
        MoveKeeps(w, t, l, None, None);
      }
      PutTotal(w.objs, id, t.objs[id]);
    }
  }

  lemma ErrorUnmapBreaks(w: World, id: nat, k: nat, bits: set<nat>)
    requires Inv(w) && HasEnt(w, id, k) && IsErr(Ent(w, id, k)) && Ent(w, id, k).alloc <= bits
    requires var e := Ent(w, id, k);
             e.ps < |w.segs| && e.cloff < w.segs[e.ps].ncls && e.cloff / 8 < |w.segs[e.ps].bmap|
    ensures !Inv(UnmapError(w, id, k, bits))
  {
    var e, t := Ent(w, id, k), UnmapError(w, id, k, bits);
    var l := LocOf(e);
    assert SegOk(w, e.ps) && LocOk(w, l);
    ErrorUnmapClears(w, id, k, bits, l);
    if Bit(w, l) {
      var o :| OwnedBy(w, l, o);
      assert OwnedBy(t, l, o) && !LocOk(t, l);
    } else {
      assert G.Clear(t.segs[e.ps]) == G.Clear(w.segs[e.ps]);
      assert !SegOk(t, e.ps);
    }
  }

  /** From every initial state with a segment of two clusters or more: a page is valid, so that
      a reader may have found it; pages of the cluster behind a failed one put the entry in
      error 1, and another object gets cluster 1.  Unmapping the page then clears the bit of
      that cluster. */
  lemma ErrorUnmapRun(w: World) returns (tr: seq<World>, acts: seq<Action>)
    requires Init(w) && CanTake(w, 0) && w.segs[0].ncls > 1
    ensures TidyRun(tr, acts) && tr[0] == w
    ensures var t := tr[|acts|];
            && HasEnt(t, 1, 0) && Ent(t, 1, 0) == Entry(1, 0, true, {0}, {0}) && |t.segs| > 0 && |t.segs[0].bmap| > 0
            && Current(t, 2, 0) && LocOf(Ent(t, 2, 0)) == Loc(0, 1) && Bit(t, Loc(0, 1))
            && Current(UnmapError(t, 1, 0, {0}), 2, 0) && !Bit(UnmapError(t, 1, 0, {0}), Loc(0, 1))
  {
    tr, acts := Prelude(w);
    var w1 := tr[|acts|];
    tr, acts := GetCluster(tr, acts, 8, 1, 1);
    GotBits(w1, 8, 1, 1, 0);
    var w2 := tr[|acts|];
    tr, acts := FailRest(tr, acts);
    var w3 := PutEnt(w2, 1, 0, Entry(1, 0, true, {0}, {0}));
    ClearBitAt(w3, Loc(0, 1), Loc(0, 0));
    ClearBitAt(w3, Loc(0, 1), Loc(0, 1));
    NextFree(tr, acts);
    var w4 := tr[|acts|];
    tr, acts := GetCluster(tr, acts, 11, 2, 1);
    GotBits(w4, 11, 2, 1, 1);
    var t := tr[|acts|];
    RunKeeps(tr, acts, |acts|);
    assert SegOk(t, 0);
    ErrorUnmapClears(t, 1, 0, {0}, Loc(0, 1));
    assert OwnedBy(t, Loc(0, 1), Slot(2, 0));
  }

  /** Page 0 is written; page 1 is among the pages that are given up. */
  lemma GiveUpRest(tr: seq<World>, acts: seq<Action>) returns (tr': seq<World>, acts': seq<Action>)
    requires TidyRun(tr, acts) && OnePage(tr[|acts|])
    ensures TidyRun(tr', acts') && tr <= tr' && acts <= acts'
    ensures var w, t := tr[|acts|], tr'[|acts'|];
            && HasEnt(w, 1, 0)
            && t == PutEnt(w, 1, 0, Entry(1, 0, false, {0}, {0}))
                    .(writes := (w.writes - {8})[9 := Write(1, 0, None, {1})])
  {
    var w := tr[|acts|];
    tr', acts' := GoComplete(tr, acts, 8);
    var w1 := tr'[|acts'|];
    assert {} + {0} == {0};
    assert w1 == PutEnt(w, 1, 0, Entry(1, 0, false, {0}, {0})).(writes := w.writes - {8});
    forall v: nat ensures !OnEntry(w1, v, 1, 0) { assert OnEntry(w, v, 1, 0) ==> v == 8; }
    tr', acts' := GoUnplaced(tr', acts', 9, 1, 0, {1});
  }

  /** They are given up with error 1. */
  lemma FailRest(tr: seq<World>, acts: seq<Action>) returns (tr': seq<World>, acts': seq<Action>)
    requires TidyRun(tr, acts) && OnePage(tr[|acts|]) && Loc(0, 1) !in tr[|acts|].freeing
    ensures TidyRun(tr', acts') && tr <= tr' && acts <= acts'
    ensures var w, t := tr[|acts|], tr'[|acts'|];
            && HasEnt(w, 1, 0)
            && t == ClearBit(PutEnt(w, 1, 0, Entry(1, 0, true, {0}, {0})), Loc(0, 1)).(writes := w.writes - {8})
  {
    var w := tr[|acts|];
    tr', acts' := GiveUpRest(tr, acts);
    assert EntOf(tr'[|acts'|], 9) == Entry(1, 0, false, {0}, {0});
    tr', acts' := GoFail(tr', acts', 9, 1);
    PutTwice(w, 1, 0, Entry(1, 0, false, {0}, {0}), Entry(1, 0, true, {0}, {0}));
    assert (w.writes - {8})[9 := Write(1, 0, None, {1})] - {9} == w.writes - {8};
    tr', acts' := GoReturn(tr', acts', Loc(0, 1));
    assert w.freeing + {Loc(0, 1)} - {Loc(0, 1)} == w.freeing;
  }
}
