/** What it means for a cluster map to own clusters, and which changes of a map keep that. */
module MapOwnership {
  import opened Options
  import opened ClusterMaps
  import opened PagingSpaces
  import opened Segments

  ghost predicate OwnedAt(m: seq<Entry>, segs: seq<Option<Segment>>, k: nat) {
    EntryOk(At(m, k)) && (Live(At(m, k)) ==> Taken(segs, LocOf(At(m, k))))
  }

  ghost predicate DistinctAt(m: seq<Entry>, j: nat, k: nat) {
    j != k && Live(At(m, j)) && Live(At(m, k)) ==> LocOf(At(m, j)) != LocOf(At(m, k))
  }

  /** Every cluster the map names is taken, none is named twice, valid pages are allocated pages,
      and an entry that names a cluster has an allocated page. */
  ghost predicate Owns(m: seq<Entry>, segs: seq<Option<Segment>>) {
    && (forall k: nat :: OwnedAt(m, segs, k))
    && (forall j: nat, k: nat :: DistinctAt(m, j, k))
  }

  /** Going from map m to m', exactly the clusters that are no longer named were given back. */
  ghost predicate FreedAt(m: seq<Entry>, segs: seq<Option<Segment>>, m': seq<Entry>, segs': seq<Option<Segment>>,
                          l: Loc) {
    && (Names(m', l) ==> Names(m, l))
    && (Taken(segs', l) <==> Taken(segs, l) && (Names(m, l) ==> Names(m', l)))
  }

  ghost predicate Freed(m: seq<Entry>, segs: seq<Option<Segment>>, m': seq<Entry>, segs': seq<Option<Segment>>) {
    forall l: Loc :: FreedAt(m, segs, m', segs', l)
  }

  lemma FreedTrans(m0: seq<Entry>, s0: seq<Option<Segment>>, m1: seq<Entry>, s1: seq<Option<Segment>>,
                   m2: seq<Entry>, s2: seq<Option<Segment>>)
    requires Freed(m0, s0, m1, s1) && Freed(m1, s1, m2, s2)
    ensures Freed(m0, s0, m2, s2)
  {
    forall l: Loc ensures FreedAt(m0, s0, m2, s2, l) {
      assert FreedAt(m0, s0, m1, s1, l) && FreedAt(m1, s1, m2, s2, l);
    }
  }

  ghost predicate Names(m: seq<Entry>, loc: Loc) { exists k: nat :: NamesAt(m, k, loc) }

  ghost predicate NamesAt(m: seq<Entry>, k: nat, loc: Loc) { Live(At(m, k)) && LocOf(At(m, k)) == loc }

  /** Dropping entry k from the map and giving its cluster back keeps ownership. */
  lemma DropOwned(m: seq<Entry>, k: nat, e: Entry, segs: seq<Option<Segment>>, segs': seq<Option<Segment>>)
    requires Owns(m, segs) && k < |m| && Live(m[k]) && !Live(e) && EntryOk(e)
    requires forall l: Loc :: Taken(segs', l) <==> Taken(segs, l) && l != LocOf(m[k])
    ensures Owns(m[k := e], segs') && Freed(m, segs, m[k := e], segs')
  {
    var m' := m[k := e];
    forall j: nat ensures OwnedAt(m', segs', j) { assert OwnedAt(m, segs, j) && DistinctAt(m, j, k); }
    forall i: nat, j: nat ensures DistinctAt(m', i, j) { assert DistinctAt(m, i, j); }
    forall l: Loc ensures FreedAt(m, segs, m', segs', l) {
      assert NamesAt(m, k, LocOf(m[k]));
      if j: nat :| NamesAt(m', j, l) { assert DistinctAt(m, j, k) && NamesAt(m, j, l); }
      if j: nat :| NamesAt(m, j, l) && j != k { assert NamesAt(m', j, l); }
    }
  }

  /** Changing only the bits of entry k changes nothing about ownership. */
  lemma SameOwned(m: seq<Entry>, k: nat, e: Entry, segs: seq<Option<Segment>>)
    requires Owns(m, segs) && k < |m| && Live(e) == Live(m[k]) && EntryOk(e) && (Live(e) ==> LocOf(e) == LocOf(m[k]))
    ensures Owns(m[k := e], segs) && Freed(m, segs, m[k := e], segs)
  {
    var m' := m[k := e];
    forall j: nat ensures OwnedAt(m', segs, j) { assert OwnedAt(m, segs, j); }
    forall i: nat, j: nat ensures DistinctAt(m', i, j) { assert DistinctAt(m, i, j); }
    forall l: Loc ensures FreedAt(m, segs, m', segs, l) {
      if j: nat :| NamesAt(m', j, l) { assert NamesAt(m, j, l); }
      if j: nat :| NamesAt(m, j, l) { assert NamesAt(m', j, l); }
    }
  }

  /** Giving entry k a cluster that was free. */
  lemma TakeOwned(m: seq<Entry>, k: nat, e: Entry, segs: seq<Option<Segment>>, segs': seq<Option<Segment>>)
    requires Owns(m, segs) && k < |m| && !Live(m[k]) && Live(e) && EntryOk(e) && !Taken(segs, LocOf(e))
    requires forall l: Loc :: Taken(segs', l) <==> Taken(segs, l) || l == LocOf(e)
    ensures Owns(m[k := e], segs')
  {
    var m' := m[k := e];
    forall j: nat ensures OwnedAt(m', segs', j) { assert OwnedAt(m, segs, j); }
    forall i: nat, j: nat ensures DistinctAt(m', i, j) {
      assert DistinctAt(m, i, j) && OwnedAt(m, segs, i) && OwnedAt(m, segs, j);
    }
  }

  /** Dropping entry k without giving its cluster back. */
  lemma ForgetOwned(m: seq<Entry>, k: nat, e: Entry, segs: seq<Option<Segment>>)
    requires Owns(m, segs) && k < |m| && !Live(e) && EntryOk(e)
    ensures Owns(m[k := e], segs)
  {
    var m' := m[k := e];
    forall j: nat ensures OwnedAt(m', segs, j) { assert OwnedAt(m, segs, j); }
    forall i: nat, j: nat ensures DistinctAt(m', i, j) { assert DistinctAt(m, i, j); }
  }

  lemma ExtendOwned(m: seq<Entry>, size: nat, segs: seq<Option<Segment>>)
    requires Owns(m, segs)
    ensures Owns(Extended(m, size), segs)
  {
    var m' := Extended(m, size);
    forall j: nat ensures OwnedAt(m', segs, j) { assert OwnedAt(m, segs, j); }
    forall i: nat, j: nat ensures DistinctAt(m', i, j) { assert DistinctAt(m, i, j); }
  }
}
