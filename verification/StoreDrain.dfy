/** How long the pager and the device can go on by themselves: a bound on the number of steps
    until every request of every object has been answered and every device write is done. */
module StoreDrain {
  import opened Options
  import opened Sums
  import opened ClusterMaps
  import opened PageStore
  import Proof = PageStoreProof
  import P = Protocol
  import S = PagerSystem

  // ----- the measure -----

  /** Steps a data_return has before it, not counting those of its chunks. */
  function WrLeft(x: Wr): nat { if x.cur < End(x) then 5 * (End(x) - x.cur) else 0 }

  /** Steps a device write has before it. */
  function IoLeft(x: IoRec): nat {
    match x.st
    case Mapped => 4
    case Queued => 3
    case Landed => 2
    case Marked => 1
  }

  function Stage(st: RdSt): nat {
    match st
    case Idle => 0
    case Unavail(_) => 1
    case Found(_, _) => 1
    case InBuffer(_) => 2
    case Taken(_) => 3
  }

  /** Steps a data_request has before it. */
  function RdLeft(x: Rd): nat { if x.cur < x.hi then 5 * (x.hi - x.cur) - Stage(x.st) else 0 }

  ghost function Left(o: Obj): nat { Sum(Over(o.wr, WrLeft)) + Sum(Over(o.rd, RdLeft)) + Sum(Over(o.io, IoLeft)) }

  /** An upper bound on the steps of one object. */
  ghost function StoreBound(o: Obj): nat { P.Bound(o.vs) + Left(o) }

  // ----- every step of the pager or the device lowers it -----

  lemma WriteMapShrinks(s: St, w: nat, id: nat, loc: Loc)
    requires CanWriteMap(s, w, id, loc)
    ensures StoreBound(DoWriteMap(s, w, id, loc).o) < StoreBound(s.o)
  {
    var o, t := s.o, DoWriteMap(s, w, id, loc).o;
    OverPut(o.wr, w, t.wr[w], WrLeft);
    OverPut(o.io, id, t.io[id], IoLeft);
  }

  lemma WriteIssueShrinks(s: St, w: nat, async: bool)
    requires P.Inv(s.o.vs) && CanWriteIssue(s, w) && P.Enabled(s.o.vs, IssueAction(s, w, async))
    ensures StoreBound(DoWriteIssue(s, w, async).o) < StoreBound(s.o)
  {
    var o, t := s.o, DoWriteIssue(s, w, async).o;
    var id := o.wr[w].busy.value;
    OverPut(o.wr, w, t.wr[w], WrLeft);
    OverPut(o.io, id, t.io[id], IoLeft);
    P.BoundShrinks(o.vs, IssueAction(s, w, async));
  }

  lemma WriteFinishShrinks(s: St, w: nat)
    requires P.Inv(s.o.vs) && CanWriteFinish(s, w)
    ensures StoreBound(DoWriteFinish(s, w).o) < StoreBound(s.o)
  {
    OverDrop(s.o.wr, w, WrLeft);
    P.BoundShrinks(s.o.vs, P.FinishWrite(w));
  }

  lemma LandShrinks(s: St, id: nat)
    requires CanLand(s, id)
    ensures StoreBound(DoLand(s, id).o) < StoreBound(s.o)
  {
    OverPut(s.o.io, id, DoLand(s, id).o.io[id], IoLeft);
  }

  lemma MarkShrinks(s: St, id: nat)
    requires CanMark(s, id)
    ensures StoreBound(DoMark(s, id).o) < StoreBound(s.o)
  {
    OverPut(s.o.io, id, DoMark(s, id).o.io[id], IoLeft);
  }

  lemma RetireShrinks(s: St, id: nat)
    requires P.Inv(s.o.vs) && CanRetire(s, id)
    ensures StoreBound(DoRetire(s, id).o) < StoreBound(s.o)
  {
    if s.o.io[id].async { RetireAsync(s, id); } else { RetireSync(s, id); }
  }

  lemma RetireAsync(s: St, id: nat)
    requires P.Inv(s.o.vs) && CanRetire(s, id) && s.o.io[id].async
    ensures StoreBound(DoRetire(s, id).o) < StoreBound(s.o)
  {
    OverDrop(s.o.io, id, IoLeft);
    P.BoundShrinks(s.o.vs, P.Complete(id));
  }

  lemma RetireSync(s: St, id: nat)
    requires CanRetire(s, id) && !s.o.io[id].async
    ensures StoreBound(DoRetire(s, id).o) < StoreBound(s.o)
  {
    var w := s.o.io[id].w;
    var x := s.o.wr[w].(busy := None);
    assert DoRetire(s, id).o == s.o.(wr := s.o.wr[w := x], io := s.o.io - {id});
    OverDrop(s.o.io, id, IoLeft);
    OverPut(s.o.wr, w, x, WrLeft);
  }

  /** A data_request that has moved on. */
  lemma ReadOn(s: St, t: St, r: nat, x: Rd)
    requires r in s.o.rd && t.o.vs == s.o.vs && t.o.wr == s.o.wr && t.o.io == s.o.io && t.o.rd == s.o.rd[r := x]
    requires RdLeft(x) < RdLeft(s.o.rd[r])
    ensures StoreBound(t.o) < StoreBound(s.o)
  {
    OverPut(s.o.rd, r, x, RdLeft);
  }

  lemma ReadShrinks(s: St, r: nat)
    requires RdOk(s.o, r)
    ensures CanLookup(s, r) ==> StoreBound(DoLookup(s, r).o) < StoreBound(s.o)
    ensures CanReplyUnavail(s, r) ==> StoreBound(DoReplyUnavail(s, r).o) < StoreBound(s.o)
    ensures CanDevRead(s, r) ==> StoreBound(DoDevRead(s, r).o) < StoreBound(s.o)
    ensures CanUnmap(s, r) ==> StoreBound(DoUnmap(s, r).o) < StoreBound(s.o)
    ensures CanSupply(s, r) ==> StoreBound(DoSupply(s, r).o) < StoreBound(s.o)
  {
    if CanLookup(s, r) { ReadOn(s, DoLookup(s, r), r, DoLookup(s, r).o.rd[r]); }
    if CanReplyUnavail(s, r) { ReadOn(s, DoReplyUnavail(s, r), r, DoReplyUnavail(s, r).o.rd[r]); }
    if CanDevRead(s, r) { ReadOn(s, DoDevRead(s, r), r, DoDevRead(s, r).o.rd[r]); }
    if CanUnmap(s, r) { ReadOn(s, DoUnmap(s, r), r, DoUnmap(s, r).o.rd[r]); }
    if CanSupply(s, r) { ReadOn(s, DoSupply(s, r), r, DoSupply(s, r).o.rd[r]); }
  }

  lemma ReadFinishShrinks(s: St, r: nat)
    requires P.Inv(s.o.vs) && CanReadFinish(s, r)
    ensures StoreBound(DoReadFinish(s, r).o) < StoreBound(s.o)
  {
    OverDrop(s.o.rd, r, RdLeft);
    P.BoundShrinks(s.o.vs, P.FinishRead(r));
  }

  lemma ThreadShrinks(s: St, a: P.Action)
    requires P.Inv(s.o.vs) && CanThread(s, a) && !a.Arrive?
    ensures StoreBound(DoThread(s, a).o) < StoreBound(s.o)
  {
    P.BoundShrinks(s.o.vs, a);
  }

  lemma StoreShrinks(s: St, a: Action)
    requires P.Inv(s.o.vs) && (forall r: nat :: RdOk(s.o, r)) && Enabled(s, a) && Proof.IsPagers(a)
    ensures StoreBound(Apply(s, a).o) < StoreBound(s.o)
  {
    if a.Thread? {
      ThreadShrinks(s, a.a);
    } else if a.WriteMap? {
      WriteMapShrinks(s, a.w, a.id, a.loc);
    } else if a.WriteIssue? {
      WriteIssueShrinks(s, a.w, a.async);
    } else if a.WriteFinish? {
      WriteFinishShrinks(s, a.w);
    } else if a.Land? {
      LandShrinks(s, a.id);
    } else if a.Mark? {
      MarkShrinks(s, a.id);
    } else if a.Retire? {
      RetireShrinks(s, a.id);
    } else if a.ReadFinish? {
      ReadFinishShrinks(s, a.r);
    } else {
      assert RdOk(s.o, a.r);
      ReadShrinks(s, a.r);
    }
  }

  // ----- all objects together -----

  /** The total of a measure over all objects. */
  ghost function Total(s: S.Sys, f: Obj -> nat): nat { Sum(Over(s.objs, f)) }

  /** An upper bound on the steps of all objects. */
  ghost function SysBound(s: S.Sys): nat { Total(s, StoreBound) }

  predicate IsPagers(e: S.Event) { e.Object? && Proof.IsPagers(e.a) }

  lemma ObjectOk(s: S.Sys, id: nat)
    requires S.SysInv(s) && id in s.objs
    ensures P.Inv(s.objs[id].vs) && forall r: nat :: RdOk(s.objs[id], r)
  {
    assert S.ObjOk(s, id);
  }

  lemma TotalPut(s: S.Sys, t: S.Sys, id: nat, o: Obj, f: Obj -> nat)
    requires id in s.objs && t.objs == s.objs[id := o] && f(o) < f(s.objs[id])
    ensures Total(t, f) < Total(s, f)
  {
    OverPut(s.objs, id, o, f);
  }

  lemma ObjectStep(s: S.Sys, id: nat, a: Action)
    requires id in s.objs && Enabled(S.View(s, id), a)
    ensures S.Apply(s, S.Object(id, a)).objs == s.objs[id := Apply(S.View(s, id), a).o]
  {
  }

  lemma SysShrinks(s: S.Sys, t: S.Sys, id: nat, a: Action)
    requires id in s.objs && P.Inv(s.objs[id].vs) && (forall r: nat :: RdOk(s.objs[id], r))
    requires Enabled(S.View(s, id), a) && Proof.IsPagers(a) && t.objs == s.objs[id := Apply(S.View(s, id), a).o]
    ensures SysBound(t) < SysBound(s)
  {
    StoreShrinks(S.View(s, id), a);
    TotalPut(s, t, id, t.objs[id], StoreBound);
  }

  lemma RunShrinks(tr: seq<S.Sys>, ev: seq<S.Event>, i: nat)
    requires S.IsRun(tr, ev) && i < |ev| && IsPagers(ev[i])
    ensures SysBound(tr[i + 1]) < SysBound(tr[i])
  {
    S.RunKeeps(tr, ev, i);
    assert S.Enabled(tr[i], ev[i]) && tr[i + 1] == S.Apply(tr[i], ev[i]);
    ObjectOk(tr[i], ev[i].id);
    ObjectStep(tr[i], ev[i].id, ev[i].a);
    SysShrinks(tr[i], tr[i + 1], ev[i].id, ev[i].a);
  }

  /** From step n on, the run goes m steps without the kernel. */
  ghost predicate Quiet(tr: seq<S.Sys>, ev: seq<S.Event>, n: nat, m: nat) {
    S.IsRun(tr, ev) && n + m <= |ev| && forall i: nat | n <= i < n + m :: IsPagers(ev[i])
  }

  /** A measure that falls m times from step n on. */
  lemma {:induction false} Falls(tr: seq<S.Sys>, n: nat, m: nat, f: S.Sys -> nat)
    requires n + m < |tr| && forall i: nat | n <= i < n + m :: f(tr[i + 1]) < f(tr[i])
    ensures m + f(tr[n + m]) <= f(tr[n])
    decreases m
  {
    if m > 0 {
      var i := n + (m - 1);
      Falls(tr, n, m - 1, f);
      assert f(tr[i + 1]) < f(tr[i]);
    }
  }

  /** Liveness.  In every run of any number of objects, whatever the scheduler does, at most
      SysBound steps can happen in a row without the kernel. */
  lemma SysDrains(tr: seq<S.Sys>, ev: seq<S.Event>, n: nat, m: nat)
    requires Quiet(tr, ev, n, m)
    ensures m + SysBound(tr[n + m]) <= SysBound(tr[n])
  {
    forall i: nat | n <= i < n + m ensures SysBound(tr[i + 1]) < SysBound(tr[i]) { RunShrinks(tr, ev, i); }
    Falls(tr, n, m, SysBound);
  }

  /** When they are over and a cluster is free, every request of every object has been answered
      and no device write is outstanding. */
  lemma SysSettles(tr: seq<S.Sys>, ev: seq<S.Event>, n: nat, id: nat, loc: Loc)
    requires S.IsRun(tr, ev) && n <= |ev| && id in tr[n].objs && loc !in tr[n].used && loc.cloff < ENTRY_NULL
    requires forall e :: IsPagers(e) ==> !S.Enabled(tr[n], e)
    ensures P.Quiescent(tr[n].objs[id].vs) && tr[n].objs[id].io == map[]
  {
    if !P.Quiescent(tr[n].objs[id].vs) || tr[n].objs[id].io != map[] {
      var a := S.NeverStuck(tr, ev, n, id, loc);
      assert IsPagers(S.Object(id, a));
    }
  }
}
