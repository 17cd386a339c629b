/** What the kernel hears: over every run, the replies to a data_request name its pages one
    after the other, each once, and the kernel holds exactly the pages those replies gave it. */
module PagerReplies {
  import opened Options
  import opened Arith
  import opened ClusterMaps
  import opened PageStore
  import opened PagerSystem
  import S = PagerSystem
  import P = Protocol

  /** The n pages from lo on, in order. */
  function Span(lo: nat, n: nat): (r: seq<nat>)
    ensures |r| == n && forall i: nat | i < n :: r[i] == lo + i
  {
    seq(n, i requires 0 <= i < n => lo + i)
  }

  /** The pages an event tells the kernel of object id about, in reply to data_request r. */
  ghost function NamedBy(s: Sys, e: Event, id: nat, r: nat): seq<nat>
    requires S.Enabled(s, e)
  {
    match e
    case Object(i, ReplyUnavail(q)) =>
      if i == id && q == r then Span(s.objs[id].rd[r].cur, s.objs[id].rd[r].st.n) else []
    case Object(i, Supply(q)) =>
      if i == id && q == r then Span(s.objs[id].rd[r].cur, |s.objs[id].rd[r].st.data|) else []
    case _ => []
  }

  /** The range of the SendRead that gets number r. */
  ghost function Sends(s: Sys, e: Event, id: nat, r: nat): Option<(nat, nat)>
    requires S.Enabled(s, e)
  {
    match e
    case Object(i, SendRead(lo, hi)) => if i == id && s.objs[id].vs.next == r then Some((lo, hi)) else None
    case _ => None
  }

  /** The event begins or ends the object. */
  predicate Bounds(e: Event, id: nat) { (e.Create? || e.Destroy?) && e.id == id }

  /** The pages data_request r asked for, read off the run. */
  ghost function AskedFor(tr: seq<Sys>, ev: seq<Event>, n: nat, id: nat, r: nat): Option<(nat, nat)>
    requires IsRun(tr, ev) && n <= |ev|
  {
    if n == 0 || Bounds(ev[n - 1], id) then None
    else if Sends(tr[n - 1], ev[n - 1], id, r).Some? then Sends(tr[n - 1], ev[n - 1], id, r)
    else AskedFor(tr, ev, n - 1, id, r)
  }

  /** The pages named by the replies to data_request r since it was sent, in the order of the
      replies: memory_object_data_unavailable and memory_object_data_supply. */
  ghost function Named(tr: seq<Sys>, ev: seq<Event>, n: nat, id: nat, r: nat): seq<nat>
    requires IsRun(tr, ev) && n <= |ev|
  {
    if n == 0 || Bounds(ev[n - 1], id) || Sends(tr[n - 1], ev[n - 1], id, r).Some? then []
    else Named(tr, ev, n - 1, id, r) + NamedBy(tr[n - 1], ev[n - 1], id, r)
  }

  lemma SpanMore(lo: nat, n: nat, k: nat)
    ensures Span(lo, n) + Span(lo + n, k) == Span(lo, n + k)
  {
  }

  /** How one step of its object changes a data_request: only a reply to it moves it on. */
  lemma ReadStep(s: St, a: Action, r: nat)
    requires PageStore.Enabled(s, a) && r in PageStore.Apply(s, a).o.rd
    requires !(a.SendRead? && s.o.vs.next == r)
    ensures r in s.o.rd
    ensures var x, y := s.o.rd[r], PageStore.Apply(s, a).o.rd[r];
            y.lo == x.lo && y.hi == x.hi && y.cur ==
            (match a
             case ReplyUnavail(q) => if q == r then x.cur + x.st.n else x.cur
             case Supply(q) => if q == r then x.cur + |x.st.data| else x.cur
             case _ => x.cur)
  {
  }

  ghost predicate HasRead(s: Sys, id: nat, r: nat) { id in s.objs && r in s.objs[id].rd }

  /** An event that leaves a data_request under way sent it just now, or moved it on by the
      pages it named. */
  lemma ReadEvent(s: Sys, e: Event, id: nat, r: nat)
    requires S.Enabled(s, e) && HasRead(S.Apply(s, e), id, r)
    ensures !Bounds(e, id)
    ensures Sends(s, e, id, r).Some? ==>
              var y := S.Apply(s, e).objs[id].rd[r]; Sends(s, e, id, r) == Some((y.lo, y.hi)) && y.cur == y.lo <= y.hi
    ensures Sends(s, e, id, r).None? ==>
              && HasRead(s, id, r)
              && var x, y := s.objs[id].rd[r], S.Apply(s, e).objs[id].rd[r];
                 y.lo == x.lo && y.hi == x.hi && y.cur >= x.cur && NamedBy(s, e, id, r) == Span(x.cur, y.cur - x.cur)
  {
    if e.Object? && e.id == id && Sends(s, e, id, r).None? { ReadStep(View(s, id), e.a, r); }
  }

  ghost predicate Told(tr: seq<Sys>, ev: seq<Event>, n: nat, id: nat, r: nat, x: Rd)
    requires IsRun(tr, ev) && n <= |ev|
  {
    && x.lo <= x.cur && AskedFor(tr, ev, n, id, r) == Some((x.lo, x.hi))
    && Named(tr, ev, n, id, r) == Span(x.lo, x.cur - x.lo)
  }

  lemma ToldMore(tr: seq<Sys>, ev: seq<Event>, n: nat, m: nat, id: nat, r: nat, x: Rd, y: Rd)
    requires IsRun(tr, ev) && n < |ev| && m == n + 1 && Told(tr, ev, n, id, r, x)
    requires !Bounds(ev[n], id) && Sends(tr[n], ev[n], id, r).None?
    requires y.lo == x.lo && y.hi == x.hi && y.cur >= x.cur
    requires NamedBy(tr[n], ev[n], id, r) == Span(x.cur, y.cur - x.cur)
    ensures Told(tr, ev, m, id, r, y)
  {
    SpanMore(x.lo, x.cur - x.lo, y.cur - x.cur);
  }

  /** A data_request that is under way has been told about the pages before cur. */
  lemma {:induction false} NamedSoFar(tr: seq<Sys>, ev: seq<Event>, n: nat, id: nat, r: nat)
    requires IsRun(tr, ev) && n <= |ev| && HasRead(tr[n], id, r)
    ensures Told(tr, ev, n, id, r, tr[n].objs[id].rd[r])
  {
    if n > 0 {
      var s, e := tr[n - 1], ev[n - 1];
      ReadEvent(s, e, id, r);
      if Sends(s, e, id, r).None? {
        NamedSoFar(tr, ev, n - 1, id, r);
        ToldMore(tr, ev, n - 1, n, id, r, s.objs[id].rd[r], tr[n].objs[id].rd[r]);
      }
    }
  }

  /** In every run, when a data_request finishes, the replies to it have named exactly the pages
      lo, lo + 1, ..., hi - 1 it asked for, in this order and each once. */
  lemma AllAnswered(tr: seq<Sys>, ev: seq<Event>, n: nat, id: nat, r: nat)
    requires IsRun(tr, ev) && n < |ev| && ev[n] == Object(id, ReadFinish(r))
    ensures AskedFor(tr, ev, n, id, r).Some?
    ensures var (lo, hi) := AskedFor(tr, ev, n, id, r).value;
            lo <= hi && Named(tr, ev, n, id, r) == Span(lo, hi - lo)
  {
    NamedSoFar(tr, ev, n, id, r);
  }

  /** The valid bit of page p. */
  predicate OnDevice(o: Obj, p: nat)
    requires o.cls > 0
  {
    Rem(p, o.cls) in EntAt(o, p).bmap
  }

  lemma LongestRun(o: Obj, x: Rd)
    requires o.cls > 0 && x.cur < x.hi && (IsClr(EntAt(o, x.cur)) ==> EntAt(o, x.cur) == ClearEntry)
    ensures var st := LookUp(o, x);
            && (st.Found? <==> OnDevice(o, x.cur)) && (st.Unavail? <==> !OnDevice(o, x.cur)) && RunLen(st) > 0
            && (x.cur + RunLen(st) < x.hi && Rem(x.cur, o.cls) + RunLen(st) < o.cls ==>
                  OnDevice(o, x.cur + RunLen(st)) != OnDevice(o, x.cur))
  {
    var n := RunLen(LookUp(o, x));
    if Rem(x.cur, o.cls) + n < o.cls { ChunkPages(o.cls, x.cur, n + 1, x.cur + n); }
  }

  /** In every run, a lookup takes the longest run it can: up to the end of the request, the end
      of the cluster, or the first page whose valid bit differs. */
  lemma RunsAreLongest(tr: seq<Sys>, ev: seq<Event>, n: nat, id: nat, r: nat)
    requires IsRun(tr, ev) && n < |ev| && ev[n] == Object(id, Lookup(r))
    ensures HasRead(tr[n], id, r) && HasRead(tr[n + 1], id, r) && tr[n].objs[id].cls > 0
    ensures var o, x, st := tr[n].objs[id], tr[n].objs[id].rd[r], tr[n + 1].objs[id].rd[r].st;
            && (st.Found? <==> OnDevice(o, x.cur)) && (st.Unavail? <==> !OnDevice(o, x.cur)) && RunLen(st) > 0
            && (x.cur + RunLen(st) < x.hi && Rem(x.cur, o.cls) + RunLen(st) < o.cls ==>
                  OnDevice(o, x.cur + RunLen(st)) != OnDevice(o, x.cur))
  {
    var o := tr[n].objs[id];
    RunKeeps(tr, ev, n);
    assert ObjOk(tr[n], id) && EntOk(View(tr[n], id), Quot(o.rd[r].cur, o.cls));
    LongestRun(o, o.rd[r]);
  }

  // ----- the kernel's side -----

  /** A page as the kernel sees it. */
  datatype Sight = Away | Waiting | Here

  /** What an event says about page p of object id. */
  ghost function Shows(s: Sys, e: Event, id: nat, p: nat): Option<Sight>
    requires S.Enabled(s, e)
  {
    if e.id != id then None
    else
      match e
      case Create(_, _, resident) => Some(if p in resident then Here else Away)
      case Destroy(_) => Some(Away)
      case Object(_, SendWrite(lo, data)) => if lo <= p < lo + |data| then Some(Away) else None
      case Object(_, Drop(q)) => if q == p then Some(Away) else None
      case Object(_, SendRead(lo, hi)) => if lo <= p < hi then Some(Waiting) else None
      case Object(_, ReplyUnavail(r)) => if p in NamedBy(s, e, id, r) then Some(Here) else None
      case Object(_, Supply(r)) => if p in NamedBy(s, e, id, r) then Some(Here) else None
      case _ => None
  }

  /** Read off the run: the kernel holds a page since it was last named in a reply (or since the
      object was created around it), until it pages the page out or drops it; it waits for a
      page since it last asked for it. */
  ghost function Seen(tr: seq<Sys>, ev: seq<Event>, n: nat, id: nat, p: nat): Sight
    requires IsRun(tr, ev) && n <= |ev|
  {
    if n == 0 then Away
    else
      match Shows(tr[n - 1], ev[n - 1], id, p)
      case Some(sight) => sight
      case None => Seen(tr, ev, n - 1, id, p)
  }

  ghost function Sighted(o: Obj, p: nat): Sight {
    if p in o.resident then Here else if p in o.asked then Waiting else Away
  }

  lemma InSpan(lo: nat, n: nat, p: nat)
    ensures p in Span(lo, n) <==> lo <= p < lo + n
  {
    if lo <= p < lo + n { assert Span(lo, n)[p - lo] == p; }
  }

  lemma SightStep(s: St, a: Action, p: nat)
    requires PageStore.Enabled(s, a) && ResOk(s.o, p)
    ensures Sighted(PageStore.Apply(s, a).o, p) ==
            (match a
             case SendWrite(lo, data) => if lo <= p < lo + |data| then Away else Sighted(s.o, p)
             case Drop(q) => if q == p then Away else Sighted(s.o, p)
             case SendRead(lo, hi) => if lo <= p < hi then Waiting else Sighted(s.o, p)
             case ReplyUnavail(r) =>
               if s.o.rd[r].cur <= p < s.o.rd[r].cur + s.o.rd[r].st.n then Here else Sighted(s.o, p)
             case Supply(r) =>
               if s.o.rd[r].cur <= p < s.o.rd[r].cur + |s.o.rd[r].st.data| then Here else Sighted(s.o, p)
             case _ => Sighted(s.o, p))
  {
  }

  lemma SightEvent(s: Sys, e: Event, id: nat, p: nat)
    requires S.Enabled(s, e) && id in S.Apply(s, e).objs && (id in s.objs ==> ResOk(s.objs[id], p))
    ensures match Shows(s, e, id, p)
            case Some(sight) => Sighted(S.Apply(s, e).objs[id], p) == sight
            case None => id in s.objs && Sighted(S.Apply(s, e).objs[id], p) == Sighted(s.objs[id], p)
  {
    if e.Object? && e.id == id {
      SightStep(View(s, id), e.a, p);
      match e.a
      case ReplyUnavail(r) => InSpan(s.objs[id].rd[r].cur, s.objs[id].rd[r].st.n, p);
      case Supply(r) => InSpan(s.objs[id].rd[r].cur, |s.objs[id].rd[r].st.data|, p);
      case _ =>
    }
  }

  lemma HeldNotAsked(tr: seq<Sys>, ev: seq<Event>, n: nat, id: nat, p: nat)
    requires IsRun(tr, ev) && n <= |ev| && id in tr[n].objs
    ensures ResOk(tr[n].objs[id], p)
  {
    RunKeeps(tr, ev, n);
    assert ObjOk(tr[n], id);
  }

  /** In every run, the kernel holds a page or waits for it exactly if the requests and replies
      so far say so. */
  lemma {:induction false} KernelSees(tr: seq<Sys>, ev: seq<Event>, n: nat, id: nat, p: nat)
    requires IsRun(tr, ev) && n <= |ev| && id in tr[n].objs
    ensures Seen(tr, ev, n, id, p) == Sighted(tr[n].objs[id], p)
  {
    if n > 0 {
      if id in tr[n - 1].objs {
        KernelSees(tr, ev, n - 1, id, p);
        HeldNotAsked(tr, ev, n - 1, id, p);
      }
      SightEvent(tr[n - 1], ev[n - 1], id, p);
    }
  }

  ghost predicate AllSeen(tr: seq<Sys>, ev: seq<Event>, n: nat, id: nat, lo: nat, hi: nat, sight: Sight)
    requires IsRun(tr, ev) && n <= |ev|
  {
    forall p: nat | lo <= p < hi :: Seen(tr, ev, n, id, p) == sight
  }

  ghost predicate AllSighted(o: Obj, lo: nat, hi: nat, sight: Sight) {
    forall p: nat | lo <= p < hi :: Sighted(o, p) == sight
  }

  lemma SeenAre(tr: seq<Sys>, ev: seq<Event>, n: nat, id: nat, lo: nat, hi: nat, sight: Sight)
    requires IsRun(tr, ev) && n <= |ev| && id in tr[n].objs
    ensures AllSeen(tr, ev, n, id, lo, hi, sight) <==> AllSighted(tr[n].objs[id], lo, hi, sight)
  {
    if p: nat :| lo <= p < hi && Seen(tr, ev, n, id, p) != sight {
      KernelSees(tr, ev, n, id, p);
      assert !AllSighted(tr[n].objs[id], lo, hi, sight);
    } else if p: nat :| lo <= p < hi && Sighted(tr[n].objs[id], p) != sight {
      KernelSees(tr, ev, n, id, p);
    }
  }

  /** When the kernel may act: it pages out pages it holds, asks for pages it neither holds nor
      waits for, forgets a page it holds, and may always terminate or send other requests. */
  lemma KernelMayAct(tr: seq<Sys>, ev: seq<Event>, n: nat, id: nat, lo: nat, hi: nat, data: seq<Data>)
    requires IsRun(tr, ev) && n <= |ev| && id in tr[n].objs
    ensures S.Enabled(tr[n], Object(id, SendRead(lo, hi))) <==> lo <= hi && AllSeen(tr, ev, n, id, lo, hi, Away)
    ensures S.Enabled(tr[n], Object(id, SendWrite(lo, data))) <==> AllSeen(tr, ev, n, id, lo, lo + |data|, Here)
    ensures S.Enabled(tr[n], Object(id, Drop(lo))) <==> Seen(tr, ev, n, id, lo) == Here
    ensures S.Enabled(tr[n], Object(id, Thread(P.Arrive(P.Terminate))))
    ensures S.Enabled(tr[n], Object(id, Thread(P.Arrive(P.Plain))))
  {
    SeenAre(tr, ev, n, id, lo, hi, Away);
    SeenAre(tr, ev, n, id, lo, lo + |data|, Here);
    KernelSees(tr, ev, n, id, lo);
    SysMayAct(tr[n], id, lo, hi, data);
  }

  lemma SysMayAct(s: Sys, id: nat, lo: nat, hi: nat, data: seq<Data>)
    requires id in s.objs
    ensures S.Enabled(s, Object(id, SendRead(lo, hi))) <==> lo <= hi && AllSighted(s.objs[id], lo, hi, Away)
    ensures S.Enabled(s, Object(id, SendWrite(lo, data))) <==> AllSighted(s.objs[id], lo, lo + |data|, Here)
    ensures S.Enabled(s, Object(id, Drop(lo))) <==> Sighted(s.objs[id], lo) == Here
    ensures S.Enabled(s, Object(id, Thread(P.Arrive(P.Terminate))))
    ensures S.Enabled(s, Object(id, Thread(P.Arrive(P.Plain))))
  {
    if lo <= hi { MayAct(s.objs[id], lo, hi); }
    MayAct(s.objs[id], lo, lo + |data|);
    assert Bits(lo, lo + |data| - lo) == Bits(lo, |data|);
  }

  lemma MayAct(o: Obj, lo: nat, hi: nat)
    requires lo <= hi
    ensures Bits(lo, hi - lo) !! o.resident && Bits(lo, hi - lo) !! o.asked.Keys <==> AllSighted(o, lo, hi, Away)
    ensures Bits(lo, hi - lo) <= o.resident <==> AllSighted(o, lo, hi, Here)
  {
    if AllSighted(o, lo, hi, Away) {
      forall p | p in Bits(lo, hi - lo) ensures p !in o.resident && p !in o.asked { assert Sighted(o, p) == Away; }
    }
    if AllSighted(o, lo, hi, Here) {
      forall p | p in Bits(lo, hi - lo) ensures p in o.resident { assert Sighted(o, p) == Here; }
    }
  }
}
