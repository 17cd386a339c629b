/** One memory object end to end: the kernel, the request protocol, the cluster map, the
    device and its asynchronous completions, one atomic step at a time.

    The kernel pages out only pages it holds and asks only for pages it does not hold and
    has not asked for already.  Device errors and lack of paging space are excluded here
    (module Ownership has them).  Other objects are an environment that may change any
    cluster this object does not own; module PagerSystem composes the objects. */
module PageStore {
  import opened Options
  import opened Arith
  import opened ClusterMaps
  import P = Protocol

  const PAGE: nat := 4096

  /** Contents of one page. */
  type Data = seq<bv8>

  /** One page of one cluster on the paging device. */
  datatype Slot = Slot(loc: Loc, page: nat)

  /** Where the latest contents of a page the kernel has given up are. */
  datatype Place =
    | Unsent(w: nat)   // in a data_return the pager has not started to write
    | Flying(id: nat)  // being written
    | Stored           // on the device, valid bit set
    | Held(r: nat)     // unmapped and in the buffer of data_request r

  datatype IoSt =
    | Mapped   // ps_clmap(CL_ALLOC) done
    | Queued   // handed to the device
    | Landed   // on the device
    | Marked   // ps_vs_write_complete done

  /** One device write of a chunk of pages inside one cluster. */
  datatype IoRec = IoRec(w: nat, lo: nat, data: seq<Data>, loc: Loc, async: bool, st: IoSt)

  /** A data_return: pages from cur on still have to be mapped and written; busy is the
      chunk the body is dealing with. */
  datatype Wr = Wr(lo: nat, data: seq<Data>, cur: nat, busy: Option<nat>)

  datatype RdSt =
    | Idle
    | Unavail(n: nat)           // n pages found missing, reply not sent yet
    | Found(n: nat, loc: Loc)   // n valid pages found in cluster loc
    | InBuffer(data: seq<Data>) // read from the device
    | Taken(data: seq<Data>)    // unmapped, about to be supplied

  /** A data_request: pages from cur on have not been answered. */
  datatype Rd = Rd(lo: nat, hi: nat, cur: nat, st: RdSt)

  /** store is the plain page map this object implements; where and asked are bookkeeping
      for the proof (which request a page belongs to). */
  datatype Obj = Obj(
    cls: nat, vs: P.Vs, ents: seq<Entry>,
    wr: map<nat, Wr>, rd: map<nat, Rd>, io: map<nat, IoRec>,
    resident: set<nat>, asked: map<nat, nat>, where: map<nat, Place>, store: map<nat, Data>)

  datatype St = St(o: Obj, used: set<Loc>, dev: map<Slot, Data>)

  datatype Action =
    | SendWrite(lo: nat, data: seq<Data>)
    | SendRead(lo: nat, hi: nat)
    | Drop(p: nat)                          // the kernel forgets a page it holds
    | Thread(a: P.Action)                   // critical sections, broadcasts, other requests
    | WriteMap(w: nat, id: nat, loc: Loc)
    | WriteIssue(w: nat, async: bool)
    | Land(id: nat)
    | Mark(id: nat)
    | Retire(id: nat)
    | WriteFinish(w: nat)
    | Lookup(r: nat)
    | ReplyUnavail(r: nat)
    | DevRead(r: nat)
    | Unmap(r: nat)
    | Supply(r: nat)
    | ReadFinish(r: nat)

  // ----- helpers -----

  function End(x: Wr): nat { x.lo + |x.data| }

  function Put<T>(m: map<nat, T>, ps: set<nat>, v: T): map<nat, T> { m + map p | p in ps :: v }

  function PutData(m: map<nat, Data>, lo: nat, data: seq<Data>): map<nat, Data> {
    m + map p | p in Bits(lo, |data|) :: data[p - lo]
  }

  function Written(dev: map<Slot, Data>, loc: Loc, i: nat, data: seq<Data>): (r: map<Slot, Data>)
    ensures forall x: Slot :: x in r <==> x in dev || (x.loc == loc && i <= x.page < i + |data|)
    ensures forall x: Slot | x in r ::
              r[x] == if x.loc == loc && i <= x.page < i + |data| then data[x.page - i] else dev[x]
    decreases |data|
  {
    if data == [] then dev
    else Written(dev, loc, i, data[..|data| - 1])[Slot(loc, i + |data| - 1) := data[|data| - 1]]
  }

  function Get(dev: map<Slot, Data>, x: Slot): Data { if x in dev then dev[x] else [] }

  function Fetch(dev: map<Slot, Data>, loc: Loc, i: nat, n: nat): (r: seq<Data>)
    ensures |r| == n
  {
    seq(n, j requires 0 <= j < n => Get(dev, Slot(loc, i + j)))
  }

  function EntAt(o: Obj, p: nat): Entry
    requires o.cls > 0
  {
    At(o.ents, Quot(p, o.cls))
  }

  function SlotAt(o: Obj, p: nat): Slot
    requires o.cls > 0
  {
    Slot(LocOf(EntAt(o, p)), Rem(p, o.cls))
  }

  predicate InBody(o: Obj, n: nat) { n in o.vs.reqs && o.vs.reqs[n].pc.Body? }

  // ----- the kernel -----

  predicate CanSendWrite(s: St, lo: nat, data: seq<Data>) { Bits(lo, |data|) <= s.o.resident }

  function DoSendWrite(s: St, lo: nat, data: seq<Data>): St {
    var o := s.o; var n, bits := o.vs.next, Bits(lo, |data|);
    s.(o := o.(
       vs := P.Apply(o.vs, P.Arrive(P.DataReturn(PAGE * |data|))), wr := o.wr[n := Wr(lo, data, lo, None)],
       resident := o.resident - bits, where := Put(o.where, bits, Unsent(n)), store := PutData(o.store, lo, data)))
  }

  predicate CanSendRead(s: St, lo: nat, hi: nat) {
    lo <= hi && Bits(lo, hi - lo) !! s.o.resident && Bits(lo, hi - lo) !! s.o.asked.Keys
  }

  function DoSendRead(s: St, lo: nat, hi: nat): St
    requires CanSendRead(s, lo, hi)
  {
    var o := s.o; var n := o.vs.next;
    s.(o := o.(
       vs := P.Apply(o.vs, P.Arrive(P.DataRequest)), rd := o.rd[n := Rd(lo, hi, lo, Idle)],
       asked := Put(o.asked, Bits(lo, hi - lo), n)))
  }

  function DoDrop(s: St, p: nat): St { s.(o := s.o.(resident := s.o.resident - {p})) }

  // ----- protocol steps that touch no data: arrival of other requests, critical sections, broadcasts -----

  predicate CanThread(s: St, a: P.Action) {
    && (a.Run? || a.Broadcast? || (a.Arrive? && (a.kind.Terminate? || a.kind.Plain?)))
    && P.Enabled(s.o.vs, a)
  }

  function DoThread(s: St, a: P.Action): St
    requires CanThread(s, a)
  {
    s.(o := s.o.(vs := P.Apply(s.o.vs, a)))
  }

  // ----- vs_cluster_write and the device -----

  predicate CanWriteMap(s: St, w: nat, id: nat, loc: Loc) {
    var o := s.o;
    && o.cls > 0 && w in o.wr && InBody(o, w) && o.wr[w].busy.None? && o.wr[w].lo <= o.wr[w].cur < End(o.wr[w])
    && id !in o.io && loc !in s.used && loc.cloff < ENTRY_NULL
  }

  function ChunkLen(o: Obj, x: Wr): (n: nat)
    requires o.cls > 0 && x.lo <= x.cur < End(x)
    ensures 0 < n && x.cur + n <= End(x) && Rem(x.cur, o.cls) + n <= o.cls
    ensures x.cur + n == End(x) || Rem(x.cur, o.cls) + n == o.cls
  {
    Min(End(x) - x.cur, o.cls - Rem(x.cur, o.cls))
  }

  /** ps_clmap(CL_ALLOC); loc is the cluster ps_allocate_cluster would hand out. */
  function DoWriteMap(s: St, w: nat, id: nat, loc: Loc): St
    requires CanWriteMap(s, w, id, loc)
  {
    var o := s.o; var x := o.wr[w];
    var k, n := Quot(x.cur, o.cls), ChunkLen(o, x);
    var ents := Extended(o.ents, k + 1);
    var e := Allocated(ents[k], loc, Bits(Rem(x.cur, o.cls), n));
    s.(used := if IsClr(ents[k]) then s.used + {loc} else s.used,
    o := o.(
    ents := ents[k := e],
    wr := o.wr[w := x.(cur := x.cur + n, busy := Some(id))],
    io := o.io[id := IoRec(w, x.cur, x.data[x.cur - x.lo..x.cur - x.lo + n], LocOf(e), false, Mapped)],
    where := Put(o.where, Bits(x.cur, n), Flying(id))))
  }

  predicate CanWriteIssue(s: St, w: nat) {
    w in s.o.wr && s.o.wr[w].busy.Some? && s.o.wr[w].busy.value in s.o.io && s.o.io[s.o.wr[w].busy.value].st.Mapped?
  }

  /** vs_async_pending is raised and the device gets the request; without a vs_async
      structure the write is synchronous. */
  function IssueAction(s: St, w: nat, async: bool): P.Action
    requires CanWriteIssue(s, w)
  {
    var id := s.o.wr[w].busy.value;
    if async then P.Issue(w, id, PAGE * |s.o.io[id].data|) else P.WriteSync(w, PAGE * |s.o.io[id].data|)
  }

  function DoWriteIssue(s: St, w: nat, async: bool): St
    requires CanWriteIssue(s, w) && P.Enabled(s.o.vs, IssueAction(s, w, async))
  {
    var o := s.o; var id := o.wr[w].busy.value;
    s.(o := o.(
       vs := P.Apply(o.vs, IssueAction(s, w, async)),
       wr := o.wr[w := o.wr[w].(busy := if async then None else Some(id))],
       io := o.io[id := o.io[id].(async := async, st := Queued)]))
  }

  predicate CanLand(s: St, id: nat) { s.o.cls > 0 && id in s.o.io && s.o.io[id].st.Queued? }

  function DoLand(s: St, id: nat): St
    requires CanLand(s, id)
  {
    var x := s.o.io[id];
    s.(dev := Written(s.dev, x.loc, Rem(x.lo, s.o.cls), x.data), o := s.o.(io := s.o.io[id := x.(st := Landed)]))
  }

  predicate CanMark(s: St, id: nat) {
    s.o.cls > 0 && id in s.o.io && s.o.io[id].st.Landed? && Quot(s.o.io[id].lo, s.o.cls) < |s.o.ents|
  }

  /** ps_vs_write_complete: the valid bits are set. */
  function DoMark(s: St, id: nat): St
    requires CanMark(s, id)
  {
    var o := s.o; var x := o.io[id]; var k := Quot(x.lo, o.cls);
    s.(o := o.(
       ents := o.ents[k := Completed(o.ents[k], Bits(Rem(x.lo, o.cls), |x.data|))],
       io := o.io[id := x.(st := Marked)],
       where := Put(o.where, Bits(x.lo, |x.data|), Stored)))
  }

  predicate CanRetire(s: St, id: nat) {
    && id in s.o.io && s.o.io[id].st.Marked?
    && if s.o.io[id].async then P.Enabled(s.o.vs, P.Complete(id)) else s.o.io[id].w in s.o.wr
  }

  /** The end of vs_cl_write_complete: vs_async_pending is lowered, or the body goes on. */
  function DoRetire(s: St, id: nat): St
    requires CanRetire(s, id)
  {
    var o := s.o; var x := o.io[id];
    s.(o := if x.async then o.(vs := P.Apply(o.vs, P.Complete(id)), io := o.io - {id})
            else o.(wr := o.wr[x.w := o.wr[x.w].(busy := None)], io := o.io - {id}))
  }

  predicate CanWriteFinish(s: St, w: nat) {
    w in s.o.wr && s.o.wr[w].busy.None? && s.o.wr[w].cur == End(s.o.wr[w]) && P.Enabled(s.o.vs, P.FinishWrite(w))
  }

  function DoWriteFinish(s: St, w: nat): St
    requires CanWriteFinish(s, w)
  {
    s.(o := s.o.(vs := P.Apply(s.o.vs, P.FinishWrite(w)), wr := s.o.wr - {w}))
  }

  // ----- vs_cluster_read -----

  predicate CanLookup(s: St, r: nat) {
    s.o.cls > 0 && r in s.o.rd && InBody(s.o, r) && s.o.rd[r].st.Idle? && s.o.rd[r].cur < s.o.rd[r].hi
  }

  /** What ps_clmap(CL_FIND) and the counting loop find at page cur. */
  function LookUp(o: Obj, x: Rd): RdSt
    requires o.cls > 0 && x.cur < x.hi
  {
    var e, i, max := EntAt(o, x.cur), Rem(x.cur, o.cls), Min(o.cls - Rem(x.cur, o.cls), x.hi - x.cur);
    if IsClr(e) then Unavail(max)
    else if i in e.bmap then Found(RunLength(e.bmap, i, max), LocOf(e))
    else Unavail(RunLength(e.bmap, i, max))
  }

  function DoLookup(s: St, r: nat): St
    requires CanLookup(s, r)
  {
    s.(o := s.o.(rd := s.o.rd[r := s.o.rd[r].(st := LookUp(s.o, s.o.rd[r]))]))
  }

  predicate CanReplyUnavail(s: St, r: nat) { r in s.o.rd && s.o.rd[r].st.Unavail? }

  function DoReplyUnavail(s: St, r: nat): St
    requires CanReplyUnavail(s, r)
  {
    var o := s.o; var x := o.rd[r]; var bits := Bits(x.cur, x.st.n);
    s.(o := o.(
       rd := o.rd[r := x.(cur := x.cur + x.st.n, st := Idle)],
       asked := o.asked - bits, resident := o.resident + bits))
  }

  predicate CanDevRead(s: St, r: nat) { s.o.cls > 0 && r in s.o.rd && s.o.rd[r].st.Found? }

  function DoDevRead(s: St, r: nat): St
    requires CanDevRead(s, r)
  {
    var x := s.o.rd[r];
    s.(o := s.o.(rd := s.o.rd[r := x.(st := InBuffer(Fetch(s.dev, x.st.loc, Rem(x.cur, s.o.cls), x.st.n)))]))
  }

  predicate CanUnmap(s: St, r: nat) {
    s.o.cls > 0 && r in s.o.rd && s.o.rd[r].st.InBuffer? && Quot(s.o.rd[r].cur, s.o.cls) < |s.o.ents|
  }

  /** ps_clunmap of the pages about to be supplied; the cluster goes back with its last page. */
  function DoUnmap(s: St, r: nat): St
    requires CanUnmap(s, r)
  {
    var o := s.o; var x := o.rd[r]; var k, n := Quot(x.cur, o.cls), |x.st.data|;
    var e := Unmapped(o.ents[k], Bits(Rem(x.cur, o.cls), n));
    s.(used := if IsClr(e) && !IsClr(o.ents[k]) then s.used - {LocOf(o.ents[k])} else s.used,
    o := o.(
    ents := o.ents[k := e], rd := o.rd[r := x.(st := Taken(x.st.data))],
    where := Put(o.where, Bits(x.cur, n), Held(r))))
  }

  predicate CanSupply(s: St, r: nat) { r in s.o.rd && s.o.rd[r].st.Taken? }

  /** memory_object_data_supply: the kernel gets the pages, the store no longer has them. */
  function DoSupply(s: St, r: nat): St
    requires CanSupply(s, r)
  {
    var o := s.o; var x := o.rd[r]; var bits := Bits(x.cur, |x.st.data|);
    s.(o := o.(
       rd := o.rd[r := x.(cur := x.cur + |x.st.data|, st := Idle)],
       asked := o.asked - bits, resident := o.resident + bits,
       where := o.where - bits, store := o.store - bits))
  }

  predicate CanReadFinish(s: St, r: nat) {
    r in s.o.rd && s.o.rd[r].st.Idle? && s.o.rd[r].cur == s.o.rd[r].hi && P.Enabled(s.o.vs, P.FinishRead(r))
  }

  function DoReadFinish(s: St, r: nat): St
    requires CanReadFinish(s, r)
  {
    s.(o := s.o.(vs := P.Apply(s.o.vs, P.FinishRead(r)), rd := s.o.rd - {r}))
  }

  // ----- all steps -----

  predicate Enabled(s: St, a: Action) {
    match a
    case SendWrite(lo, data) => CanSendWrite(s, lo, data)
    case SendRead(lo, hi) => CanSendRead(s, lo, hi)
    case Drop(p) => p in s.o.resident
    case Thread(pa) => CanThread(s, pa)
    case WriteMap(w, id, loc) => CanWriteMap(s, w, id, loc)
    case WriteIssue(w, async) => CanWriteIssue(s, w) && P.Enabled(s.o.vs, IssueAction(s, w, async))
    case Land(id) => CanLand(s, id)
    case Mark(id) => CanMark(s, id)
    case Retire(id) => CanRetire(s, id)
    case WriteFinish(w) => CanWriteFinish(s, w)
    case Lookup(r) => CanLookup(s, r)
    case ReplyUnavail(r) => CanReplyUnavail(s, r)
    case DevRead(r) => CanDevRead(s, r)
    case Unmap(r) => CanUnmap(s, r)
    case Supply(r) => CanSupply(s, r)
    case ReadFinish(r) => CanReadFinish(s, r)
  }

  function Apply(s: St, a: Action): St
    requires Enabled(s, a)
  {
    match a
    case SendWrite(lo, data) => DoSendWrite(s, lo, data)
    case SendRead(lo, hi) => DoSendRead(s, lo, hi)
    case Drop(p) => DoDrop(s, p)
    case Thread(pa) => DoThread(s, pa)
    case WriteMap(w, id, loc) => DoWriteMap(s, w, id, loc)
    case WriteIssue(w, async) => DoWriteIssue(s, w, async)
    case Land(id) => DoLand(s, id)
    case Mark(id) => DoMark(s, id)
    case Retire(id) => DoRetire(s, id)
    case WriteFinish(w) => DoWriteFinish(s, w)
    case Lookup(r) => DoLookup(s, r)
    case ReplyUnavail(r) => DoReplyUnavail(s, r)
    case DevRead(r) => DoDevRead(s, r)
    case Unmap(r) => DoUnmap(s, r)
    case Supply(r) => DoSupply(s, r)
    case ReadFinish(r) => DoReadFinish(s, r)
  }

  // ----- the invariant, one element at a time -----

  ghost predicate PlaceOk(o: Obj, p: nat) {
    && (p in o.where <==> p in o.store)
    && (p in o.where ==>
          match o.where[p]
          case Unsent(w) =>
            w in o.wr && o.wr[w].lo <= o.wr[w].cur <= p < End(o.wr[w]) && o.store[p] == o.wr[w].data[p - o.wr[w].lo]
          case Flying(id) =>
            id in o.io && !o.io[id].st.Marked? && o.io[id].lo <= p < o.io[id].lo + |o.io[id].data|
              && o.store[p] == o.io[id].data[p - o.io[id].lo]
          case Stored => true
          case Held(r) =>
            r in o.rd && o.rd[r].st.Taken? && o.rd[r].cur <= p < o.rd[r].cur + |o.rd[r].st.data|
              && o.store[p] == o.rd[r].st.data[p - o.rd[r].cur])
  }

  /** Page-bit discipline: the valid bit says the page is stored, the allocated bit says it
      is stored or being written. */
  ghost predicate BitsOk(o: Obj, p: nat) {
    && o.cls > 0
    && (Rem(p, o.cls) in EntAt(o, p).bmap <==> p in o.where && o.where[p].Stored?)
    && (Rem(p, o.cls) in EntAt(o, p).alloc <==> p in o.where && (o.where[p].Stored? || o.where[p].Flying?))
  }

  ghost predicate ResOk(o: Obj, p: nat) { p in o.resident ==> p !in o.where && p !in o.asked }

  ghost predicate AskOk(o: Obj, p: nat) {
    p in o.asked ==>
      && o.asked[p] in o.rd && o.rd[o.asked[p]].cur <= p < o.rd[o.asked[p]].hi
      && (p in o.where && o.where[p].Unsent? ==> o.where[p].w < o.asked[p])
      && (p in o.where && o.where[p].Flying? ==> o.where[p].id in o.io && o.io[o.where[p].id].w < o.asked[p])
  }

  ghost predicate UnsentAt(o: Obj, w: nat, p: nat) {
    w in o.wr && o.wr[w].cur <= p < End(o.wr[w]) ==> p in o.where && o.where[p] == Unsent(w)
  }

  ghost predicate FlyingAt(o: Obj, id: nat, p: nat) {
    id in o.io && !o.io[id].st.Marked? && o.io[id].lo <= p < o.io[id].lo + |o.io[id].data| ==>
      p in o.where && o.where[p] == Flying(id)
  }

  ghost predicate AskedAt(o: Obj, r: nat, p: nat) {
    r in o.rd && o.rd[r].cur <= p < o.rd[r].hi ==> p in o.asked && o.asked[p] == r
  }

  /** Length of the run a reader is dealing with. */
  function RunLen(st: RdSt): nat {
    match st
    case Idle => 0
    case Unavail(n) => n
    case Found(n, _) => n
    case InBuffer(data) => |data|
    case Taken(data) => |data|
  }

  ghost predicate RunAt(o: Obj, r: nat, p: nat) {
    r in o.rd && o.rd[r].cur <= p < o.rd[r].cur + RunLen(o.rd[r].st) ==>
      match o.rd[r].st
      case Idle => true
      case Unavail(_) => p !in o.where
      case Found(_, _) => p in o.where && o.where[p].Stored?
      case InBuffer(data) => p in o.where && o.where[p].Stored? && p in o.store && data[p - o.rd[r].cur] == o.store[p]
      case Taken(_) => p in o.where && o.where[p] == Held(r)
  }

  function Unissued(o: Obj, x: Wr): nat {
    if x.busy.Some? && x.busy.value in o.io && o.io[x.busy.value].st.Mapped? then |o.io[x.busy.value].data| else 0
  }

  ghost predicate WrOk(o: Obj, w: nat) {
    w in o.wr ==>
      var x := o.wr[w];
      && w in o.vs.reqs && o.vs.reqs[w].kind.DataReturn? && !o.vs.reqs[w].pc.Done?
      && x.lo <= x.cur <= End(x)
      && (if InBody(o, w) then o.vs.reqs[w].pc.left == PAGE * (End(x) - x.cur + Unissued(o, x))
          else x.cur == x.lo && x.busy.None? && o.vs.reqs[w].kind.cnt == PAGE * |x.data|)
      && (x.busy.Some? ==> x.busy.value in o.io && o.io[x.busy.value].w == w && !o.io[x.busy.value].async)
  }

  ghost predicate IoOk(o: Obj, id: nat) {
    && (id in o.vs.ios ==> id in o.io && o.io[id].async && !o.io[id].st.Mapped?)
    && (id in o.io ==>
          var x := o.io[id];
          && o.cls > 0 && |x.data| > 0 && Rem(x.lo, o.cls) + |x.data| <= o.cls
          && (!x.st.Marked? ==> Quot(x.lo, o.cls) < |o.ents| && Live(EntAt(o, x.lo)) && LocOf(EntAt(o, x.lo)) == x.loc)
          && (x.st.Mapped? ==> !x.async)
          && (if x.async then id in o.vs.ios && o.vs.ios[id] == P.Io(x.w, PAGE * |x.data|)
              else x.w in o.wr && o.wr[x.w].busy == Some(id)))
  }

  ghost predicate RdOk(o: Obj, r: nat) {
    r in o.rd ==>
      var x := o.rd[r];
      && o.cls > 0
      && r in o.vs.reqs && o.vs.reqs[r].kind.DataRequest? && !o.vs.reqs[r].pc.Done?
      && x.lo <= x.cur && x.cur + RunLen(x.st) <= x.hi
      && (!InBody(o, r) ==> x.cur == x.lo && x.st.Idle?)
      && (!x.st.Idle? ==> RunLen(x.st) > 0 && Rem(x.cur, o.cls) + RunLen(x.st) <= o.cls)
      && (x.st.Found? || x.st.InBuffer? ==> Quot(x.cur, o.cls) < |o.ents| && Live(EntAt(o, x.cur)))
      && (x.st.Found? ==> x.st.loc == LocOf(EntAt(o, x.cur)))
  }

  ghost predicate LinkOk(o: Obj, n: nat) {
    n in o.vs.reqs && !o.vs.reqs[n].pc.Done? ==>
      && (o.vs.reqs[n].kind.DataRequest? ==> n in o.rd)
      && (o.vs.reqs[n].kind.DataReturn? ==> n in o.wr)
  }

  ghost predicate EntOk(s: St, k: nat) {
    k < |s.o.ents| ==>
      var e := s.o.ents[k];
      && !e.error
      && (IsClr(e) ==> e == ClearEntry)
      && (Live(e) ==>
            LocOf(e) in s.used && e.alloc != {} && e.bmap <= e.alloc && forall i | i in e.alloc :: i < s.o.cls)
  }

  /** No two entries own the same cluster. */
  ghost predicate OwnOk(o: Obj, k: nat, k': nat) {
    k < k' < |o.ents| && Live(o.ents[k]) && Live(o.ents[k']) ==> LocOf(o.ents[k]) != LocOf(o.ents[k'])
  }

  /** A stored page is on the device, at the place its entry names. */
  ghost predicate DevOk(s: St, p: nat) {
    p in s.o.where && s.o.where[p].Stored? ==>
      s.o.cls > 0 && p in s.o.store && SlotAt(s.o, p) in s.dev && s.dev[SlotAt(s.o, p)] == s.o.store[p]
  }

  ghost predicate LandedAt(s: St, id: nat, p: nat) {
    id in s.o.io && s.o.io[id].st.Landed? && s.o.io[id].lo <= p < s.o.io[id].lo + |s.o.io[id].data| ==>
      s.o.cls > 0 && SlotAt(s.o, p) in s.dev && s.dev[SlotAt(s.o, p)] == s.o.io[id].data[p - s.o.io[id].lo]
  }

  ghost predicate PlacesOk(o: Obj) {
    && (forall p: nat :: PlaceOk(o, p))
    && (forall p: nat :: ResOk(o, p))
    && (forall p: nat :: AskOk(o, p))
  }

  ghost predicate PairsOk(o: Obj) {
    && (forall w: nat, p: nat :: UnsentAt(o, w, p))
    && (forall id: nat, p: nat :: FlyingAt(o, id, p))
    && (forall r: nat, p: nat :: AskedAt(o, r, p))
    && (forall r: nat, p: nat :: RunAt(o, r, p))
  }

  ghost predicate RequestsOk(o: Obj) {
    && P.Inv(o.vs)
    && (forall w: nat :: WrOk(o, w))
    && (forall id: nat :: IoOk(o, id))
    && (forall r: nat :: RdOk(o, r))
    && (forall n: nat :: LinkOk(o, n))
  }

  ghost predicate MapOk(s: St) {
    && s.o.cls > 0
    && (forall p: nat :: BitsOk(s.o, p))
    && (forall k: nat :: EntOk(s, k))
    && (forall k: nat, k': nat :: OwnOk(s.o, k, k'))
    && (forall p: nat :: DevOk(s, p))
    && (forall id: nat, p: nat :: LandedAt(s, id, p))
  }

  ghost predicate Inv(s: St) { PlacesOk(s.o) && PairsOk(s.o) && RequestsOk(s.o) && MapOk(s) }
}
