/** The request protocol of one memory object (a vstruct).

    Requests carry the sequence numbers of the object's port and are handled by
    different threads.  Each action below is one critical section of the C code:
    everything a thread does between taking the vstruct lock (or being woken on a
    condition) and releasing it again (by unlocking or by going to sleep).
    condition_broadcast is always called after the lock has been released, so it
    is an action of its own; until it happens, sleepers stay asleep. */
module Protocol {
  import opened Arith
  import opened Sums

  datatype Kind =
    | DataRequest           // waits for earlier writes, then reads in parallel
    | DataReturn(cnt: nat)  // writes cnt bytes in parallel with everything later
    | Terminate             // waits for everything earlier
    | Plain                 // init, synchronize: only passes through the lock

  /** Where the thread that handles a request is. */
  datatype Pc =
    | Lock    | SleepSeqno  // vs_lock
    | Readers | SleepRead   // vs_wait_for_readers
    | Writers | SleepWrite  // vs_wait_for_writers
    | Async   | SleepAsync  // vs_async_wait
    | Body(left: nat)       // lock released, body running; left: bytes to write
    | Done

  datatype Req = Req(kind: Kind, pc: Pc)

  /** One asynchronous device write whose completion has not been accounted yet. */
  datatype Io = Io(seqno: nat, size: nat)

  datatype Cond = CSeqno | CRead | CWrite | CAsync

  datatype Vs = Vs(
    seqno: nat, readers: nat, writers: nat, asyncPending: nat,
    next: nat,                 // the port's next sequence number
    reqs: map<nat, Req>,
    ios: map<nat, Io>,
    bSeqno: nat, bRead: nat, bWrite: nat, bAsync: nat)  // broadcasts still to be made

  datatype Action =
    | Arrive(kind: Kind)
    | Run(n: nat)                          // an awake thread runs its critical section
    | Issue(n: nat, id: nat, size: nat)    // vs_cluster_write starts an async write
    | WriteSync(n: nat, size: nat)         // no vs_async available: written in line
    | FinishRead(n: nat)
    | FinishWrite(n: nat)
    | Complete(id: nat)                    // tail of vs_cl_write_complete
    | Broadcast(c: Cond)

  const Init := Vs(0, 0, 0, 0, 0, map[], map[], 0, 0, 0, 0)

  // ----- the critical sections -----

  function SetPc(s: Vs, n: nat, pc: Pc): Vs
    requires n in s.reqs
  {
    s.(reqs := s.reqs[n := s.reqs[n].(pc := pc)])
  }

  /** vs_start_read / vs_start_write, then vs_unlock. */
  function Admit(s: Vs, n: nat): Vs
    requires n in s.reqs
  {
    var u := s.(seqno := s.seqno + 1, bSeqno := s.bSeqno + 1);
    match s.reqs[n].kind
    case DataRequest => SetPc(u, n, Body(0)).(readers := s.readers + 1)
    case DataReturn(cnt) => SetPc(u, n, Body(cnt)).(writers := s.writers + 1)
    case Terminate => SetPc(u, n, Done)
    case Plain => SetPc(u, n, Done)
  }

  function AsyncWait(s: Vs, n: nat): Vs
    requires n in s.reqs
  {
    if s.asyncPending > 0 then SetPc(s, n, SleepAsync) else Admit(s, n)
  }

  function WaitForWriters(s: Vs, n: nat): Vs
    requires n in s.reqs
  {
    if s.writers != 0 then SetPc(s, n, SleepWrite) else AsyncWait(s, n)
  }

  function WaitForReaders(s: Vs, n: nat): Vs
    requires n in s.reqs
  {
    if s.readers != 0 then SetPc(s, n, SleepRead) else WaitForWriters(s, n)
  }

  function VsLock(s: Vs, n: nat): Vs
    requires n in s.reqs
  {
    if s.seqno != n then SetPc(s, n, SleepSeqno)
    else match s.reqs[n].kind
      case DataRequest => WaitForWriters(s, n)
      case Terminate => WaitForReaders(s, n)
      case DataReturn(_) => Admit(s, n)
      case Plain => Admit(s, n)
  }

  predicate Awake(pc: Pc) { pc.Lock? || pc.Readers? || pc.Writers? || pc.Async? }

  function Woken(pc: Pc, c: Cond): Pc {
    match (pc, c)
    case (SleepSeqno, CSeqno) => Lock
    case (SleepRead, CRead) => Readers
    case (SleepWrite, CWrite) => Writers
    case (SleepAsync, CAsync) => Async
    case _ => pc
  }

  function Wake(reqs: map<nat, Req>, c: Cond): map<nat, Req> {
    map n | n in reqs :: Req(reqs[n].kind, Woken(reqs[n].pc, c))
  }

  predicate Enabled(s: Vs, a: Action) {
    match a
    case Arrive(_) => true
    case Run(n) => n in s.reqs && Awake(s.reqs[n].pc)
    case Issue(n, id, size) =>
      n in s.reqs && s.reqs[n].kind.DataReturn? && s.reqs[n].pc.Body? && id !in s.ios && 0 < size <= s.reqs[n].pc.left
    case WriteSync(n, size) =>
      n in s.reqs && s.reqs[n].kind.DataReturn? && s.reqs[n].pc.Body? && 0 < size <= s.reqs[n].pc.left
    case FinishRead(n) => n in s.reqs && s.reqs[n].kind.DataRequest? && s.reqs[n].pc.Body? && s.readers > 0
    case FinishWrite(n) => n in s.reqs && s.reqs[n].kind.DataReturn? && s.reqs[n].pc.Body? && s.writers > 0
    case Complete(id) => id in s.ios && s.ios[id].size <= s.asyncPending
    case Broadcast(CSeqno) => s.bSeqno > 0
    case Broadcast(CRead) => s.bRead > 0
    case Broadcast(CWrite) => s.bWrite > 0
    case Broadcast(CAsync) => s.bAsync > 0
  }

  function Apply(s: Vs, a: Action): Vs
    requires Enabled(s, a)
  {
    match a
    case Arrive(k) => s.(next := s.next + 1, reqs := s.reqs[s.next := Req(k, Lock)])
    case Run(n) => (
      match s.reqs[n].pc
      case Lock => VsLock(s, n)
      case Readers => WaitForReaders(s, n)
      case Writers => WaitForWriters(s, n)
      case Async => AsyncWait(s, n))
    case Issue(n, id, size) =>
      SetPc(s, n, Body(s.reqs[n].pc.left - size)).(
      ios := s.ios[id := Io(n, size)], asyncPending := s.asyncPending + size)
    case WriteSync(n, size) => SetPc(s, n, Body(s.reqs[n].pc.left - size))
    case FinishRead(n) =>
      SetPc(s, n, Done).(readers := s.readers - 1, bRead := s.bRead + if s.readers == 1 then 1 else 0)
    case FinishWrite(n) =>
      SetPc(s, n, Done).(writers := s.writers - 1, bWrite := s.bWrite + if s.writers == 1 then 1 else 0)
    case Complete(id) =>
      var left := s.asyncPending - s.ios[id].size;
      s.(ios := s.ios - {id}, asyncPending := left, bAsync := s.bAsync + if left == 0 then 1 else 0)
    case Broadcast(CSeqno) => s.(bSeqno := s.bSeqno - 1, reqs := Wake(s.reqs, CSeqno))
    case Broadcast(CRead) => s.(bRead := s.bRead - 1, reqs := Wake(s.reqs, CRead))
    case Broadcast(CWrite) => s.(bWrite := s.bWrite - 1, reqs := Wake(s.reqs, CWrite))
    case Broadcast(CAsync) => s.(bAsync := s.bAsync - 1, reqs := Wake(s.reqs, CAsync))
  }

  // ----- the invariant -----

  ghost function ActiveReaders(s: Vs): set<nat> {
    set n | n in s.reqs && s.reqs[n].kind.DataRequest? && s.reqs[n].pc.Body?
  }

  ghost function ActiveWriters(s: Vs): set<nat> {
    set n | n in s.reqs && s.reqs[n].kind.DataReturn? && s.reqs[n].pc.Body?
  }

  ghost function Sizes(ios: map<nat, Io>): map<nat, nat> { map id | id in ios :: ios[id].size }

  predicate WaitsForWrites(k: Kind) { k.DataRequest? || k.Terminate? }

  predicate Waiting(pc: Pc) { pc.Lock? || pc.SleepSeqno? }

  /** Requests below vs_seqno have been admitted, the one at vs_seqno may be inside
      its waits, the later ones are still in vs_lock. */
  predicate InOrder(s: Vs, n: nat, r: Req) {
    && (n < s.seqno <==> r.pc.Body? || r.pc.Done?)
    && (n > s.seqno ==> Waiting(r.pc))
    && (r.pc.Body? ==> r.kind.DataRequest? || r.kind.DataReturn?)
    && (n == s.seqno && !Waiting(r.pc) ==> WaitsForWrites(r.kind))
    && (r.pc.Readers? || r.pc.SleepRead? ==> r.kind.Terminate?)
  }

  /** What a request inside its waits has already waited for. */
  predicate HasWaited(s: Vs, r: Req) {
    && (r.kind.Terminate? && (r.pc.Writers? || r.pc.SleepWrite?) ==> s.readers == 0)
    && (r.pc.Async? || r.pc.SleepAsync? ==> s.writers == 0 && (r.kind.Terminate? ==> s.readers == 0))
  }

  /** No lost wake-up: a sleeper whose condition no longer blocks has a broadcast coming. */
  predicate WillWake(s: Vs, n: nat, r: Req) {
    && (r.pc.SleepSeqno? && s.seqno == n ==> s.bSeqno > 0)
    && (r.pc.SleepRead? && s.readers == 0 ==> s.bRead > 0)
    && (r.pc.SleepWrite? && s.writers == 0 ==> s.bWrite > 0)
    && (r.pc.SleepAsync? && s.asyncPending == 0 ==> s.bAsync > 0)
  }

  ghost predicate ReqOk(s: Vs, n: nat) {
    && (n in s.reqs <==> n < s.next)
    && (n in s.reqs ==> InOrder(s, n, s.reqs[n]) && HasWaited(s, s.reqs[n]) && WillWake(s, n, s.reqs[n]))
  }

  ghost predicate IoOk(s: Vs, id: nat) {
    id in s.ios ==>
      && s.ios[id].size > 0
      && s.ios[id].seqno < s.seqno && s.ios[id].seqno in s.reqs && s.reqs[s.ios[id].seqno].kind.DataReturn?
  }

  /** The counters are what their names say. */
  ghost predicate Counted(s: Vs) {
    && s.readers == |ActiveReaders(s)|
    && s.writers == |ActiveWriters(s)|
    && s.asyncPending == Sum(Sizes(s.ios))
  }

  /** If write w precedes an admitted request n that waits for writes, w is over. */
  ghost predicate WriteOver(s: Vs, w: nat, n: nat) {
    w in s.reqs && n in s.reqs && w < n < s.seqno && s.reqs[w].kind.DataReturn? && WaitsForWrites(s.reqs[n].kind)
    ==> s.reqs[w].pc.Done?
  }

  /** ... and none of its device writes is outstanding. */
  ghost predicate IoOver(s: Vs, id: nat, n: nat) {
    id in s.ios && n in s.reqs && s.ios[id].seqno < n < s.seqno ==> !WaitsForWrites(s.reqs[n].kind)
  }

  /** If read r precedes an admitted terminate n, r is over. */
  ghost predicate ReadOver(s: Vs, r: nat, n: nat) {
    r in s.reqs && n in s.reqs && r < n < s.seqno && s.reqs[r].kind.DataRequest? && s.reqs[n].kind.Terminate?
    ==> s.reqs[r].pc.Done?
  }

  ghost predicate ReqsOk(s: Vs) { s.seqno <= s.next && forall n: nat :: ReqOk(s, n) }

  ghost predicate IosOk(s: Vs) { forall id: nat :: IoOk(s, id) }

  /** No stale reads, and nothing survives a terminate. */
  ghost predicate Fresh(s: Vs) {
    && (forall w: nat, n: nat :: WriteOver(s, w, n))
    && (forall id: nat, n: nat :: IoOver(s, id, n))
    && (forall r: nat, n: nat :: ReadOver(s, r, n))
  }

  ghost predicate Inv(s: Vs) { ReqsOk(s) && IosOk(s) && Counted(s) && Fresh(s) }

  // ----- every action keeps the invariant -----

  /** With no writer and nothing pending, every earlier write is over. */
  lemma QuietWriters(s: Vs, w: nat)
    requires ReqsOk(s) && IosOk(s) && Counted(s) && s.writers == 0 && s.asyncPending == 0
    ensures s.ios == map[]
    ensures w in s.reqs && w < s.seqno && s.reqs[w].kind.DataReturn? ==> s.reqs[w].pc.Done?
  {
    if id :| id in s.ios {
      assert IoOk(s, id);
      SumTake(Sizes(s.ios), id);
      assert false;
    }
    assert ReqOk(s, w);
    assert w !in ActiveWriters(s);
  }

  lemma QuietReaders(s: Vs, r: nat)
    requires ReqsOk(s) && Counted(s) && s.readers == 0
    ensures r in s.reqs && r < s.seqno && s.reqs[r].kind.DataRequest? ==> s.reqs[r].pc.Done?
  {
    assert ReqOk(s, r);
    assert r !in ActiveReaders(s);
  }

  /** The counters stay right when no body starts or ends and no device write is added or removed. */
  lemma CountKeeps(s: Vs, t: Vs)
    requires Counted(s) && t.readers == s.readers && t.writers == s.writers && t.asyncPending == s.asyncPending
             && t.ios == s.ios
    requires forall n | n in s.reqs ::
             n in t.reqs && t.reqs[n].kind == s.reqs[n].kind && t.reqs[n].pc.Body? == s.reqs[n].pc.Body?
    requires forall n | n in t.reqs && n !in s.reqs :: !t.reqs[n].pc.Body?
    ensures Counted(t)
  {
    assert ActiveReaders(t) == ActiveReaders(s);
    assert ActiveWriters(t) == ActiveWriters(s);
  }

  /** Freshness survives anything that admits nobody and takes back no finished write;
      a new device write may only come from a write that is still active. */
  lemma FreshKeeps(s: Vs, t: Vs)
    requires Fresh(s) && t.seqno == s.seqno
    requires forall n | n in t.reqs && n < t.seqno ::
               n in s.reqs && t.reqs[n].kind == s.reqs[n].kind && (s.reqs[n].pc.Done? ==> t.reqs[n].pc.Done?)
    requires forall id | id in t.ios ::
               || (id in s.ios && t.ios[id] == s.ios[id])
               || (t.ios[id].seqno in s.reqs && s.reqs[t.ios[id].seqno].kind.DataReturn?
                 && !s.reqs[t.ios[id].seqno].pc.Done?)
    ensures Fresh(t)
  {
    forall w: nat, n: nat ensures WriteOver(t, w, n) { assert WriteOver(s, w, n); }
    forall id: nat, n: nat ensures IoOver(t, id, n) {
      assert IoOver(s, id, n);
      if id in t.ios { assert WriteOver(s, t.ios[id].seqno, n); }
    }
    forall r: nat, n: nat ensures ReadOver(t, r, n) { assert ReadOver(s, r, n); }
  }

  lemma IosKeep(s: Vs, t: Vs)
    requires IosOk(s) && t.seqno >= s.seqno
    requires forall n | n in s.reqs :: n in t.reqs && t.reqs[n].kind == s.reqs[n].kind
    requires forall id | id in t.ios :: id in s.ios && t.ios[id] == s.ios[id]
    ensures IosOk(t)
  {
    forall id: nat ensures IoOk(t, id) { assert IoOk(s, id); }
  }

  /** An awake thread goes to sleep on a condition that blocks it. */
  lemma SleepKeeps(s: Vs, n: nat, pc: Pc)
    requires Inv(s) && n in s.reqs && Awake(s.reqs[n].pc)
    requires pc.SleepSeqno? || pc.SleepRead? || pc.SleepWrite? || pc.SleepAsync?
    requires var t := SetPc(s, n, pc); InOrder(t, n, t.reqs[n]) && HasWaited(t, t.reqs[n]) && WillWake(t, n, t.reqs[n])
    ensures Inv(SetPc(s, n, pc))
  {
    var t := SetPc(s, n, pc);
    CountKeeps(s, t);
    FreshKeeps(s, t);
    IosKeep(s, t);
    forall m: nat ensures ReqOk(t, m) { assert ReqOk(s, m); }
  }

  /** What the head request must have waited for before it is admitted. */
  ghost predicate MayAdmit(s: Vs) {
    && s.seqno in s.reqs
    && (WaitsForWrites(s.reqs[s.seqno].kind) ==> s.writers == 0 && s.asyncPending == 0)
    && (s.reqs[s.seqno].kind.Terminate? ==> s.readers == 0)
  }

  lemma AdmitCounts(s: Vs)
    requires ReqsOk(s) && Counted(s) && s.seqno in s.reqs
    ensures Counted(Admit(s, s.seqno))
  {
    var n, t := s.seqno, Admit(s, s.seqno);
    assert ReqOk(s, n);
    assert n !in ActiveReaders(s) && n !in ActiveWriters(s);
    match s.reqs[n].kind {
      case DataRequest =>
        assert ActiveReaders(t) == ActiveReaders(s) + {n};
        assert ActiveWriters(t) == ActiveWriters(s);
      case DataReturn(_) =>
        assert ActiveReaders(t) == ActiveReaders(s);
        assert ActiveWriters(t) == ActiveWriters(s) + {n};
      case _ => CountKeeps(s, t);
    }
  }

  lemma AdmitFresh(s: Vs)
    requires Inv(s) && MayAdmit(s)
    ensures Fresh(Admit(s, s.seqno))
  {
    var t, k := Admit(s, s.seqno), s.reqs[s.seqno].kind;
    forall w: nat, n: nat ensures WriteOver(t, w, n) {
      assert WriteOver(s, w, n);
      if n == s.seqno && WaitsForWrites(k) { QuietWriters(s, w); }
    }
    forall id: nat, n: nat ensures IoOver(t, id, n) {
      assert IoOver(s, id, n);
      if n == s.seqno && WaitsForWrites(k) { QuietWriters(s, n); }
    }
    forall r: nat, n: nat ensures ReadOver(t, r, n) {
      assert ReadOver(s, r, n);
      if n == s.seqno && k.Terminate? { QuietReaders(s, r); }
    }
  }

  /** The head request enters its body (or is done) once its waits are over. */
  lemma AdmitKeeps(s: Vs)
    requires Inv(s) && MayAdmit(s) && Awake(s.reqs[s.seqno].pc)
    ensures Inv(Admit(s, s.seqno))
  {
    var t := Admit(s, s.seqno);
    AdmitCounts(s);
    AdmitFresh(s);
    IosKeep(s, t);
    assert ReqOk(s, s.seqno);
    forall m: nat ensures ReqOk(t, m) { AdmitReq(s, m); }
  }

  lemma AdmitReq(s: Vs, m: nat)
    requires Inv(s) && MayAdmit(s) && Awake(s.reqs[s.seqno].pc)
    ensures ReqOk(Admit(s, s.seqno), m)
  {
    assert ReqOk(s, m) && ReqOk(s, s.seqno);
  }

  lemma RunKeeps(s: Vs, n: nat)
    requires Inv(s) && Enabled(s, Run(n))
    ensures Inv(Apply(s, Run(n)))
  {
    var r := s.reqs[n];
    assert ReqOk(s, n);
    if r.pc.Lock? && s.seqno != n {
      SleepKeeps(s, n, SleepSeqno);
    } else if !WaitsForWrites(r.kind) {
      AdmitKeeps(s);
    } else if r.kind.Terminate? && (r.pc.Lock? || r.pc.Readers?) && s.readers != 0 {
      SleepKeeps(s, n, SleepRead);
    } else if !r.pc.Async? && s.writers != 0 {
      SleepKeeps(s, n, SleepWrite);
    } else if s.asyncPending > 0 {
      SleepKeeps(s, n, SleepAsync);
    } else {
      AdmitKeeps(s);
    }
  }

  lemma ArriveKeeps(s: Vs, k: Kind)
    requires Inv(s)
    ensures Inv(Apply(s, Arrive(k)))
  {
    var t := Apply(s, Arrive(k));
    assert ReqOk(s, s.next);
    CountKeeps(s, t);
    FreshKeeps(s, t);
    IosKeep(s, t);
    forall m: nat ensures ReqOk(t, m) { assert ReqOk(s, m); }
  }

  lemma WakeReq(s: Vs, c: Cond, m: nat)
    requires Enabled(s, Broadcast(c)) && ReqOk(s, m)
    ensures ReqOk(Apply(s, Broadcast(c)), m)
  {
  }

  lemma WakeKeeps(s: Vs, c: Cond)
    requires Inv(s) && Enabled(s, Broadcast(c))
    ensures Inv(Apply(s, Broadcast(c)))
  {
    var t := Apply(s, Broadcast(c));
    assert t.reqs == Wake(s.reqs, c) && t.seqno == s.seqno && t.next == s.next && t.ios == s.ios;
    CountKeeps(s, t);
    FreshKeeps(s, t);
    IosKeep(s, t);
    forall m: nat ensures ReqOk(t, m) { assert ReqOk(s, m); WakeReq(s, c, m); }
  }

  lemma WriteKeeps(s: Vs, n: nat, left: nat)
    requires Inv(s) && n in s.reqs && s.reqs[n].kind.DataReturn? && s.reqs[n].pc.Body?
    ensures Inv(SetPc(s, n, Body(left)))
  {
    var t := SetPc(s, n, Body(left));
    CountKeeps(s, t);
    FreshKeeps(s, t);
    IosKeep(s, t);
    forall m: nat ensures ReqOk(t, m) { assert ReqOk(s, m); }
  }

  lemma IssueKeeps(s: Vs, n: nat, id: nat, size: nat)
    requires Inv(s) && n in s.reqs && s.reqs[n].kind.DataReturn? && s.reqs[n].pc.Body? && id !in s.ios && size > 0
    ensures Inv(s.(ios := s.ios[id := Io(n, size)], asyncPending := s.asyncPending + size))
  {
    var t := s.(ios := s.ios[id := Io(n, size)], asyncPending := s.asyncPending + size);
    SumInsert(Sizes(s.ios), id, size);
    assert Sizes(t.ios) == Sizes(s.ios)[id := size];
    assert ActiveReaders(t) == ActiveReaders(s) && ActiveWriters(t) == ActiveWriters(s);
    assert n in ActiveWriters(s);
    FreshKeeps(s, t);
    forall m: nat ensures ReqOk(t, m) { assert ReqOk(s, m) && ReqOk(s, n); }
    forall id': nat ensures IoOk(t, id') { assert IoOk(s, id') && ReqOk(s, n); }
  }

  lemma CompleteKeeps(s: Vs, id: nat)
    requires Inv(s) && Enabled(s, Complete(id))
    ensures Inv(Apply(s, Complete(id)))
  {
    var t := Apply(s, Complete(id));
    SumTake(Sizes(s.ios), id);
    assert Sizes(t.ios) == Sizes(s.ios) - {id};
    assert ActiveReaders(t) == ActiveReaders(s) && ActiveWriters(t) == ActiveWriters(s);
    FreshKeeps(s, t);
    IosKeep(s, t);
    forall m: nat ensures ReqOk(t, m) { assert ReqOk(s, m) && IoOk(s, id); }
  }

  lemma FinishCounts(s: Vs, a: Action)
    requires Counted(s) && (a.FinishRead? || a.FinishWrite?) && Enabled(s, a)
    ensures Counted(Apply(s, a))
  {
    var t := Apply(s, a);
    assert ActiveReaders(t) == ActiveReaders(s) - {a.n};
    assert ActiveWriters(t) == ActiveWriters(s) - {a.n};
    assert a.n in if a.FinishRead? then ActiveReaders(s) else ActiveWriters(s);
    assert a.n !in if a.FinishRead? then ActiveWriters(s) else ActiveReaders(s);
  }

  lemma FinishKeeps(s: Vs, a: Action)
    requires Inv(s) && (a.FinishRead? || a.FinishWrite?) && Enabled(s, a)
    ensures Inv(Apply(s, a))
  {
    var t := Apply(s, a);
    FinishCounts(s, a);
    FreshKeeps(s, t);
    IosKeep(s, t);
    forall m: nat ensures ReqOk(t, m) { assert ReqOk(s, m); }
  }

  /** Every action keeps the invariant. */
  lemma StepKeeps(s: Vs, a: Action)
    requires Inv(s) && Enabled(s, a)
    ensures Inv(Apply(s, a))
  {
    match a
    case Arrive(k) => ArriveKeeps(s, k);
    case Run(n) => RunKeeps(s, n);
    case Issue(n, id, size) =>
      WriteKeeps(s, n, s.reqs[n].pc.left - size);
      IssueKeeps(SetPc(s, n, Body(s.reqs[n].pc.left - size)), n, id, size);
    case WriteSync(n, size) => WriteKeeps(s, n, s.reqs[n].pc.left - size);
    case FinishRead(_) => FinishKeeps(s, a);
    case FinishWrite(_) => FinishKeeps(s, a);
    case Complete(id) => CompleteKeeps(s, id);
    case Broadcast(c) => WakeKeeps(s, c);
  }

  // ----- theorems over all runs -----

  ghost predicate IsRun(tr: seq<Vs>, acts: seq<Action>) {
    && |tr| == |acts| + 1
    && forall i | 0 <= i < |acts| :: Enabled(tr[i], acts[i]) && tr[i + 1] == Apply(tr[i], acts[i])
  }

  lemma {:induction false} RunKeepsInv(tr: seq<Vs>, acts: seq<Action>)
    requires IsRun(tr, acts) && Inv(tr[0])
    ensures Inv(tr[|acts|])
    decreases |acts|
  {
    if |acts| > 0 {
      var k := |acts| - 1;
      RunKeepsInv(tr[..k + 1], acts[..k]);
      StepKeeps(tr[k], acts[k]);
    }
  }

  lemma InitOk()
    ensures Inv(Init)
  {
    assert ActiveReaders(Init) == {} && ActiveWriters(Init) == {};
    assert Sizes(Init.ios) == map[];
    forall n: nat ensures ReqOk(Init, n) {}
    forall id: nat ensures IoOk(Init, id) {}
    forall w: nat, n: nat ensures WriteOver(Init, w, n) && IoOver(Init, w, n) && ReadOver(Init, w, n) {}
  }

  /** No stale reads.  In every interleaving, once data_request (or terminate) number r has
      been admitted, every write numbered below r has left its body and none of the device
      writes it started is outstanding; a terminate has outlasted every earlier read too. */
  lemma NoStaleReads(tr: seq<Vs>, acts: seq<Action>, r: nat, w: nat)
    requires IsRun(tr, acts) && tr[0] == Init
    requires var s := tr[|acts|];
             r in s.reqs && (s.reqs[r].pc.Body? || s.reqs[r].pc.Done?) && WaitsForWrites(s.reqs[r].kind)
    requires w in tr[|acts|].reqs && w < r
    ensures var s := tr[|acts|];
            && (s.reqs[w].kind.DataReturn? ==> s.reqs[w].pc.Done?)
            && (forall id | id in s.ios :: s.ios[id].seqno != w)
            && (s.reqs[r].kind.Terminate? && s.reqs[w].kind.DataRequest? ==> s.reqs[w].pc.Done?)
  {
    InitOk();
    RunKeepsInv(tr, acts);
    var s := tr[|acts|];
    assert ReqOk(s, r) && WriteOver(s, w, r) && ReadOver(s, w, r);
    forall id | id in s.ios ensures s.ios[id].seqno != w { assert IoOver(s, id, r); }
  }

  /** vs_readers, vs_writers and vs_async_pending always equal the number of reads and
      writes in progress and the byte total of the device writes still outstanding. */
  lemma CountersExact(tr: seq<Vs>, acts: seq<Action>)
    requires IsRun(tr, acts) && tr[0] == Init
    ensures var s := tr[|acts|];
            && s.readers == |ActiveReaders(s)|
            && s.writers == |ActiveWriters(s)|
            && s.asyncPending == Sum(Sizes(s.ios))
  {
    InitOk();
    RunKeepsInv(tr, acts);
  }

  /** Requests leave vs_lock and the waits behind it exactly in sequence order. */
  lemma AdmittedInOrder(tr: seq<Vs>, acts: seq<Action>, a: Action, n: nat)
    requires IsRun(tr, acts) && tr[0] == Init && Enabled(tr[|acts|], a)
    requires n in tr[|acts|].reqs && !tr[|acts|].reqs[n].pc.Body? && !tr[|acts|].reqs[n].pc.Done?
    ensures var s := tr[|acts|]; var t := Apply(s, a);
            && n in t.reqs
            && (t.reqs[n].pc.Body? || t.reqs[n].pc.Done? ==> a == Run(n) && n == s.seqno && t.seqno == n + 1)
            && (t.seqno != s.seqno ==> a == Run(s.seqno))
  {
    InitOk();
    RunKeepsInv(tr, acts);
    var s := tr[|acts|];
    StepKeeps(s, a);
    assert ReqOk(s, n) && ReqOk(Apply(s, a), n);
    if a.Run? { assert ReqOk(s, a.n); }
  }

  // ----- progress -----

  /** Nothing left to do: every request answered, every device write accounted,
      every wake-up delivered. */
  ghost predicate Quiescent(s: Vs) {
    && (forall n | n in s.reqs :: s.reqs[n].pc.Done?)
    && s.ios == map[] && s.bSeqno == s.bRead == s.bWrite == s.bAsync == 0
  }

  lemma CompleteEnabled(s: Vs, id: nat)
    requires Inv(s) && id in s.ios
    ensures Enabled(s, Complete(id))
  {
    SumTake(Sizes(s.ios), id);
  }

  /** No reachable state with unfinished work is stuck. */
  lemma Progress(s: Vs) returns (a: Action)
    requires Inv(s) && !Quiescent(s)
    ensures !a.Arrive? && !a.Issue? && !a.WriteSync? && Enabled(s, a)
  {
    if s.bSeqno > 0 { return Broadcast(CSeqno); }
    if s.bRead > 0 { return Broadcast(CRead); }
    if s.bWrite > 0 { return Broadcast(CWrite); }
    if s.bAsync > 0 { return Broadcast(CAsync); }
    if id :| id in s.ios {
      CompleteEnabled(s, id);
      return Complete(id);
    }
    if n :| n in s.reqs && s.reqs[n].pc.Body? {
      assert ReqOk(s, n);
      assert s.reqs[n].kind.DataRequest? ==> n in ActiveReaders(s);
      assert s.reqs[n].kind.DataReturn? ==> n in ActiveWriters(s);
      return if s.reqs[n].kind.DataRequest? then FinishRead(n) else FinishWrite(n);
    }
    assert ActiveReaders(s) == {} && ActiveWriters(s) == {} && Sizes(s.ios) == map[];
    var n :| n in s.reqs && !s.reqs[n].pc.Done?;
    assert ReqOk(s, n) && ReqOk(s, s.seqno);
    return Run(s.seqno);
  }

  /** A run that cannot go on without a new request has finished everything. */
  lemma MaximalRunsQuiesce(tr: seq<Vs>, acts: seq<Action>)
    requires IsRun(tr, acts) && tr[0] == Init && forall a: Action :: Enabled(tr[|acts|], a) ==> a.Arrive?
    ensures Quiescent(tr[|acts|])
  {
    InitOk();
    RunKeepsInv(tr, acts);
    if !Quiescent(tr[|acts|]) { var a := Progress(tr[|acts|]); }
  }

  /** How many critical sections a request can still need, counting two per byte left to
      write (one to issue it, one to account for its completion). */
  function Weight(r: Req): nat {
    match r.pc
    case Lock => 7 + if r.kind.DataReturn? then 2 * r.kind.cnt else 0
    case SleepSeqno => 7 + if r.kind.DataReturn? then 2 * r.kind.cnt else 0
    case Readers => 6
    case SleepRead => 6
    case Writers => 5
    case SleepWrite => 5
    case Async => 4
    case SleepAsync => 4
    case Body(left) => 1 + 2 * left
    case Done => 0
  }

  ghost function Weights(reqs: map<nat, Req>): map<nat, nat> { map n | n in reqs :: Weight(reqs[n]) }

  ghost function Work(s: Vs): nat { Sum(Weights(s.reqs)) + |s.ios| }

  function Wakeups(s: Vs): nat { s.bSeqno + s.bRead + s.bWrite + s.bAsync }

  ghost function AwakeSet(s: Vs): set<nat> { set n | n in s.reqs && Awake(s.reqs[n].pc) }

  /** An upper bound on the number of actions until everything has drained. */
  ghost function Bound(s: Vs): nat {
    |AwakeSet(s)| + Times(Wakeups(s), s.next + 1) + Times(Work(s), 2 * s.next + 3)
  }

  lemma WorkSetPc(s: Vs, n: nat, pc: Pc)
    requires n in s.reqs
    ensures Sum(Weights(SetPc(s, n, pc).reqs)) ==
            Sum(Weights(s.reqs)) - Weight(s.reqs[n]) + Weight(Req(s.reqs[n].kind, pc))
  {
    SumUpdate(Weights(s.reqs), n, Weight(Req(s.reqs[n].kind, pc)));
    assert Weights(SetPc(s, n, pc).reqs) == Weights(s.reqs)[n := Weight(Req(s.reqs[n].kind, pc))];
  }

  /** The work left after request n has moved to pc. */
  lemma WorkAfter(s: Vs, t: Vs, n: nat, pc: Pc)
    requires n in s.reqs && t.reqs == SetPc(s, n, pc).reqs
    ensures Work(t) == Work(s) - Weight(s.reqs[n]) + Weight(Req(s.reqs[n].kind, pc)) + |t.ios| - |s.ios|
  {
    WorkSetPc(s, n, pc);
  }

  lemma AwakeSetPc(s: Vs, n: nat, pc: Pc)
    requires n in s.reqs
    ensures AwakeSet(SetPc(s, n, pc)) == if Awake(pc) then AwakeSet(s) + {n} else AwakeSet(s) - {n}
  {
  }

  lemma {:induction false} CountUpTo(xs: set<nat>, n: nat)
    requires forall x | x in xs :: x < n
    ensures |xs| <= n
  {
    if n > 0 {
      CountUpTo(xs - {n - 1}, n - 1);
      assert |xs| <= |xs - {n - 1}| + 1;
    } else {
      assert xs == {};
    }
  }

  lemma AwakeBound(s: Vs)
    requires ReqsOk(s)
    ensures |AwakeSet(s)| <= s.next
  {
    forall n | n in AwakeSet(s) ensures n < s.next { assert ReqOk(s, n); }
    CountUpTo(AwakeSet(s), s.next);
  }

  /** A run of an awake thread either moves it to a later stage or puts it to sleep where it was. */
  lemma RunEffect(s: Vs, n: nat)
    requires Enabled(s, Run(n)) && InOrder(s, n, s.reqs[n])
    ensures var t := Apply(s, Run(n));
            && n in t.reqs && t.reqs == SetPc(s, n, t.reqs[n].pc).reqs && t.ios == s.ios && t.next == s.next
            && !Awake(t.reqs[n].pc)
            && (|| (Weight(t.reqs[n]) < Weight(s.reqs[n]) && Wakeups(t) <= Wakeups(s) + 1)
                || (Weight(t.reqs[n]) == Weight(s.reqs[n]) && Wakeups(t) == Wakeups(s)))
  {
  }

  lemma RunShrinks(s: Vs, n: nat)
    requires Enabled(s, Run(n)) && InOrder(s, n, s.reqs[n])
    ensures var t := Apply(s, Run(n));
            && t.next == s.next
            && (|| (Work(t) < Work(s) && Wakeups(t) <= Wakeups(s) + 1)
                || (Work(t) == Work(s) && Wakeups(t) == Wakeups(s) && |AwakeSet(t)| < |AwakeSet(s)|))
  {
    RunEffect(s, n);
    var t := Apply(s, Run(n));
    var u := SetPc(s, n, t.reqs[n].pc);
    WorkSetPc(s, n, t.reqs[n].pc);
    AwakeSetPc(s, n, t.reqs[n].pc);
    assert AwakeSet(t) == AwakeSet(u);
    assert n in AwakeSet(s);
  }

  lemma SyncShrinks(s: Vs, a: Action)
    requires Enabled(s, a) && a.WriteSync?
    ensures var t := Apply(s, a); t.next == s.next && Work(t) < Work(s) && Wakeups(t) == Wakeups(s)
  {
    var left := s.reqs[a.n].pc.left - a.size;
    WorkAfter(s, Apply(s, a), a.n, Body(left));
  }

  lemma IssueShrinks(s: Vs, a: Action)
    requires Enabled(s, a) && a.Issue?
    ensures var t := Apply(s, a); t.next == s.next && Work(t) < Work(s) && Wakeups(t) == Wakeups(s)
  {
    var t, left := Apply(s, a), s.reqs[a.n].pc.left - a.size;
    assert |t.ios| == |s.ios| + 1;
    WorkAfter(s, t, a.n, Body(left));
  }

  lemma FinishShrinks(s: Vs, a: Action)
    requires Enabled(s, a) && (a.FinishRead? || a.FinishWrite?)
    ensures var t := Apply(s, a); t.next == s.next && Work(t) < Work(s) && Wakeups(t) <= Wakeups(s) + 1
  {
    WorkAfter(s, Apply(s, a), a.n, Done);
  }

  lemma CompleteShrinks(s: Vs, id: nat)
    requires Enabled(s, Complete(id))
    ensures var t := Apply(s, Complete(id)); t.next == s.next && Work(t) < Work(s) && Wakeups(t) <= Wakeups(s) + 1
  {
    assert |s.ios - {id}| == |s.ios| - 1;
  }

  lemma WakeShrinks(s: Vs, c: Cond)
    requires Enabled(s, Broadcast(c))
    ensures var t := Apply(s, Broadcast(c)); t.next == s.next && Work(t) == Work(s) && Wakeups(t) == Wakeups(s) - 1
  {
    assert Weights(Wake(s.reqs, c)) == Weights(s.reqs);
  }

  /** Every action except an arrival brings the object closer to quiescence. */
  lemma Shrinks(s: Vs, a: Action)
    requires Inv(s) && Enabled(s, a) && !a.Arrive?
    ensures var t := Apply(s, a);
            && t.next == s.next
            && (|| (Work(t) < Work(s) && Wakeups(t) <= Wakeups(s) + 1)
                || (Work(t) == Work(s) && Wakeups(t) < Wakeups(s))
                || (Work(t) == Work(s) && Wakeups(t) == Wakeups(s) && |AwakeSet(t)| < |AwakeSet(s)|))
  {
    match a
    case Run(n) => assert ReqOk(s, n); RunShrinks(s, n);
    case Broadcast(c) => WakeShrinks(s, c);
    case Complete(id) => CompleteShrinks(s, id);
    case Issue(_, _, _) => IssueShrinks(s, a);
    case WriteSync(_, _) => SyncShrinks(s, a);
    case _ => FinishShrinks(s, a);
  }

  /** The three-part measure as one number. */
  lemma Lexicographic(n: nat, work: nat, work': nat, wake: nat, wake': nat, awake: nat, awake': nat)
    requires awake' <= n
    requires || (work' < work && wake' <= wake + 1)
             || (work' == work && wake' < wake)
             || (work' == work && wake' == wake && awake' < awake)
    ensures awake' + Times(wake', n + 1) + Times(work', 2 * n + 3) < awake + Times(wake, n + 1) + Times(work, 2 * n + 3)
  {
    var a, b := n + 1, 2 * n + 3;
    TimesIs(wake', a);
    TimesIs(wake, a);
    TimesIs(work', b);
    TimesIs(work, b);
    if work' < work {
      MulLess(work', work, b);
      MulLe(wake', wake + 1, a);
      Distribute(wake, 1, a);
    } else if wake' < wake {
      MulLess(wake', wake, a);
    }
  }

  lemma BoundLess(s: Vs, t: Vs)
    requires ReqsOk(t) && t.next == s.next
    requires || (Work(t) < Work(s) && Wakeups(t) <= Wakeups(s) + 1)
             || (Work(t) == Work(s) && Wakeups(t) < Wakeups(s))
             || (Work(t) == Work(s) && Wakeups(t) == Wakeups(s) && |AwakeSet(t)| < |AwakeSet(s)|)
    ensures Bound(t) < Bound(s)
  {
    AwakeBound(t);
    Lexicographic(s.next, Work(s), Work(t), Wakeups(s), Wakeups(t), |AwakeSet(s)|, |AwakeSet(t)|);
  }

  lemma BoundShrinks(s: Vs, a: Action)
    requires Inv(s) && Enabled(s, a) && !a.Arrive?
    ensures Bound(Apply(s, a)) < Bound(s)
  {
    StepKeeps(s, a);
    Shrinks(s, a);
    BoundLess(s, Apply(s, a));
  }

  /** Liveness.  From any reachable state, whatever the scheduler does, at most Bound(s)
      actions can happen before new requests arrive; since Progress shows that a state with
      work left always has an enabled action, every such run ends with all requests
      answered, all device writes accounted and nobody asleep. */
  lemma {:induction false} Drains(tr: seq<Vs>, acts: seq<Action>)
    requires IsRun(tr, acts) && Inv(tr[0])
    requires forall i | 0 <= i < |acts| :: !acts[i].Arrive?
    ensures |acts| <= Bound(tr[0])
    decreases |acts|
  {
    if |acts| > 0 {
      StepKeeps(tr[0], acts[0]);
      BoundShrinks(tr[0], acts[0]);
      Drains(tr[1..], acts[1..]);
    }
  }
}
