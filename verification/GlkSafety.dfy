/** Mutual exclusion of the adaptive lock, for every schedule of at most
    `MAX_THREADS` threads whose trylocks are timely. */
module GlkSafety {
  import opened Sums
  import opened Glk

  // ----- what each program counter says about the low-level locks

  /** Holds or waits for ticket `pc.n`. */
  predicate HasTicket(pc: Pc) {
    TicketPath(pc) ||
    ((pc.Recheck? || pc.Critical? || pc.Release?) && pc.ty == TICKET)
  }

  predicate ServedTicket(pc: Pc) {
    HasTicket(pc) && !pc.TktDistance? && !pc.TktSample? && !pc.TktWait?
  }

  predicate InMcs(pc: Pc) {
    McsPath(pc) || ((pc.Recheck? || pc.Critical? || pc.Release?) && pc.ty == MCS)
  }

  predicate ServedMcs(pc: Pc) {
    InMcs(pc) && !pc.McsCount? && !pc.McsWait?
  }

  predicate HasMutex(pc: Pc) {
    MutexPath(pc) || ((pc.Recheck? || pc.Critical? || pc.Release?) && pc.ty == MUTEX)
  }

  /** Has read lockType == TICKET and may still take a ticket. */
  predicate MayTakeTicket(pc: Pc) {
    (pc.Chosen? && pc.ty == TICKET) || pc.TryHead? || pc.TryCas?
  }

  /** Has read lockType == MCS and has yet to add one to num_acquired. */
  predicate MayCount(pc: Pc) {
    pc == Chosen(Lock, MCS) || pc.McsCount?
  }

  /** On its way to rewriting lockType through the ticket path. */
  predicate TicketAdaptor(pc: Pc) {
    TicketPath(pc) && pc.n % ADAPT_PERIOD == 0
  }

  /** On its way to rewriting lockType through the MCS path. */
  predicate McsAdaptor(pc: Pc) {
    McsPath(pc) && !pc.McsCount? && pc.n % ADAPT_PERIOD == 0
  }

  /** Has seen lockType == MUTEX and will rewrite it. */
  predicate MutexAdaptor(pc: Pc) {
    pc.MtxSetTotal? || pc.MtxSetNum? || pc.MtxToTicket?
  }

  predicate AboutToWriteType(pc: Pc) {
    pc.TktToMutex? || pc.TktToMcs? || pc.McsToMutex? || pc.McsToTicket? || pc.MtxToTicket?
  }

  // ----- counting

  function Flag(b: bool): nat { if b then 1 else 0 }

  function Tickets(th: seq<Pc>): (r: seq<nat>)
    ensures |r| == |th|
  {
    seq(|th|, i requires 0 <= i < |th| => Flag(HasTicket(th[i])))
  }

  function Takers(th: seq<Pc>): (r: seq<nat>)
    ensures |r| == |th|
  {
    seq(|th|, i requires 0 <= i < |th| => Flag(MayTakeTicket(th[i])))
  }

  function Counters(th: seq<Pc>): (r: seq<nat>)
    ensures |r| == |th|
  {
    seq(|th|, i requires 0 <= i < |th| => Flag(MayCount(th[i])))
  }

  /** `x` stands before the first `a` in `q`. */
  predicate Before(q: seq<nat>, x: nat, a: nat) {
    q != [] && q[0] != a && (q[0] == x || Before(q[1..], x, a))
  }

  /** How often thread `i` can still add to num_acquired while thread `a` waits for,
      or is at, its adaptation: a thread ahead of `a` in the queue may come back once. */
  function Budget(th: seq<Pc>, q: seq<nat>, a: nat, i: nat): nat
    requires i < |th|
  {
    if i == a then 0
    else if InMcs(th[i]) then Flag(Before(q, i, a)) + Flag(th[i].McsCount?)
    else 1
  }

  function Budgets(th: seq<Pc>, q: seq<nat>, a: nat): (r: seq<nat>)
    ensures |r| == |th|
  {
    seq(|th|, i requires 0 <= i < |th| => Budget(th, q, a, i))
  }

  /** Adding one to `c` at most `p` times never yields a multiple of the period. */
  predicate NoHit(c: nat, p: nat) {
    c / ADAPT_PERIOD == (c + p) / ADAPT_PERIOD
  }

  // ----- the invariant

  ghost predicate TicketInv(s: State) {
    && s.m.serving <= s.m.issued + 1
    && (forall t :: 0 <= t < |s.th| ==> TicketOk(s.m, s.th[t]))
    && (forall t, u :: 0 <= t < u < |s.th| && HasTicket(s.th[t]) && HasTicket(s.th[u]) ==> s.th[t].n != s.th[u].n)
    && Sum(Tickets(s.th)) == s.m.issued + 1 - s.m.serving
  }

  predicate TicketOk(m: Mem, pc: Pc) {
    && (HasTicket(pc) ==> m.serving <= pc.n <= m.issued)
    && (ServedTicket(pc) ==> pc.n == m.serving)
    && (pc.TryHead? || pc.TryCas? ==> pc.to <= m.issued)
    && (pc.TryCas? ==> pc.to < m.serving)
  }

  ghost predicate QueueInv(s: State) {
    && (forall i :: 0 <= i < |s.m.queue| ==> s.m.queue[i] < |s.th| && InMcs(s.th[s.m.queue[i]]))
    && (forall i, j :: 0 <= i < j < |s.m.queue| ==> s.m.queue[i] != s.m.queue[j])
    && (forall t :: 0 <= t < |s.th| && InMcs(s.th[t]) ==> t in s.m.queue)
    && (forall t :: 0 <= t < |s.th| && ServedMcs(s.th[t]) ==> Heads(s.m, t))
  }

  predicate Heads(m: Mem, t: nat) {
    m.queue != [] && m.queue[0] == t
  }

  ghost predicate MutexInv(s: State) {
    && (forall t :: 0 <= t < |s.th| && HasMutex(s.th[t]) ==> s.m.locked)
    && (forall t, u :: 0 <= t < u < |s.th| ==> !(HasMutex(s.th[t]) && HasMutex(s.th[u])))
  }

  /** What `lockType == ty` allows a thread to be doing: a thread that will write
      lockType, or is in the critical section, went through the lock that `ty` names. */
  predicate TypeOk(ty: LockType, pc: Pc) {
    && (TicketAdaptor(pc) ==> ty == TICKET)
    && (McsAdaptor(pc) ==> ty == MCS)
    && (MutexAdaptor(pc) ==> ty == MUTEX)
    && (pc.Critical? ==> ty == pc.ty)
    && (pc.TktToMutex? || pc.TktReadTotal? || pc.TktSetTotal? || pc.TktSetNum? || pc.TktToMcs? ==> TicketAdaptor(pc))
    && (pc.McsDecide? || pc.McsToMutex? || pc.McsSetTotal? || pc.McsSetNum? || pc.McsToTicket? ==> McsAdaptor(pc))
  }

  ghost predicate TypeInv(s: State) {
    forall t :: 0 <= t < |s.th| ==> TypeOk(s.m.lockType, s.th[t])
  }

  /** Stale threads cannot reach an adaptation point. */
  ghost predicate PeriodInv(s: State) {
    && (s.m.lockType != TICKET ==> NoHit(s.m.issued, Sum(Takers(s.th))))
    && (s.m.lockType != MCS ==> NoHit(s.m.numAcquired, Sum(Counters(s.th))))
    && (forall a :: 0 <= a < |s.th| && McsAdaptor(s.th[a]) ==>
          NoHit(s.m.numAcquired, Sum(Budgets(s.th, s.m.queue, a))))
    && (forall a, b :: 0 <= a < b < |s.th| ==> !(McsAdaptor(s.th[a]) && McsAdaptor(s.th[b])))
  }

  ghost predicate Inv(s: State) {
    && |s.th| <= MAX_THREADS
    && TicketInv(s)
    && QueueInv(s)
    && MutexInv(s)
    && TypeInv(s)
    && PeriodInv(s)
  }

  /** What the invariant says about thread `t` alone. */
  predicate LocalOk(m: Mem, t: nat, pc: Pc) {
    && TypeOk(m.lockType, pc)
    && TicketOk(m, pc)
    && m.serving <= m.issued + 1 <= m.serving + MAX_THREADS
    && (ServedMcs(pc) ==> Heads(m, t))
    && (HasMutex(pc) ==> m.locked)
  }

  lemma InvAt(s: State, t: nat)
    requires Inv(s) && t < |s.th|
    ensures LocalOk(s.m, t, s.th[t])
  {
    SumAtMost(Tickets(s.th), 1);
  }

  lemma SameResidue(a: int, b: int)
    requires -TWO32 < a - b < TWO32 && a % TWO32 == b % TWO32
    ensures a == b
  {
  }

  lemma DifferenceOne(a: int, b: int)
    requires -TWO32 + 1 < a - b <= TWO32
    ensures (a % TWO32 - b % TWO32) % TWO32 == 1 <==> a - b == 1
  {
  }

  /** With so few threads and a timely trylock, the tests on 32-bit numbers are as good as
      tests on the numbers without wrapping. */
  lemma ExactTests(m: Mem, t: nat, pc: Pc)
    requires LocalOk(m, t, pc) && Timely(m, pc)
    ensures HasTicket(pc) ==> (Head(m) == pc.n % TWO32 <==> m.serving == pc.n)
    ensures pc.TryHead? ==> ((Head(m) - pc.to % TWO32) % TWO32 == 1 <==> m.serving - pc.to == 1)
    ensures pc.TryCas? ==> (Tail(m) == pc.to % TWO32 <==> m.issued == pc.to)
  {
    if HasTicket(pc) && Head(m) == pc.n % TWO32 { SameResidue(m.serving, pc.n); }
    if pc.TryHead? { DifferenceOne(m.serving, pc.to); }
    if pc.TryCas? && Tail(m) == pc.to % TWO32 { SameResidue(m.issued, pc.to); }
  }

  // ----- what one step of one thread can do

  predicate SameHoldings(pc: Pc, pc': Pc) {
    && HasTicket(pc') == HasTicket(pc) && (HasTicket(pc) ==> pc'.n == pc.n)
    && InMcs(pc') == InMcs(pc)
    && HasMutex(pc') == HasMutex(pc)
  }

  predicate SameQueues(m: Mem, m': Mem) {
    m'.serving == m.serving && m'.issued == m.issued && m'.queue == m.queue && m'.locked == m.locked
  }

  /** The low-level locks: untouched, or one of them acquired or released. */
  predicate LowEffect(m: Mem, t: nat, pc: Pc, v: View) {
    && TicketOk(v.m, v.pc) && (ServedMcs(v.pc) ==> Heads(v.m, t))
    && (
      || (SameQueues(m, v.m) && SameHoldings(pc, v.pc))
      || Acquires(m, t, pc, v)
      || Releases(m, t, pc, v)
    )
  }

  predicate Acquires(m: Mem, t: nat, pc: Pc, v: View) {
    && !HasTicket(pc) && !InMcs(pc) && !HasMutex(pc)
    && (
      || (HasTicket(v.pc) && v.pc.n == v.m.issued && SameQueues(m.(issued := m.issued + 1), v.m))
      || (InMcs(v.pc) && SameQueues(m.(queue := m.queue + [t]), v.m))
      || (HasMutex(v.pc) && !m.locked && SameQueues(m.(locked := true), v.m))
    )
  }

  predicate Releases(m: Mem, t: nat, pc: Pc, v: View) {
    && !HasTicket(v.pc) && !InMcs(v.pc) && !HasMutex(v.pc) && !v.pc.TryCas?
    && (
      || (ServedTicket(pc) && SameQueues(m.(serving := m.serving + 1), v.m))
      || (ServedMcs(pc) && Heads(m, t) && SameQueues(m.(queue := m.queue[1..]), v.m))
      || (HasMutex(pc) && m.locked && SameQueues(m.(locked := false), v.m))
    )
  }

  /** lockType changes only in the steps that write it, and the thread afterwards fits
      the type; taking a ticket or counting must not hit a multiple of the period. */
  predicate TypeEffect(m: Mem, pc: Pc, v: View) {
    && (!AboutToWriteType(pc) ==> v.m.lockType == m.lockType)
    && (AboutToWriteType(pc) ==> v.pc.Recheck?)
    && (pc.MtxToTicket? ==> v.m.lockType == TICKET)
    && (  && (m.lockType != TICKET && v.m.issued != m.issued ==> v.m.issued % ADAPT_PERIOD != 0)
          && (m.lockType != MCS && pc.McsCount? ==> v.m.numAcquired % ADAPT_PERIOD != 0)
        ==> TypeOk(v.m.lockType, v.pc))
  }

  predicate ResetsNum(pc: Pc) {
    pc.TktSetNum? || pc.McsSetNum? || pc.MtxSetNum?
  }

  /** How the counters move, and what a thread may still do to them. */
  predicate PeriodEffect(m: Mem, t: nat, pc: Pc, v: View) {
    && (v.m.issued == m.issued || (v.m.issued == m.issued + 1 && MayTakeTicket(pc) && !MayTakeTicket(v.pc)))
    && (MayTakeTicket(v.pc) && !MayTakeTicket(pc) ==> m.lockType == TICKET)
    && (MayCount(v.pc) && !MayCount(pc) ==> m.lockType == MCS)
    && (pc.McsCount? ==> v.m.queue == m.queue && v.pc == McsWait(v.m.numAcquired))
    && (v.pc.McsCount? ==> v.m.queue == m.queue + [t])
    && (ResetsNum(pc) ==> v.m.numAcquired == if pc.MtxSetNum? then 0 else NUM_ACQ_INIT)
    && (!ResetsNum(pc) ==> v.m.numAcquired == m.numAcquired + Flag(pc.McsCount?))
    && (AboutToWriteType(pc) || ResetsNum(pc) ==> v.m.queue == m.queue && v.m.issued == m.issued)
    && (McsAdaptor(v.pc) && !pc.McsCount? ==> McsAdaptor(pc) && v.m.queue == m.queue)
  }

  predicate Effect(m: Mem, t: nat, pc: Pc, v: View) {
    LowEffect(m, t, pc, v) && TypeEffect(m, pc, v) && PeriodEffect(m, t, pc, v)
  }

  lemma TicketStepEffect(m: Mem, t: nat, pc: Pc)
    requires TicketPath(pc) && LocalOk(m, t, pc) && Timely(m, pc)
    ensures Effect(m, t, pc, StepTicket(m, pc))
  {
    ExactTests(m, t, pc);
    hide Head, Tail, AsInt32;
    var v := StepTicket(m, pc);
    assert LowEffect(m, t, pc, v) by { hide TypeEffect, PeriodEffect, TypeOk; }
    assert TypeEffect(m, pc, v) by { hide LowEffect, PeriodEffect, TicketOk; }
    assert PeriodEffect(m, t, pc, v) by { hide LowEffect, TypeEffect, TicketOk; }
    hide *;
  }

  lemma McsStepEffect(m: Mem, t: nat, pc: Pc, len: nat)
    requires McsPath(pc) && LocalOk(m, t, pc)
    ensures Effect(m, t, pc, StepMcs(m, t, pc, len))
  {
    var v := StepMcs(m, t, pc, len);
    hide AsInt32;
    assert LowEffect(m, t, pc, v) by { hide TypeEffect, PeriodEffect, TypeOk; }
    assert TypeEffect(m, pc, v) by { hide LowEffect, PeriodEffect, TicketOk; }
    assert PeriodEffect(m, t, pc, v) by { hide LowEffect, TypeEffect, TicketOk; }
    hide *;
  }

  lemma MutexStepEffect(m: Mem, t: nat, pc: Pc)
    requires MutexPath(pc) && LocalOk(m, t, pc)
    ensures Effect(m, t, pc, StepMutex(m, pc))
  {
    var v := StepMutex(m, pc);
    assert LowEffect(m, t, pc, v) by { hide TypeEffect, PeriodEffect, TypeOk; }
    assert TypeEffect(m, pc, v) by { hide LowEffect, PeriodEffect, TicketOk; }
    assert PeriodEffect(m, t, pc, v) by { hide LowEffect, TypeEffect, TicketOk; }
    hide *;
  }

  lemma AcquireEffect(m: Mem, t: nat, pc: Pc)
    requires pc.Chosen? && LocalOk(m, t, pc)
    ensures Effect(m, t, pc, StepAcquire(m, t, pc.op, pc.ty))
  {
    var v := StepAcquire(m, t, pc.op, pc.ty);
    assert LowEffect(m, t, pc, v) by { hide TypeEffect, PeriodEffect, TypeOk; }
    assert TypeEffect(m, pc, v) by { hide LowEffect, PeriodEffect, TicketOk; }
    assert PeriodEffect(m, t, pc, v) by { hide LowEffect, TypeEffect, TicketOk; }
    hide *;
  }

  lemma ReleaseEffect(m: Mem, t: nat, pc: Pc, op: Op, len: nat)
    requires pc.Release? && LocalOk(m, t, pc)
    ensures Effect(m, t, pc, StepThread(m, t, pc, op, len))
  {
    var v := StepThread(m, t, pc, op, len);
    hide StepTicket, StepMcs, StepMutex, StepAcquire;
    assert LowEffect(m, t, pc, v) by { hide TypeEffect, PeriodEffect, TypeOk; }
    assert TypeEffect(m, pc, v) by { hide LowEffect, PeriodEffect, TicketOk; }
    assert PeriodEffect(m, t, pc, v) by { hide LowEffect, TypeEffect, TicketOk; }
    hide *;
  }

  lemma TryCasEffect(m: Mem, t: nat, pc: Pc, op: Op, len: nat)
    requires pc.TryCas? && LocalOk(m, t, pc) && Timely(m, pc)
    ensures Effect(m, t, pc, StepThread(m, t, pc, op, len))
  {
    ExactTests(m, t, pc);
    hide Head, Tail, AsInt32;
    var v := StepThread(m, t, pc, op, len);
    hide StepTicket, StepMcs, StepMutex, StepAcquire;
    assert LowEffect(m, t, pc, v) by { hide TypeEffect, PeriodEffect, TypeOk; }
    assert TypeEffect(m, pc, v) by { hide LowEffect, PeriodEffect, TicketOk; }
    assert PeriodEffect(m, t, pc, v) by { hide LowEffect, TypeEffect, TicketOk; }
    hide *;
  }

  lemma TryHeadEffect(m: Mem, t: nat, pc: Pc, op: Op, len: nat)
    requires pc.TryHead? && LocalOk(m, t, pc) && Timely(m, pc)
    ensures Effect(m, t, pc, StepThread(m, t, pc, op, len))
  {
    ExactTests(m, t, pc);
    hide Head, Tail, AsInt32;
    hide StepTicket, StepMcs, StepMutex, StepAcquire;
  }

  lemma TryEnqueueEffect(m: Mem, t: nat, pc: Pc, op: Op, len: nat)
    requires pc.TryEnqueue? && LocalOk(m, t, pc)
    ensures Effect(m, t, pc, StepThread(m, t, pc, op, len))
  {
    hide StepTicket, StepMcs, StepMutex, StepAcquire;
    assert m.queue == [] ==> m.queue + [t] == [t];
  }

  lemma CommonEffect(m: Mem, t: nat, pc: Pc, op: Op, len: nat)
    requires (pc.Idle? || pc.ReadType? || pc.Recheck? || pc.Critical?) && LocalOk(m, t, pc)
    ensures Effect(m, t, pc, StepThread(m, t, pc, op, len))
  {
    var v := StepThread(m, t, pc, op, len);
    hide StepTicket, StepMcs, StepMutex, StepAcquire;
    assert LowEffect(m, t, pc, v) by { hide TypeEffect, PeriodEffect, TypeOk; }
    assert TypeEffect(m, pc, v) by { hide LowEffect, PeriodEffect, TicketOk; }
    assert PeriodEffect(m, t, pc, v) by { hide LowEffect, TypeEffect, TicketOk; }
    hide *;
  }

  lemma StepEffect(m: Mem, t: nat, pc: Pc, op: Op, len: nat)
    requires LocalOk(m, t, pc) && Timely(m, pc)
    ensures Effect(m, t, pc, StepThread(m, t, pc, op, len))
  {
    hide Effect, LocalOk, StepTicket, StepMcs, StepMutex, StepAcquire, ReleaseLow;
    if TicketPath(pc) { TicketStepEffect(m, t, pc); }
    else if McsPath(pc) { McsStepEffect(m, t, pc, len); }
    else if MutexPath(pc) { MutexStepEffect(m, t, pc); }
    else if pc.Chosen? { AcquireEffect(m, t, pc); }
    else if pc.Release? { ReleaseEffect(m, t, pc, op, len); }
    else if pc.TryCas? { TryCasEffect(m, t, pc, op, len); }
    else if pc.TryHead? { TryHeadEffect(m, t, pc, op, len); }
    else if pc.TryEnqueue? { TryEnqueueEffect(m, t, pc, op, len); }
    else { CommonEffect(m, t, pc, op, len); }
  }

  // ----- every step keeps the invariant

  function After(s: State, t: nat, v: View): State
    requires t < |s.th|
  {
    State(v.m, s.th[t := v.pc])
  }

  lemma TicketKept(s: State, t: nat, v: View)
    requires TicketInv(s) && t < |s.th| && LowEffect(s.m, t, s.th[t], v)
    ensures TicketInv(After(s, t, v))
  {
    var s' := After(s, t, v);
    TicketsUpdate(s, t, v);
    forall u | 0 <= u < |s'.th| && u != t
      ensures TicketOk(s'.m, s'.th[u])
    {
      assert TicketOk(s.m, s.th[u]) && TicketOk(s.m, s.th[t]);
      assert HasTicket(s.th[u]) && HasTicket(s.th[t]) ==> s.th[u].n != s.th[t].n;
    }
    forall u, w | 0 <= u < w < |s'.th| && HasTicket(s'.th[u]) && HasTicket(s'.th[w])
      ensures s'.th[u].n != s'.th[w].n
    {
      assert TicketOk(s.m, s.th[u]) && TicketOk(s.m, s.th[w]);
    }
  }

  lemma TicketsUpdate(s: State, t: nat, v: View)
    requires TicketInv(s) && t < |s.th| && LowEffect(s.m, t, s.th[t], v)
    ensures v.m.serving <= v.m.issued + 1 && Sum(Tickets(s.th[t := v.pc])) == v.m.issued + 1 - v.m.serving
  {
    assert TicketOk(s.m, s.th[t]);
    SumUpdate(Tickets(s.th), Tickets(s.th[t := v.pc]), t);
  }

  lemma QueueKept(s: State, t: nat, v: View)
    requires QueueInv(s) && t < |s.th| && LowEffect(s.m, t, s.th[t], v)
    ensures QueueInv(After(s, t, v))
  {
    if v.m.queue == s.m.queue {
      QueueSame(s, t, v);
    } else if v.m.queue == s.m.queue + [t] && InMcs(v.pc) {
      QueueJoined(s, t, v);
    } else {
      QueueLeft(s, t, v);
    }
  }

  lemma QueueSame(s: State, t: nat, v: View)
    requires QueueInv(s) && t < |s.th| && v.m.queue == s.m.queue
    requires InMcs(v.pc) == InMcs(s.th[t]) && (ServedMcs(v.pc) ==> Heads(v.m, t))
    ensures QueueInv(After(s, t, v))
  {
  }

  lemma QueueJoined(s: State, t: nat, v: View)
    requires QueueInv(s) && t < |s.th| && v.m.queue == s.m.queue + [t]
    requires !InMcs(s.th[t]) && InMcs(v.pc) && (ServedMcs(v.pc) ==> Heads(v.m, t))
    ensures QueueInv(After(s, t, v))
  {
    assert t !in s.m.queue;
    assert v.m.queue[|s.m.queue|] == t;
    assert forall u :: u in s.m.queue ==> u in v.m.queue;
  }

  lemma QueueLeft(s: State, t: nat, v: View)
    requires QueueInv(s) && t < |s.th| && Heads(s.m, t) && v.m.queue == s.m.queue[1..]
    requires InMcs(s.th[t]) && !InMcs(v.pc)
    ensures QueueInv(After(s, t, v))
  {
    var s' := After(s, t, v);
    forall u | 0 <= u < |s'.th| && InMcs(s'.th[u])
      ensures u in v.m.queue && !ServedMcs(s'.th[u])
    {
      assert u != t && u in s.m.queue;
      var i :| 0 <= i < |s.m.queue| && s.m.queue[i] == u;
      assert v.m.queue[i - 1] == u;
    }
  }

  lemma MutexKept(s: State, t: nat, v: View)
    requires MutexInv(s) && t < |s.th| && LowEffect(s.m, t, s.th[t], v)
    ensures MutexInv(After(s, t, v))
  {
    hide TicketOk;
  }

  lemma TicketsBounded(s: State)
    requires TicketInv(s)
    ensures s.m.issued + 1 - s.m.serving + Sum(Takers(s.th)) <= |s.th|
  {
    SumPair(Tickets(s.th), Takers(s.th), 1);
  }

  /** Nobody else is writing lockType or inside the critical section. */
  lemma OnlyWriter(s: State, t: nat, u: nat)
    requires Inv(s) && t < |s.th| && u < |s.th| && t != u && AboutToWriteType(s.th[t])
    ensures !TicketAdaptor(s.th[u]) && !McsAdaptor(s.th[u]) && !MutexAdaptor(s.th[u]) && !s.th[u].Critical?
  {
    InvAt(s, t);
    InvAt(s, u);
    if HasTicket(s.th[t]) && HasTicket(s.th[u]) {
      TicketsBounded(s);
      assert s.th[u].n != s.th[t].n;
    }
    assert !(HasMutex(s.th[t]) && HasMutex(s.th[u]));
    assert !(McsAdaptor(s.th[t]) && McsAdaptor(s.th[u]));
  }

  lemma TypeKept(s: State, t: nat, v: View)
    requires Inv(s) && t < |s.th| && TypeEffect(s.m, s.th[t], v)
    requires s.m.lockType != TICKET && v.m.issued != s.m.issued ==> v.m.issued % ADAPT_PERIOD != 0
    requires s.m.lockType != MCS && s.th[t].McsCount? ==> v.m.numAcquired % ADAPT_PERIOD != 0
    ensures TypeInv(After(s, t, v))
  {
    hide TicketInv, QueueInv, MutexInv, PeriodInv;
    var s' := After(s, t, v);
    forall u | 0 <= u < |s'.th|
      ensures TypeOk(s'.m.lockType, s'.th[u])
    {
      if u != t && AboutToWriteType(s.th[t]) { OnlyWriter(s, t, u); }
    }
  }

  // ----- the periods

  lemma TakersKept(s: State, t: nat, v: View)
    requires t < |s.th|
    requires NoHit(s.m.issued, Sum(Takers(s.th)))
    requires v.m.issued == s.m.issued || v.m.issued == s.m.issued + 1
    requires v.m.issued + Flag(MayTakeTicket(v.pc)) <= s.m.issued + Flag(MayTakeTicket(s.th[t]))
    ensures NoHit(v.m.issued, Sum(Takers(s.th[t := v.pc])))
    ensures v.m.issued != s.m.issued ==> v.m.issued % ADAPT_PERIOD != 0
  {
    SumUpdate(Takers(s.th), Takers(s.th[t := v.pc]), t);
    SumAtLeast(Takers(s.th), t);
  }

  /** Leaving ticket mode at a ticket divisible by the period: every thread that may
      still take a ticket stays below the next multiple. */
  lemma TakersOnExit(s: State, t: nat, v: View)
    requires Inv(s) && t < |s.th| && TicketAdaptor(s.th[t]) && ServedTicket(s.th[t])
    requires v.m.issued == s.m.issued && !MayTakeTicket(v.pc)
    ensures NoHit(v.m.issued, Sum(Takers(s.th[t := v.pc])))
  {
    InvAt(s, t);
    TicketsBounded(s);
    SumUpdate(Takers(s.th), Takers(s.th[t := v.pc]), t);
  }

  lemma CountersKept(s: State, t: nat, v: View)
    requires t < |s.th|
    requires NoHit(s.m.numAcquired, Sum(Counters(s.th)))
    requires v.m.numAcquired == s.m.numAcquired || v.m.numAcquired == s.m.numAcquired + 1
    requires v.m.numAcquired + Flag(MayCount(v.pc)) <= s.m.numAcquired + Flag(MayCount(s.th[t]))
    ensures NoHit(v.m.numAcquired, Sum(Counters(s.th[t := v.pc])))
    ensures v.m.numAcquired != s.m.numAcquired ==> v.m.numAcquired % ADAPT_PERIOD != 0
  {
    SumUpdate(Counters(s.th), Counters(s.th[t := v.pc]), t);
    SumAtLeast(Counters(s.th), t);
  }

  lemma CountersReset(s: State)
    requires |s.th| <= MAX_THREADS && s.m.numAcquired <= NUM_ACQ_INIT
    ensures NoHit(s.m.numAcquired, Sum(Counters(s.th)))
  {
    SumAtMost(Counters(s.th), 1);
  }

  lemma CountersOnExit(s: State, t: nat, v: View)
    requires Inv(s) && t < |s.th| && McsAdaptor(s.th[t])
    requires v.m.numAcquired == s.m.numAcquired && !MayCount(v.pc)
    ensures NoHit(v.m.numAcquired, Sum(Counters(s.th[t := v.pc])))
  {
    assert NoHit(s.m.numAcquired, Sum(Budgets(s.th, s.m.queue, t)));
    SumMonotone(Budgets(s.th, s.m.queue, t), Counters(s.th[t := v.pc]));
  }

  lemma {:induction false} BeforeAppend(q: seq<nat>, x: nat, y: nat, a: nat)
    requires a in q
    ensures Before(q + [y], x, a) == Before(q, x, a)
  {
    assert (q + [y])[0] == q[0];
    if q[0] != a {
      assert (q + [y])[1..] == q[1..] + [y];
      BeforeAppend(q[1..], x, y, a);
    }
  }

  lemma {:induction false} BeforeMember(q: seq<nat>, x: nat, a: nat)
    requires Before(q, x, a)
    ensures x in q
  {
    if q[0] != x { BeforeMember(q[1..], x, a); }
  }

  /** The budgets shrink by at least what num_acquired grew. */
  lemma BudgetsKept(s: State, s': State, t: nat, a: nat)
    requires |s.th| == |s'.th| && t < |s.th| && a < |s.th|
    requires NoHit(s.m.numAcquired, Sum(Budgets(s.th, s.m.queue, a)))
    requires forall i :: 0 <= i < |s.th| && i != t ==> Budget(s'.th, s'.m.queue, a, i) <= Budget(s.th, s.m.queue, a, i)
    requires s'.m.numAcquired == s.m.numAcquired || s'.m.numAcquired == s.m.numAcquired + 1
    requires s'.m.numAcquired + Budget(s'.th, s'.m.queue, a, t) <= s.m.numAcquired + Budget(s.th, s.m.queue, a, t)
    ensures NoHit(s'.m.numAcquired, Sum(Budgets(s'.th, s'.m.queue, a)))
    ensures s'.m.numAcquired != s.m.numAcquired ==> s'.m.numAcquired % ADAPT_PERIOD != 0
  {
    SumMove(Budgets(s.th, s.m.queue, a), Budgets(s'.th, s'.m.queue, a), t);
    SumAtLeast(Budgets(s.th, s.m.queue, a), t);
  }

  /** A new adaptor: everybody else can add at most twice before it is done. */
  lemma BudgetsFresh(s: State, a: nat)
    requires |s.th| <= MAX_THREADS && a < |s.th| && s.m.numAcquired % ADAPT_PERIOD == 0
    ensures NoHit(s.m.numAcquired, Sum(Budgets(s.th, s.m.queue, a)))
  {
    SumAtMostBut(Budgets(s.th, s.m.queue, a), 2, a);
  }

  /** The adaptor itself resets num_acquired: it heads the queue, so nobody adds twice. */
  lemma BudgetsReset(s: State, a: nat)
    requires |s.th| <= MAX_THREADS && a < |s.th| && s.m.numAcquired == NUM_ACQ_INIT && Heads(s.m, a)
    ensures NoHit(s.m.numAcquired, Sum(Budgets(s.th, s.m.queue, a)))
  {
    SumAtMostBut(Budgets(s.th, s.m.queue, a), 1, a);
  }

  /** Queue movements of `t` never raise another budget, and a count by `t` is paid from its own. */
  lemma QueueBudgets(s: State, t: nat, v: View, a: nat)
    requires Inv(s) && t < |s.th| && a < |s.th| && a != t && McsAdaptor(s.th[a])
    requires LowEffect(s.m, t, s.th[t], v) && PeriodEffect(s.m, t, s.th[t], v) && !ResetsNum(s.th[t])
    ensures NoHit(v.m.numAcquired, Sum(Budgets(s.th[t := v.pc], v.m.queue, a)))
    ensures s.th[t].McsCount? ==> v.m.numAcquired % ADAPT_PERIOD != 0
  {
    hide TicketInv, MutexInv, TypeInv, NoHit, TicketOk;
    forall i | 0 <= i < |s.th|
      ensures v.m.queue == s.m.queue + [t] ==> Before(v.m.queue, i, a) == Before(s.m.queue, i, a)
    {
      if v.m.queue == s.m.queue + [t] { BeforeAppend(s.m.queue, i, t, a); }
    }
    if Before(s.m.queue, t, a) { BeforeMember(s.m.queue, t, a); }
    BudgetsKept(s, After(s, t, v), t, a);
  }

  /** PeriodInv across every step that neither writes lockType nor resets num_acquired. */
  lemma PeriodKept(s: State, t: nat, v: View)
    requires Inv(s) && t < |s.th| && Effect(s.m, t, s.th[t], v)
    requires !AboutToWriteType(s.th[t]) && !ResetsNum(s.th[t])
    ensures PeriodInv(After(s, t, v))
    ensures s.m.lockType != TICKET && v.m.issued != s.m.issued ==> v.m.issued % ADAPT_PERIOD != 0
    ensures s.m.lockType != MCS && s.th[t].McsCount? ==> v.m.numAcquired % ADAPT_PERIOD != 0
  {
    hide TicketInv, QueueInv, MutexInv, TypeInv, NoHit, LowEffect;
    var s' := After(s, t, v);
    if s.m.lockType != TICKET { TakersKept(s, t, v); }
    if s.m.lockType != MCS { CountersKept(s, t, v); }
    forall a | 0 <= a < |s.th| && McsAdaptor(s'.th[a])
      ensures NoHit(s'.m.numAcquired, Sum(Budgets(s'.th, s'.m.queue, a)))
      ensures a != t ==> !McsAdaptor(v.pc)
    {
      if a != t {
        QueueBudgets(s, t, v, a);
      } else if s.th[t].McsCount? {
        BudgetsFresh(s', a);
      } else {
        BudgetsKept(s, s', t, a);
      }
    }
  }

  lemma PeriodReset(s: State, t: nat, v: View)
    requires Inv(s) && t < |s.th| && Effect(s.m, t, s.th[t], v) && ResetsNum(s.th[t])
    ensures PeriodInv(After(s, t, v))
  {
    hide TicketInv, QueueInv, MutexInv, NoHit, LowEffect;
    var s' := After(s, t, v);
    InvAt(s, t);
    if s.m.lockType != TICKET { TakersKept(s, t, v); }
    CountersReset(s');
    forall a | 0 <= a < |s.th| && McsAdaptor(s'.th[a])
      ensures a == t && NoHit(s'.m.numAcquired, Sum(Budgets(s'.th, s'.m.queue, a)))
    {
      assert TypeOk(s.m.lockType, s.th[a]);
      BudgetsReset(s', t);
    }
  }

  lemma PeriodSwitch(s: State, t: nat, v: View)
    requires Inv(s) && t < |s.th| && Effect(s.m, t, s.th[t], v) && AboutToWriteType(s.th[t])
    ensures PeriodInv(After(s, t, v))
  {
    hide TicketInv, QueueInv, MutexInv, NoHit, LowEffect;
    var s' := After(s, t, v);
    InvAt(s, t);
    forall u | 0 <= u < |s.th|
      ensures !McsAdaptor(s'.th[u])
    {
      if u != t { OnlyWriter(s, t, u); }
    }
    if s.m.lockType == TICKET { TakersOnExit(s, t, v); } else { TakersKept(s, t, v); }
    if s.m.lockType == MCS { CountersOnExit(s, t, v); } else { CountersKept(s, t, v); }
  }

  lemma EffectKeepsInv(s: State, t: nat, v: View)
    requires Inv(s) && t < |s.th| && Effect(s.m, t, s.th[t], v)
    ensures Inv(After(s, t, v))
  {
    hide TicketInv, QueueInv, MutexInv, TypeInv, PeriodInv, LowEffect, TypeEffect, TypeOk;
    TicketKept(s, t, v);
    QueueKept(s, t, v);
    MutexKept(s, t, v);
    if AboutToWriteType(s.th[t]) {
      PeriodSwitch(s, t, v);
    } else if ResetsNum(s.th[t]) {
      PeriodReset(s, t, v);
    } else {
      PeriodKept(s, t, v);
    }
    TypeKept(s, t, v);
  }

  lemma StepKeepsInv(s: State, e: Event)
    requires Inv(s) && AllTimely(s)
    ensures Inv(Step(s, e))
  {
    match e
    case SetMp(mp) =>
      var s' := Step(s, e);
      assert TicketInv(s') && QueueInv(s') && PeriodInv(s');
    case Move(t, op, len) =>
      hide TicketInv, QueueInv, MutexInv, TypeInv, PeriodInv, Effect, LocalOk, StepThread;
      if t < |s.th| {
        InvAt(s, t);
        StepEffect(s.m, t, s.th[t], op, len);
        EffectKeepsInv(s, t, StepThread(s.m, t, s.th[t], op, len));
      }
  }

  lemma InitInv(n: nat, mp: bool)
    requires n <= MAX_THREADS
    ensures Inv(Init(n, mp))
  {
    var s := Init(n, mp);
    SumZero(Tickets(s.th));
    SumZero(Takers(s.th));
    SumZero(Counters(s.th));
  }

  // ----- results

  /** At every point of every schedule. */
  lemma {:induction false} Reachable(n: nat, mp: bool, sched: seq<Event>)
    requires n <= MAX_THREADS && TimelyRun(Init(n, mp), sched)
    ensures Inv(Run(Init(n, mp), sched)) && |Run(Init(n, mp), sched).th| == n
  {
    hide Inv, Step;
    if sched == [] {
      InitInv(n, mp);
    } else {
      var s := Run(Init(n, mp), sched[..|sched| - 1]);
      Reachable(n, mp, sched[..|sched| - 1]);
      StepKeepsInv(s, sched[|sched| - 1]);
      StepSize(s, sched[|sched| - 1]);
    }
  }

  lemma StepSize(s: State, e: Event)
    ensures |Step(s, e).th| == |s.th|
  {
    hide StepThread;
  }

  lemma InvExclusive(s: State)
    requires Inv(s)
    ensures Exclusive(s)
  {
    hide PeriodInv;
    forall t, u | 0 <= t < u < |s.th| && s.th[t].Critical? && s.th[u].Critical?
      ensures false
    {
      InvAt(s, t);
      InvAt(s, u);
    }
  }

  /** Mutual exclusion, whatever switches happen and however the flag flips. */
  lemma MutualExclusion(n: nat, mp: bool, sched: seq<Event>)
    requires n <= MAX_THREADS && TimelyRun(Init(n, mp), sched)
    ensures Exclusive(Run(Init(n, mp), sched))
  {
    hide Inv;
    Reachable(n, mp, sched);
    InvExclusive(Run(Init(n, mp), sched));
  }

  /** `t` is the thread to which the low-level lock `ty` belongs. */
  predicate HoldsLow(m: Mem, t: nat, pc: Pc, ty: LockType) {
    match ty
    case TICKET => ServedTicket(pc) && pc.n == m.serving
    case MCS => ServedMcs(pc) && Heads(m, t)
    case MUTEX => HasMutex(pc) && m.locked
  }

  /** The guard that the ticket and MCS paths never test: whoever is about to write
      lockType holds the lock that lockType names. */
  lemma WriterHoldsNamedLock(n: nat, mp: bool, sched: seq<Event>, t: nat)
    requires n <= MAX_THREADS && t < n && TimelyRun(Init(n, mp), sched)
    ensures var s := Run(Init(n, mp), sched);
      |s.th| == n && (AboutToWriteType(s.th[t]) ==> HoldsLow(s.m, t, s.th[t], s.m.lockType))
  {
    hide Inv;
    Reachable(n, mp, sched);
    InvAt(Run(Init(n, mp), sched), t);
  }

  /** glk_unlock re-reads lockType, and what it then releases is what its caller holds. */
  lemma UnlockReleasesHeldLock(n: nat, mp: bool, sched: seq<Event>, t: nat)
    requires n <= MAX_THREADS && t < n && TimelyRun(Init(n, mp), sched)
    ensures var s := Run(Init(n, mp), sched);
      && |s.th| == n
      && (s.th[t].Critical? ==> s.th[t].ty == s.m.lockType && HoldsLow(s.m, t, s.th[t], s.m.lockType))
      && (s.th[t].Release? ==> HoldsLow(s.m, t, s.th[t], s.th[t].ty))
  {
    hide Inv;
    Reachable(n, mp, sched);
    InvAt(Run(Init(n, mp), sched), t);
  }
}
