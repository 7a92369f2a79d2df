/** The adaptive lock of src/glk.c as an interleaving machine.

    One logical lock lives in three low-level locks at once: a ticket lock, an MCS
    queue and a futex mutex; `lockType` names the one that currently counts.
    Every step is one thread performing one access to shared memory. Here the MCS
    lock is its queue of threads and the mutex its `locked` byte; modules Mcs and
    Mutexee show that the pointer-level and futex-level code provide exactly that. */
module Glk {
  import opened Sums

  datatype LockType = TICKET | MCS | MUTEX
  datatype Op = Lock | TryLock
  datatype Next = Finish | Retry(op: Op)

  const SAMPLE_PERIOD := 128    // GLK_SAMPLE_LOCK_EVERY + 1
  const ADAPT_PERIOD := 4096    // GLK_ADAPT_LOCK_EVERY + 1
  const SAMPLE_NUM := ADAPT_PERIOD / SAMPLE_PERIOD
  const NUM_ACQ_INIT := ADAPT_PERIOD / 8
  const RATIO_HIGH := 3
  const RATIO_LOW := 2
  const TWO31 := 0x8000_0000
  const TWO32 := 0x1_0000_0000

  /** The largest number of threads for which the sampling periods protect `lockType`. */
  const MAX_THREADS := 2048

  /** Where a thread is inside glk_lock, glk_trylock or glk_unlock. `n` is the
      ticket, or the value of num_acquired, that the thread obtained. */
  datatype Pc =
    | Idle
    | ReadType(op: Op)
    | Chosen(op: Op, ty: LockType)
      // ticket lock, then glk_ticket_adap
    | TktDistance(n: nat)
    | TktSample(n: nat, distance: int)
    | TktWait(n: nat)
    | TktAdapt(n: nat)
    | TktToMutex(n: nat)
    | TktReadTotal(n: nat)
    | TktSetTotal(n: nat, total: nat, toMcs: bool)
    | TktSetNum(n: nat, toMcs: bool)
    | TktToMcs(n: nat)
      // ticket trylock
    | TryHead(to: nat)
    | TryCas(to: nat)
      // MCS lock, then glk_mcs_adap
    | McsCount
    | McsWait(n: nat)
    | McsAdapt(n: nat)
    | McsDecide(n: nat, count: int)
    | McsToMutex(n: nat)
    | McsSetTotal(n: nat, total: nat, toTicket: bool)
    | McsSetNum(n: nat, toTicket: bool)
    | McsToTicket(n: nat)
      // MCS trylock
    | TryEnqueue
      // mutex, then glk_mutex_adap
    | MtxAdapt
    | MtxTest
    | MtxSetTotal
    | MtxSetNum
    | MtxToTicket
      // common tail of glk_lock and glk_trylock; the lock is held in Critical
    | Recheck(op: Op, ty: LockType, n: nat)
    | Critical(ty: LockType, n: nat)
    | Release(ty: LockType, n: nat, next: Next)

  /** The shared fields of glk_t, and the background thread's flag. The 32-bit fields of the
      ticket lock are `Head` and `Tail`; `serving` and `issued` are the values they would have
      without wrapping, and so are the ticket numbers of the threads. No step looks at more
      than the residues (StepsOnResidues). */
  datatype Mem = Mem(
    lockType: LockType,
    serving: nat,
    issued: nat,
    queue: seq<nat>,
    locked: bool,
    numAcquired: nat,
    queueTotal: nat,
    multiprogramming: bool)

  /** Shared memory and the program counter of every thread. */
  datatype State = State(m: Mem, th: seq<Pc>)

  /** Shared memory and one program counter: what a step of that thread changes. */
  datatype View = View(m: Mem, pc: Pc)

  /** One scheduler choice: a thread moves (`op` says what it starts when idle, `len`
      what its queue walk counts), or the background thread flips the flag. */
  datatype Event =
    | Move(t: nat, op: Op, len: nat)
    | SetMp(mp: bool)

  function Init(n: nat, mp: bool): State {
    State(Mem(if mp then MUTEX else TICKET, 1, 0, [], false, 0, 0, mp), seq(n, i => Idle))
  }

  function Head(m: Mem): nat {
    m.serving % TWO32
  }

  function Tail(m: Mem): nat {
    m.issued % TWO32
  }

  function AsInt32(u: nat): int {
    if u % TWO32 < TWO31 then u % TWO32 else u % TWO32 - TWO32
  }

  function Step(s: State, e: Event): State {
    match e
    case SetMp(mp) => s.(m := s.m.(multiprogramming := mp))
    case Move(t, op, len) =>
      if t < |s.th| && !AwaitsLink(s.m, s.th[t], s.th) then
        var v := StepThread(s.m, t, s.th[t], op, len);
        State(v.m, s.th[t := v.pc])
      else s
  }

  /** The releasing holder of the MCS lock spins: the next thread in the queue has swapped
      the tail pointer, but only links itself once it has added to num_acquired. */
  predicate AwaitsLink(m: Mem, pc: Pc, th: seq<Pc>) {
    pc.Release? && pc.ty == MCS && |m.queue| > 1 && m.queue[1] < |th| && th[m.queue[1]].McsCount?
  }

  function StepThread(m: Mem, t: nat, pc: Pc, op: Op, len: nat): View {
    match pc
    case Idle => View(m, ReadType(op))
    case ReadType(o) => View(m, Chosen(o, m.lockType))
    case Chosen(o, ty) => StepAcquire(m, t, o, ty)
    case TryHead(to) => View(m, if (Head(m) - to % TWO32) % TWO32 == 1 then TryCas(to) else Idle)
    case TryCas(to) =>
      if Tail(m) == to % TWO32 then View(m.(issued := m.issued + 1), Recheck(TryLock, TICKET, m.issued + 1))
      else View(m, Idle)
    case TryEnqueue =>
      if m.queue == [] then View(m.(queue := [t]), Recheck(TryLock, MCS, 0)) else View(m, Idle)
    case Recheck(o, ty, n) =>
      View(m, if m.lockType == ty then Critical(ty, n) else Release(ty, n, Retry(o)))
    case Critical(_, n) => View(m, Release(m.lockType, n, Finish))
    case Release(ty, _, next) =>
      View(ReleaseLow(m, ty), if next.Finish? then Idle else ReadType(next.op))
    case _ =>
      if TicketPath(pc) then StepTicket(m, pc)
      else if McsPath(pc) then StepMcs(m, t, pc, len)
      else StepMutex(m, pc)
  }

  /** The first access to the low-level lock that was chosen. */
  function StepAcquire(m: Mem, t: nat, op: Op, ty: LockType): View {
    match (op, ty)
    case (Lock, TICKET) => View(m.(issued := m.issued + 1), TktDistance(m.issued + 1))
    case (TryLock, TICKET) => View(m, TryHead(m.issued))
    case (Lock, MCS) => View(m.(queue := m.queue + [t]), McsCount)
    case (TryLock, MCS) => View(m, if m.queue == [] then TryEnqueue else Idle)
    case (Lock, MUTEX) => if m.locked then View(m, Chosen(op, ty)) else View(m.(locked := true), MtxAdapt)
    case (TryLock, MUTEX) =>
      if m.locked then View(m, Idle) else View(m.(locked := true), Recheck(TryLock, MUTEX, 0))
  }

  predicate TicketPath(pc: Pc) {
    pc.TktDistance? || pc.TktSample? || pc.TktWait? || pc.TktAdapt? || pc.TktToMutex? || pc.TktReadTotal? ||
    pc.TktSetTotal? || pc.TktSetNum? || pc.TktToMcs?
  }

  predicate McsPath(pc: Pc) {
    pc.McsCount? || pc.McsWait? || pc.McsAdapt? || pc.McsDecide? || pc.McsToMutex? || pc.McsSetTotal? ||
    pc.McsSetNum? || pc.McsToTicket?
  }

  predicate MutexPath(pc: Pc) {
    pc.MtxAdapt? || pc.MtxTest? || pc.MtxSetTotal? || pc.MtxSetNum? || pc.MtxToTicket?
  }

  function StepTicket(m: Mem, pc: Pc): View
    requires TicketPath(pc)
  {
    match pc
    case TktDistance(n) =>
      View(m, if Head(m) == n % TWO32 then TktAdapt(n)
              else if n % SAMPLE_PERIOD == 0 then TktSample(n, AsInt32((n % TWO32 - Head(m)) % TWO32))
              else TktWait(n))
    case TktSample(n, d) => View(m.(queueTotal := (m.queueTotal + d) % TWO32), TktWait(n))
    case TktWait(n) => View(m, if Head(m) == n % TWO32 then TktAdapt(n) else pc)
    case TktAdapt(n) =>
      View(m, if n % ADAPT_PERIOD != 0 then Recheck(Lock, TICKET, n)
              else if m.multiprogramming then TktToMutex(n)
              else TktReadTotal(n))
    case TktToMutex(n) => View(m.(lockType := MUTEX), Recheck(Lock, TICKET, n))
    case TktReadTotal(n) =>
      View(m, if m.queueTotal >= RATIO_HIGH * SAMPLE_NUM then TktSetTotal(n, m.queueTotal / 8, true)
              else TktSetTotal(n, 0, false))
    case TktSetTotal(n, total, toMcs) => View(m.(queueTotal := total), TktSetNum(n, toMcs))
    case TktSetNum(n, toMcs) =>
      View(m.(numAcquired := NUM_ACQ_INIT), if toMcs then TktToMcs(n) else Recheck(Lock, TICKET, n))
    case TktToMcs(n) => View(m.(lockType := MCS), Recheck(Lock, TICKET, n))
  }

  function StepMcs(m: Mem, t: nat, pc: Pc, len: nat): View
    requires McsPath(pc)
  {
    match pc
    case McsCount => View(m.(numAcquired := m.numAcquired + 1), McsWait(m.numAcquired + 1))
    case McsWait(n) => View(m, if m.queue != [] && m.queue[0] == t then McsAdapt(n) else pc)
    case McsAdapt(n) =>
      if n % SAMPLE_PERIOD != 0 then View(m, Recheck(Lock, MCS, n))
      else
        var total := (m.queueTotal + if 1 <= len <= |m.queue| then len else 1) % TWO32;
        View(m.(queueTotal := total),
             if n % ADAPT_PERIOD != 0 then Recheck(Lock, MCS, n) else McsDecide(n, AsInt32(total)))
    case McsDecide(n, count) =>
      View(m, if m.multiprogramming then McsToMutex(n)
              else if count < RATIO_LOW * SAMPLE_NUM then McsSetTotal(n, 0, true)
              else McsSetTotal(n, count / 8, false))
    case McsToMutex(n) => View(m.(lockType := MUTEX), Recheck(Lock, MCS, n))
    case McsSetTotal(n, total, toTicket) => View(m.(queueTotal := total), McsSetNum(n, toTicket))
    case McsSetNum(n, toTicket) =>
      View(m.(numAcquired := NUM_ACQ_INIT), if toTicket then McsToTicket(n) else Recheck(Lock, MCS, n))
    case McsToTicket(n) => View(m.(lockType := TICKET), Recheck(Lock, MCS, n))
  }

  function StepMutex(m: Mem, pc: Pc): View {
    match pc
    case MtxAdapt => View(m, if m.multiprogramming then Recheck(Lock, MUTEX, 0) else MtxTest)
    case MtxTest => View(m, if m.lockType == MUTEX then MtxSetTotal else Recheck(Lock, MUTEX, 0))
    case MtxSetTotal => View(m.(queueTotal := 0), MtxSetNum)
    case MtxSetNum => View(m.(numAcquired := 0), MtxToTicket)
    case MtxToTicket => View(m.(lockType := TICKET), Recheck(Lock, MUTEX, 0))
    case _ => View(m, pc)
  }

  /** unlock_lock: release the low-level lock that `ty` names. */
  function ReleaseLow(m: Mem, ty: LockType): Mem {
    match ty
    case TICKET => m.(serving := m.serving + 1)
    case MCS => m.(queue := if m.queue == [] then [] else m.queue[1..])
    case MUTEX => m.(locked := false)
  }

  /** The state a schedule leads to from `s`. */
  function Run(s: State, sched: seq<Event>): State {
    if sched == [] then s else Step(Run(s, sched[..|sched| - 1]), sched[|sched| - 1])
  }

  // ----- one thread alone

  /** As AwaitsLink, where `late` are the other threads between their swap and their link. */
  predicate Blocked(m: Mem, pc: Pc, late: set<nat>) {
    pc.Release? && pc.ty == MCS && |m.queue| > 1 && m.queue[1] in late
  }

  /** `k` steps of thread `t` alone, which counts `len` nodes when it walks the queue. */
  function Alone(v: View, t: nat, op: Op, len: nat, late: set<nat>, k: nat): View
    decreases k
  {
    if k == 0 then v
    else Alone(if Blocked(v.m, v.pc, late) then v else StepThread(v.m, t, v.pc, op, len), t, op, len, late, k - 1)
  }

  // ----- timely trylocks

  /** Fewer than 2^32 tickets were issued since a thread in trylock read tail. */
  predicate Timely(m: Mem, pc: Pc) {
    pc.TryHead? || pc.TryCas? ==> m.issued - pc.to < TWO32
  }

  predicate AllTimely(s: State) {
    forall t :: 0 <= t < |s.th| ==> Timely(s.m, s.th[t])
  }

  /** The same in every state of the run. */
  predicate TimelyRun(s: State, sched: seq<Event>) {
    AllTimely(Run(s, sched)) && (sched == [] || TimelyRun(s, sched[..|sched| - 1]))
  }

  // ----- the numbers wrap

  /** The view with the ticket lock's fields and the ticket numbers reduced to 32 bits. */
  function Wrapped(v: View): View {
    View(v.m.(serving := Head(v.m), issued := Tail(v.m)), WrappedPc(v.pc))
  }

  function WrappedPc(pc: Pc): Pc {
    match pc
    case TktDistance(n) => TktDistance(n % TWO32)
    case TktSample(n, d) => TktSample(n % TWO32, d)
    case TktWait(n) => TktWait(n % TWO32)
    case TktAdapt(n) => TktAdapt(n % TWO32)
    case TktToMutex(n) => TktToMutex(n % TWO32)
    case TktReadTotal(n) => TktReadTotal(n % TWO32)
    case TktSetTotal(n, total, toMcs) => TktSetTotal(n % TWO32, total, toMcs)
    case TktSetNum(n, toMcs) => TktSetNum(n % TWO32, toMcs)
    case TktToMcs(n) => TktToMcs(n % TWO32)
    case TryHead(to) => TryHead(to % TWO32)
    case TryCas(to) => TryCas(to % TWO32)
    case Recheck(op, ty, n) => Recheck(op, ty, n % TWO32)
    case Critical(ty, n) => Critical(ty, n % TWO32)
    case Release(ty, n, next) => Release(ty, n % TWO32, next)
    case _ => pc
  }

  lemma Residue(x: nat)
    ensures x % TWO32 % TWO32 == x % TWO32 && (x % TWO32 + 1) % TWO32 == (x + 1) % TWO32
    ensures x % TWO32 % SAMPLE_PERIOD == x % SAMPLE_PERIOD && x % TWO32 % ADAPT_PERIOD == x % ADAPT_PERIOD
  {
  }

  lemma TicketResidues(m: Mem, pc: Pc)
    requires TicketPath(pc)
    ensures var w := Wrapped(View(m, pc));
      TicketPath(w.pc) && Wrapped(StepTicket(m, pc)) == Wrapped(StepTicket(w.m, w.pc))
  {
    Residue(m.serving);
    Residue(m.issued);
    Residue(pc.n);
    hide AsInt32;
  }

  lemma ReleaseResidues(m: Mem, ty: LockType)
    ensures Wrapped(View(ReleaseLow(m, ty), Idle)) == Wrapped(View(ReleaseLow(Wrapped(View(m, Idle)).m, ty), Idle))
  {
    Residue(m.serving);
    Residue(m.issued);
  }

  lemma QueueResidues(m: Mem, t: nat, pc: Pc, len: nat)
    requires McsPath(pc)
    ensures var w := Wrapped(View(m, pc)).m; Wrapped(StepMcs(m, t, pc, len)) == Wrapped(StepMcs(w, t, pc, len))
  {
    Residue(m.serving);
    Residue(m.issued);
    hide AsInt32;
  }

  lemma AcquireResidues(m: Mem, t: nat, op: Op, ty: LockType)
    ensures var w := Wrapped(View(m, Idle)).m; Wrapped(StepAcquire(m, t, op, ty)) == Wrapped(StepAcquire(w, t, op, ty))
  {
    Residue(m.serving);
    Residue(m.issued);
    Residue(m.issued + 1);
  }

  lemma TryResidues(m: Mem, t: nat, pc: Pc, op: Op, len: nat)
    requires pc.TryHead? || pc.TryCas? || pc.Recheck? || pc.Critical? || pc.Release?
    ensures var w := Wrapped(View(m, pc));
      Wrapped(StepThread(m, t, pc, op, len)) == Wrapped(StepThread(w.m, t, w.pc, op, len))
  {
    hide StepTicket, StepMcs, StepMutex, StepAcquire, ReleaseLow;
    Residue(m.serving);
    Residue(m.issued);
    if pc.TryHead? || pc.TryCas? { Residue(pc.to); } else { Residue(pc.n); }
    if pc.Release? { ReleaseResidues(m, pc.ty); }
  }

  /** The machine on 32-bit numbers and the machine on unwrapped ones take the same steps. */
  lemma StepsOnResidues(m: Mem, t: nat, pc: Pc, op: Op, len: nat)
    ensures var w := Wrapped(View(m, pc));
      Wrapped(StepThread(m, t, pc, op, len)) == Wrapped(StepThread(w.m, t, w.pc, op, len))
  {
    hide StepTicket, StepMcs, StepAcquire, AsInt32, ReleaseLow;
    if TicketPath(pc) {
      TicketResidues(m, pc);
      hide StepMutex, Wrapped, WrappedPc;
    } else if McsPath(pc) {
      QueueResidues(m, t, pc, len);
      hide StepMutex;
    } else if pc.Chosen? {
      AcquireResidues(m, t, pc.op, pc.ty);
      hide StepMutex;
    } else if pc.TryHead? || pc.TryCas? || pc.Recheck? || pc.Critical? || pc.Release? {
      TryResidues(m, t, pc, op, len);
      hide StepMutex, Wrapped, WrappedPc, StepThread;
    } else {
      Residue(m.serving);
      Residue(m.issued);
    }
  }

  ghost predicate Exclusive(s: State) {
    forall t, u :: 0 <= t < |s.th| && 0 <= u < |s.th| && s.th[t].Critical? && s.th[u].Critical? ==> t == u
  }
}
