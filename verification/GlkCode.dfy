/** The sequential code of src/glk.c in its own form: a lock object whose fields the
    functions update in place. Each method is proved to do, when nothing interrupts it, what
    the machine of module Glk does when only this thread moves; the machine's steps are
    the points at which other threads may come in between. */
module GlkCode {
  import opened Glk

  /** The thread, moving alone, gets from one point to the other; no other thread is between
      its swap and its link. */
  ghost predicate Does(v: View, t: nat, op: Op, len: nat, w: View) {
    exists k: nat :: Alone(v, t, op, len, {}, k) == w
  }

  lemma Done(v: View, t: nat, op: Op, len: nat)
    ensures Does(v, t, op, len, v)
  {
    assert Alone(v, t, op, len, {}, 0) == v;
  }

  /** One step in front of others. */
  lemma Then(v: View, t: nat, op: Op, len: nat, v1: View, w: View)
    requires StepThread(v.m, t, v.pc, op, len) == v1 && Does(v1, t, op, len, w)
    ensures Does(v, t, op, len, w)
  {
    var k: nat :| Alone(v1, t, op, len, {}, k) == w;
    assert Alone(v, t, op, len, {}, k + 1) == w by { hide StepThread; }
  }

  /** glk_t; the MCS lock is its queue of threads and the mutex its `locked` byte. The ghost
      fields are the ticket lock's 32-bit fields without wrapping. */
  class GlkLock {
    var lockType: LockType
    var head: nat
    var tail: nat
    var queue: seq<nat>
    var locked: bool
    var numAcquired: nat
    var queueTotal: nat
    var multiprogramming: bool
    ghost var serving: nat
    ghost var issued: nat

    ghost predicate Valid()
      reads this
    {
      head == Head(Memory()) && tail == Tail(Memory())
    }

    ghost function Memory(): Mem
      reads this
    {
      Mem(lockType, serving, issued, queue, locked, numAcquired, queueTotal, multiprogramming)
    }

    /** glk_init */
    constructor (multiprogramming: bool)
      ensures Valid() && Memory() == Init(0, multiprogramming).m
      ensures lockType == (if multiprogramming then MUTEX else TICKET) && this.multiprogramming == multiprogramming
      ensures head == 1 && tail == 0 && queue == [] && !locked && numAcquired == 0 && queueTotal == 0
    {
      this.multiprogramming := multiprogramming;
      lockType := if multiprogramming then MUTEX else TICKET;
      head, tail, queue, locked := 1, 0, [], false;
      serving, issued := 1, 0;
      numAcquired, queueTotal := 0, 0;
    }

    /** glk_ticket_adap */
    method TicketAdap(ticket: nat, ghost t: nat)
      requires Valid()
      modifies this
      ensures Valid()
      ensures Memory() == TicketAdapted(old(Memory()), ticket)
      ensures TicketChange(old(Memory()), ticket, Memory())
      ensures Does(View(old(Memory()), TktAdapt(ticket)), t, Lock, 1, View(Memory(), Recheck(Lock, TICKET, ticket)))
    {
      ghost var m := Memory();
      if ticket % ADAPT_PERIOD == 0 {
        if multiprogramming {
          lockType := MUTEX;
        } else {
          var total := queueTotal;
          if total >= RATIO_HIGH * SAMPLE_NUM {
            queueTotal := total / 8;
            numAcquired := NUM_ACQ_INIT;
            lockType := MCS;
          } else {
            queueTotal := 0;
            numAcquired := NUM_ACQ_INIT;
          }
        }
      }
      TicketAdapRuns(m, ticket, t, Memory());
    }

    /** glk_mcs_adap; `len` is what the walk over the queue counts. */
    method McsAdap(numAcq: nat, len: nat, ghost t: nat)
      requires Valid() && 1 <= len <= |queue|
      modifies this
      ensures Valid()
      ensures Memory() == McsAdapted(old(Memory()), numAcq, len)
      ensures McsChange(old(Memory()), numAcq, len, Memory())
      ensures Does(View(old(Memory()), McsAdapt(numAcq)), t, Lock, len, View(Memory(), Recheck(Lock, MCS, numAcq)))
    {
      hide McsChange, Does;
      ghost var m := Memory();
      if numAcq % SAMPLE_PERIOD == 0 {
        queueTotal := (queueTotal + len) % TWO32;
        var total := AsInt32(queueTotal);
        if numAcq % ADAPT_PERIOD == 0 {
          if multiprogramming {
            lockType := MUTEX;
          } else if total < RATIO_LOW * SAMPLE_NUM {
            queueTotal := 0;
            numAcquired := NUM_ACQ_INIT;
            lockType := TICKET;
          } else {
            queueTotal := total / 8;
            numAcquired := NUM_ACQ_INIT;
          }
        }
      }
      McsAdapRuns(m, numAcq, len, t, Memory());
      McsDecision(m, numAcq, len);
    }

    /** glk_mutex_adap */
    method MutexAdap(ghost t: nat)
      requires Valid()
      modifies this
      ensures Valid()
      ensures Memory() == MutexAdapted(old(Memory()))
      ensures MutexChange(old(Memory()), Memory())
      ensures Does(View(old(Memory()), MtxAdapt), t, Lock, 1, View(Memory(), Recheck(Lock, MUTEX, 0)))
    {
      ghost var m := Memory();
      if !multiprogramming {
        if lockType == MUTEX {
          queueTotal := 0;
          numAcquired := 0;
          lockType := TICKET;
        }
      }
      MutexAdapRuns(m, t, Memory());
    }

    /** unlock_lock */
    method UnlockLock(ty: LockType)
      requires Valid()
      modifies this
      ensures Valid()
      ensures Memory() == ReleaseLow(old(Memory()), ty)
    {
      match ty {
        case TICKET =>
          head := (head + 1) % TWO32;
          serving := serving + 1;
        case MCS => if queue != [] { queue := queue[1..]; }
        case MUTEX => locked := false;
      }
    }

    /** glk_unlock, called from the critical section entered with number `n`. */
    method Unlock(ghost ty: LockType, ghost n: nat, ghost t: nat)
      requires Valid()
      modifies this
      ensures Valid()
      ensures Memory() == ReleaseLow(old(Memory()), old(lockType))
      ensures Does(View(old(Memory()), Critical(ty, n)), t, Lock, 1, View(Memory(), Idle))
    {
      ghost var m := Memory();
      UnlockLock(lockType);
      Done(View(Memory(), Idle), t, Lock, 1);
      Then(View(m, Release(m.lockType, n, Finish)), t, Lock, 1, View(Memory(), Idle), View(Memory(), Idle));
      Then(View(m, Critical(ty, n)), t, Lock, 1, View(m, Release(m.lockType, n, Finish)), View(Memory(), Idle));
    }

    /** The trylock of one low-level lock; 0 is success. */
    method TryLow(ty: LockType, t: nat) returns (r: int, ghost n: nat)
      requires Valid()
      modifies this
      ensures Valid()
      ensures r == if LowFree(old(Memory()), ty) then 0 else 1
      ensures Memory() == if r == 0 then LowTaken(old(Memory()), ty, t) else old(Memory())
      ensures Does(View(old(Memory()), Chosen(TryLock, ty)), t, TryLock, 1,
                   View(Memory(), if r == 0 then Recheck(TryLock, ty, n) else Idle))
    {
      hide Does, StepThread;
      ghost var m := Memory();
      r, n := 1, 0;
      match ty {
        case TICKET =>
          var to := tail;
          if (head - to) % TWO32 == 1 {
            tail := (to + 1) % TWO32;
            issued := issued + 1;
            r, n := 0, issued;
          }
        case MCS =>
          if queue == [] {
            queue := [t];
            r := 0;
          }
        case MUTEX =>
          if !locked {
            locked := true;
            r := 0;
          }
      }
      TryLowRuns(m, ty, t, Memory(), r, n);
    }

    /** The end of a round of glk_lock and glk_trylock: keep the low-level lock `current` if
        lock_type still names it, else give it up and go for another round. */
    method CheckType(current: LockType, ghost op: Op, ghost n: nat, ghost t: nat) returns (again: bool)
      requires Valid()
      modifies this
      ensures Valid()
      ensures again <==> old(lockType) != current
      ensures Memory() == if again then ReleaseLow(old(Memory()), current) else old(Memory())
      ensures Does(View(old(Memory()), Recheck(op, current, n)), t, op, 1,
                   View(Memory(), if again then ReadType(op) else Critical(current, n)))
    {
      ghost var m := Memory();
      if lockType == current {
        again := false;
      } else {
        UnlockLock(current);
        again := true;
      }
      CheckRuns(m, current, op, n, t, Memory());
    }
  }

  // ----- the decisions, in numbers

  /** Every 4096th ticket, and no other, decides: with more runnable threads than processors
      for the mutex; else, with 96 or more threads counted waiting in its 32 samples, for the
      MCS lock. */
  predicate TicketChange(m: Mem, ticket: nat, m': Mem) {
    && m' == m.(lockType := m'.lockType, queueTotal := m'.queueTotal, numAcquired := m'.numAcquired)
    && (ticket % 4096 != 0 ==> m' == m)
    && (ticket % 4096 == 0 && m.multiprogramming ==> m' == m.(lockType := MUTEX))
    && (ticket % 4096 == 0 && !m.multiprogramming ==>
          && m'.numAcquired == 512
          && if m.queueTotal >= 96 then m'.lockType == MCS && m'.queueTotal == m.queueTotal / 8
             else m'.lockType == m.lockType && m'.queueTotal == 0)
  }

  /** Every 128th acquisition adds the length of the queue to queue_total; every 4096th
      decides: for the mutex as above; else, with fewer than 64 counted, for the ticket lock.
      The decision reads the 32-bit sum as signed. */
  predicate McsChange(m: Mem, numAcq: nat, len: nat, m': Mem) {
    var sum := (m.queueTotal + len) % 0x1_0000_0000;
    && m' == m.(lockType := m'.lockType, queueTotal := m'.queueTotal, numAcquired := m'.numAcquired)
    && (numAcq % 128 != 0 ==> m' == m)
    && (numAcq % 128 == 0 && numAcq % 4096 != 0 ==> m' == m.(queueTotal := sum))
    && (numAcq % 4096 == 0 && m.multiprogramming ==> m' == m.(lockType := MUTEX, queueTotal := sum))
    && (numAcq % 4096 == 0 && !m.multiprogramming ==>
          && m'.numAcquired == 512
          && if sum < 64 || sum >= 0x8000_0000 then m'.lockType == TICKET && m'.queueTotal == 0
             else m'.lockType == m.lockType && m'.queueTotal == sum / 8)
  }

  predicate MutexChange(m: Mem, m': Mem) {
    if m.lockType == MUTEX && !m.multiprogramming
    then m' == m.(lockType := TICKET, queueTotal := 0, numAcquired := 0)
    else m' == m
  }

  lemma McsDecision(m: Mem, n: nat, len: nat)
    ensures McsChange(m, n, len, McsAdapted(m, n, len))
  {
  }

  /** The machine, run alone from its adaptation point, makes the same decisions. */
  lemma McsDecides(m: Mem, n: nat, len: nat, t: nat)
    requires 1 <= len <= |m.queue|
    ensures exists m' ::
      McsChange(m, n, len, m') && Does(View(m, McsAdapt(n)), t, Lock, len, View(m', Recheck(Lock, MCS, n)))
  {
    hide Does;
    var m' := McsAdapted(m, n, len);
    McsAdapRuns(m, n, len, t, m');
    McsDecision(m, n, len);
  }

  lemma TicketDecides(m: Mem, n: nat, t: nat)
    ensures exists m' ::
      TicketChange(m, n, m') && Does(View(m, TktAdapt(n)), t, Lock, 1, View(m', Recheck(Lock, TICKET, n)))
  {
    hide Does;
    var m' := TicketAdapted(m, n);
    TicketAdapRuns(m, n, t, m');
    assert TicketChange(m, n, m');
  }

  lemma MutexDecides(m: Mem, t: nat)
    ensures exists m' :: MutexChange(m, m') && Does(View(m, MtxAdapt), t, Lock, 1, View(m', Recheck(Lock, MUTEX, 0)))
  {
    hide Does;
    var m' := MutexAdapted(m);
    MutexAdapRuns(m, t, m');
    assert MutexChange(m, m');
  }

  /** A thread that takes a ticket behind others adds the number of those before it to
      queue_total with every 128th ticket, and with no other. */
  lemma TicketSamples(m: Mem, t: nat)
    requires m.serving <= m.issued < m.serving + TWO31 - 1
    ensures var n := m.issued + 1;
      var sampled := if n % 128 == 0 then (m.queueTotal + (n - m.serving)) % 0x1_0000_0000 else m.queueTotal;
      Does(View(m, Chosen(Lock, TICKET)), t, Lock, 1, View(m.(issued := n, queueTotal := sampled), TktWait(n)))
  {
    hide Does;
    var n := m.issued + 1;
    var m1 := m.(issued := n);
    var ahead := n - m.serving;
    var w := View(m1.(queueTotal := if n % 128 == 0 then (m.queueTotal + ahead) % TWO32 else m.queueTotal), TktWait(n));
    Far(n, m.serving);
    Done(w, t, Lock, 1);
    if n % 128 == 0 {
      Then(View(m1, TktSample(n, ahead)), t, Lock, 1, w, w);
      Then(View(m1, TktDistance(n)), t, Lock, 1, View(m1, TktSample(n, ahead)), w);
    } else {
      Then(View(m1, TktDistance(n)), t, Lock, 1, w, w);
    }
    Then(View(m, Chosen(Lock, TICKET)), t, Lock, 1, View(m1, TktDistance(n)), w);
  }

  lemma Far(n: nat, serving: nat)
    requires serving < n < serving + TWO31
    ensures serving % TWO32 != n % TWO32 && AsInt32((n % TWO32 - serving % TWO32) % TWO32) == n - serving
  {
    var x := n % TWO32 - serving % TWO32;
    assert x % TWO32 == n - serving by {
      assert n == TWO32 * (n / TWO32) + n % TWO32 && serving == TWO32 * (serving / TWO32) + serving % TWO32;
    }
  }

  // ----- the machine's side

  lemma TicketAdapRuns(m: Mem, n: nat, t: nat, m': Mem)
    requires m' == TicketAdapted(m, n)
    ensures Does(View(m, TktAdapt(n)), t, Lock, 1, View(m', Recheck(Lock, TICKET, n)))
  {
    hide Does;
    var w := View(m', Recheck(Lock, TICKET, n));
    Done(w, t, Lock, 1);
    if n % ADAPT_PERIOD != 0 {
      Then(View(m, TktAdapt(n)), t, Lock, 1, w, w);
    } else if m.multiprogramming {
      Then(View(m, TktToMutex(n)), t, Lock, 1, w, w);
      Then(View(m, TktAdapt(n)), t, Lock, 1, View(m, TktToMutex(n)), w);
    } else {
      var toMcs := m.queueTotal >= RATIO_HIGH * SAMPLE_NUM;
      var total := if toMcs then m.queueTotal / 8 else 0;
      var m1 := m.(queueTotal := total);
      var m2 := m1.(numAcquired := NUM_ACQ_INIT);
      if toMcs {
        Then(View(m2, TktToMcs(n)), t, Lock, 1, w, w);
      }
      Then(View(m1, TktSetNum(n, toMcs)), t, Lock, 1, if toMcs then View(m2, TktToMcs(n)) else w, w);
      Then(View(m, TktSetTotal(n, total, toMcs)), t, Lock, 1, View(m1, TktSetNum(n, toMcs)), w);
      Then(View(m, TktReadTotal(n)), t, Lock, 1, View(m, TktSetTotal(n, total, toMcs)), w);
      Then(View(m, TktAdapt(n)), t, Lock, 1, View(m, TktReadTotal(n)), w);
    }
  }

  function TicketAdapted(m: Mem, n: nat): Mem {
    if n % ADAPT_PERIOD != 0 then m
    else if m.multiprogramming then m.(lockType := MUTEX)
    else if m.queueTotal >= RATIO_HIGH * SAMPLE_NUM then
      m.(queueTotal := m.queueTotal / 8, numAcquired := NUM_ACQ_INIT, lockType := MCS)
    else m.(queueTotal := 0, numAcquired := NUM_ACQ_INIT)
  }

  function McsAdapted(m: Mem, n: nat, len: nat): Mem {
    var total := (m.queueTotal + len) % TWO32;
    var m1 := m.(queueTotal := total);
    if n % SAMPLE_PERIOD != 0 then m
    else if n % ADAPT_PERIOD != 0 then m1
    else if m.multiprogramming then m1.(lockType := MUTEX)
    else if AsInt32(total) < RATIO_LOW * SAMPLE_NUM then
      m.(queueTotal := 0, numAcquired := NUM_ACQ_INIT, lockType := TICKET)
    else m.(queueTotal := AsInt32(total) / 8, numAcquired := NUM_ACQ_INIT)
  }

  lemma McsAdapRuns(m: Mem, n: nat, len: nat, t: nat, m': Mem)
    requires m' == McsAdapted(m, n, len) && 1 <= len <= |m.queue|
    ensures Does(View(m, McsAdapt(n)), t, Lock, len, View(m', Recheck(Lock, MCS, n)))
  {
    hide Does;
    var w := View(m', Recheck(Lock, MCS, n));
    Done(w, t, Lock, len);
    var total := (m.queueTotal + len) % TWO32;
    var count := AsInt32(total);
    hide AsInt32;
    var m1 := m.(queueTotal := total);
    if n % SAMPLE_PERIOD != 0 {
      Then(View(m, McsAdapt(n)), t, Lock, len, w, w);
    } else if n % ADAPT_PERIOD != 0 {
      Then(View(m, McsAdapt(n)), t, Lock, len, w, w);
    } else {
      if m.multiprogramming {
        Then(View(m1, McsToMutex(n)), t, Lock, len, w, w);
        Then(View(m1, McsDecide(n, count)), t, Lock, len, View(m1, McsToMutex(n)), w);
      } else {
        var toTicket := count < RATIO_LOW * SAMPLE_NUM;
        var less := if toTicket then 0 else count / 8;
        var m2 := m1.(queueTotal := less);
        var m3 := m2.(numAcquired := NUM_ACQ_INIT);
        if toTicket {
          Then(View(m3, McsToTicket(n)), t, Lock, len, w, w);
        }
        Then(View(m2, McsSetNum(n, toTicket)), t, Lock, len, if toTicket then View(m3, McsToTicket(n)) else w, w);
        Then(View(m1, McsSetTotal(n, less, toTicket)), t, Lock, len, View(m2, McsSetNum(n, toTicket)), w);
        Then(View(m1, McsDecide(n, count)), t, Lock, len, View(m1, McsSetTotal(n, less, toTicket)), w);
      }
      Then(View(m, McsAdapt(n)), t, Lock, len, View(m1, McsDecide(n, count)), w);
    }
  }

  function MutexAdapted(m: Mem): Mem {
    if !m.multiprogramming && m.lockType == MUTEX
    then m.(queueTotal := 0, numAcquired := 0, lockType := TICKET) else m
  }

  lemma MutexAdapRuns(m: Mem, t: nat, m': Mem)
    requires m' == MutexAdapted(m)
    ensures Does(View(m, MtxAdapt), t, Lock, 1, View(m', Recheck(Lock, MUTEX, 0)))
  {
    hide Does, StepTicket, StepMcs, StepAcquire, AsInt32;
    var w := View(m', Recheck(Lock, MUTEX, 0));
    Done(w, t, Lock, 1);
    if m.multiprogramming {
      Then(View(m, MtxAdapt), t, Lock, 1, w, w);
    } else {
      if m.lockType == MUTEX {
        var m1 := m.(queueTotal := 0);
        var m2 := m1.(numAcquired := 0);
        Then(View(m2, MtxToTicket), t, Lock, 1, w, w);
        Then(View(m1, MtxSetNum), t, Lock, 1, View(m2, MtxToTicket), w);
        Then(View(m, MtxSetTotal), t, Lock, 1, View(m1, MtxSetNum), w);
        Then(View(m, MtxTest), t, Lock, 1, View(m, MtxSetTotal), w);
      } else {
        Then(View(m, MtxTest), t, Lock, 1, w, w);
      }
      Then(View(m, MtxAdapt), t, Lock, 1, View(m, MtxTest), w);
    }
  }

  /** Whether the trylock of one low-level lock succeeds, and what it leaves. */
  predicate LowFree(m: Mem, ty: LockType) {
    match ty
    case TICKET => (Head(m) - Tail(m)) % TWO32 == 1
    case MCS => m.queue == []
    case MUTEX => !m.locked
  }

  function LowTaken(m: Mem, ty: LockType, t: nat): Mem {
    match ty
    case TICKET => m.(issued := m.issued + 1)
    case MCS => m.(queue := [t])
    case MUTEX => m.(locked := true)
  }

  lemma TryLowRuns(m: Mem, ty: LockType, t: nat, m': Mem, r: int, n: nat)
    requires r == if LowFree(m, ty) then 0 else 1
    requires m' == if r == 0 then LowTaken(m, ty, t) else m
    requires n == if r == 0 && ty == TICKET then m.issued + 1 else 0
    ensures Does(View(m, Chosen(TryLock, ty)), t, TryLock, 1,
                 View(m', if r == 0 then Recheck(TryLock, ty, n) else Idle))
  {
    hide Does;
    var w := View(m', if r == 0 then Recheck(TryLock, ty, n) else Idle);
    Done(w, t, TryLock, 1);
    match ty
    case TICKET =>
      if r == 0 { Then(View(m, TryCas(m.issued)), t, TryLock, 1, w, w); }
      Then(View(m, TryHead(m.issued)), t, TryLock, 1, if r == 0 then View(m, TryCas(m.issued)) else w, w);
      Then(View(m, Chosen(TryLock, TICKET)), t, TryLock, 1, View(m, TryHead(m.issued)), w);
    case MCS =>
      if r == 0 { Then(View(m, TryEnqueue), t, TryLock, 1, w, w); }
      Then(View(m, Chosen(TryLock, MCS)), t, TryLock, 1, if r == 0 then View(m, TryEnqueue) else w, w);
    case MUTEX => Then(View(m, Chosen(TryLock, MUTEX)), t, TryLock, 1, w, w);
  }

  lemma CheckRuns(m: Mem, ty: LockType, op: Op, n: nat, t: nat, m': Mem)
    requires m' == if m.lockType == ty then m else ReleaseLow(m, ty)
    ensures Does(View(m, Recheck(op, ty, n)), t, op, 1,
                 View(m', if m.lockType == ty then Critical(ty, n) else ReadType(op)))
  {
    hide Does;
    var w := View(m', if m.lockType == ty then Critical(ty, n) else ReadType(op));
    Done(w, t, op, 1);
    if m.lockType == ty {
      Then(View(m, Recheck(op, ty, n)), t, op, 1, w, w);
    } else {
      Then(View(m, Release(ty, n, Retry(op))), t, op, 1, w, w);
      Then(View(m, Recheck(op, ty, n)), t, op, 1, View(m, Release(ty, n, Retry(op))), w);
    }
  }
}
