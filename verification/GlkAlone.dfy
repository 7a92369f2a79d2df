/** What a call to the adaptive lock comes to when no other thread moves meanwhile: trylock
    returns in any case, and lock enters as soon as nobody is in one of the low-level locks,
    after adapting the lock type at most twice. */
module GlkAlone {
  import opened Sums
  import opened Glk
  import opened GlkSafety
  import opened GlkProgress
  import opened GlkCode

  /** Holds the low-level lock `ty` or waits for it. */
  predicate InLow(pc: Pc, ty: LockType) {
    match ty
    case TICKET => HasTicket(pc)
    case MCS => InMcs(pc)
    case MUTEX => HasMutex(pc)
  }

  predicate NobodyIn(th: seq<Pc>, ty: LockType) {
    forall t :: 0 <= t < |th| ==> !InLow(th[t], ty)
  }

  predicate NobodyInside(th: seq<Pc>) {
    NobodyIn(th, TICKET) && NobodyIn(th, MCS) && NobodyIn(th, MUTEX)
  }

  /** What the test of a low-level trylock says about the threads. */
  lemma FreeIffNobody(s: State, ty: LockType)
    requires Inv(s) && Owned(s)
    ensures LowFree(s.m, ty) <==> NobodyIn(s.th, ty)
  {
    hide TypeInv, PeriodInv;
    match ty
    case TICKET =>
      TicketsBounded(s);
      HeadTail(s.m);
      if NobodyIn(s.th, TICKET) {
        SumZero(Tickets(s.th));
      } else {
        var t :| 0 <= t < |s.th| && InLow(s.th[t], TICKET);
        assert TicketOk(s.m, s.th[t]);
      }
    case MCS =>
      if s.m.queue != [] { assert InLow(s.th[s.m.queue[0]], MCS); }
    case MUTEX =>
      if s.m.locked {
        assert MutexHeld(s);
        var t :| 0 <= t < |s.th| && HasMutex(s.th[t]);
        assert InLow(s.th[t], MUTEX);
      }
  }

  lemma HeadTail(m: Mem)
    requires m.serving <= m.issued + 1 <= m.serving + MAX_THREADS
    ensures (Head(m) - Tail(m)) % TWO32 == 1 <==> m.serving == m.issued + 1
  {
    DifferenceOne(m.serving, m.issued);
  }

  // ----- a call that nobody disturbs

  /** The call has returned. */
  predicate Returned(pc: Pc) {
    pc.Idle? || pc.Critical?
  }

  /** At most `k` steps of thread `t` alone, until its call returns. */
  function Call(s: State, t: nat, op: Op, k: nat): State
    decreases k
  {
    if k == 0 || t >= |s.th| || Returned(s.th[t]) then s else Call(Step(s, Move(t, op, 1)), t, op, k - 1)
  }

  /** One step, not a release, in front of others. */
  lemma Ahead(s: State, t: nat, op: Op, k: nat, v: View, w: View)
    requires t < |s.th| && k > 0 && !v.pc.Release? && !Returned(v.pc) && StepThread(v.m, t, v.pc, op, 1) == w
    ensures Call(After(s, t, v), t, op, k) == Call(After(s, t, w), t, op, k - 1)
  {
    hide StepThread;
    assert After(After(s, t, v), t, w) == After(s, t, w);
  }

  lemma Over(s: State, t: nat, op: Op, k: nat)
    requires t < |s.th| && Returned(s.th[t])
    ensures Call(s, t, op, k) == s
  {
  }

  lemma TryBegins(s: State, t: nat, k: nat)
    requires t < |s.th| && s.th[t].Idle? && k >= 1
    ensures Call(Step(s, Move(t, TryLock, 1)), t, TryLock, k) ==
      Call(After(s, t, View(s.m, Chosen(TryLock, s.m.lockType))), t, TryLock, k - 1)
  {
    hide Call, StepTicket, StepMcs, StepMutex, StepAcquire;
    assert Step(s, Move(t, TryLock, 1)) == After(s, t, View(s.m, ReadType(TryLock)));
    Ahead(s, t, TryLock, k, View(s.m, ReadType(TryLock)), View(s.m, Chosen(TryLock, s.m.lockType)));
  }

  lemma TrySucceeds(s: State, t: nat, k: nat) returns (n: nat)
    requires t < |s.th| && s.th[t].Idle? && LowFree(s.m, s.m.lockType) && k >= 5
    ensures var ty := s.m.lockType;
      Call(Step(s, Move(t, TryLock, 1)), t, TryLock, k) == After(s, t, View(LowTaken(s.m, ty, t), Critical(ty, n)))
  {
    hide Call, StepTicket, StepMcs, StepMutex;
    var m, ty := s.m, s.m.lockType;
    var m' := LowTaken(m, ty, t);
    n := if ty == TICKET then m.issued + 1 else 0;
    TryBegins(s, t, k);
    var j := k - match ty case TICKET => 4 case MCS => 3 case MUTEX => 2;
    match ty {
      case TICKET =>
        Ahead(s, t, TryLock, k - 1, View(m, Chosen(TryLock, TICKET)), View(m, TryHead(m.issued)));
        Ahead(s, t, TryLock, k - 2, View(m, TryHead(m.issued)), View(m, TryCas(m.issued)));
        Ahead(s, t, TryLock, k - 3, View(m, TryCas(m.issued)), View(m', Recheck(TryLock, ty, n)));
      case MCS =>
        Ahead(s, t, TryLock, k - 1, View(m, Chosen(TryLock, MCS)), View(m, TryEnqueue));
        Ahead(s, t, TryLock, k - 2, View(m, TryEnqueue), View(m', Recheck(TryLock, ty, n)));
      case MUTEX =>
        Ahead(s, t, TryLock, k - 1, View(m, Chosen(TryLock, MUTEX)), View(m', Recheck(TryLock, ty, n)));
    }
    Ahead(s, t, TryLock, j, View(m', Recheck(TryLock, ty, n)), View(m', Critical(ty, n)));
    Over(After(s, t, View(m', Critical(ty, n))), t, TryLock, j - 1);
  }

  lemma TryFails(s: State, t: nat, k: nat)
    requires t < |s.th| && s.th[t].Idle? && !LowFree(s.m, s.m.lockType) && k >= 5
    ensures Call(Step(s, Move(t, TryLock, 1)), t, TryLock, k) == s
  {
    hide Call, StepTicket, StepMcs, StepMutex;
    var m := s.m;
    TryBegins(s, t, k);
    if m.lockType == TICKET {
      Ahead(s, t, TryLock, k - 1, View(m, Chosen(TryLock, TICKET)), View(m, TryHead(m.issued)));
      Ahead(s, t, TryLock, k - 2, View(m, TryHead(m.issued)), View(m, Idle));
    } else {
      Ahead(s, t, TryLock, k - 1, View(m, Chosen(TryLock, m.lockType)), View(m, Idle));
    }
    assert After(s, t, View(m, Idle)) == s;
    Over(s, t, TryLock, if m.lockType == TICKET then k - 3 else k - 2);
  }

  /** What a whole trylock comes to. */
  ghost predicate TryEnds(s: State, t: nat, s': State)
    requires t < |s.th|
  {
    if NobodyIn(s.th, s.m.lockType)
    then |s'.th| == |s.th| && s'.th[t].Critical? && forall u :: 0 <= u < |s.th| && u != t ==> s'.th[u] == s.th[u]
    else s' == s
  }

  lemma TryAlone(s: State, t: nat, k: nat)
    requires Inv(s) && Owned(s) && t < |s.th| && s.th[t].Idle? && k >= 5
    ensures TryEnds(s, t, Call(Step(s, Move(t, TryLock, 1)), t, TryLock, k))
  {
    hide Inv, Owned, Call, NobodyIn, LowFree, Step;
    FreeIffNobody(s, s.m.lockType);
    if LowFree(s.m, s.m.lockType) { var number := TrySucceeds(s, t, k); } else { TryFails(s, t, k); }
  }

  /** glk_trylock without interruption returns after at most six steps. It enters exactly if
      nobody is in the low-level lock that lock_type names; otherwise it leaves no trace. */
  lemma TryLockAlone(n: nat, mp: bool, sched: seq<Event>, t: nat)
    requires n <= MAX_THREADS && TimelyRun(Init(n, mp), sched)
    requires var s := Run(Init(n, mp), sched); t < |s.th| && s.th[t].Idle?
    ensures var s := Run(Init(n, mp), sched);
      TryEnds(s, t, Call(Step(s, Move(t, TryLock, 1)), t, TryLock, 5))
  {
    hide Run, Inv, Owned, Call, TryEnds, TimelyRun;
    ReachableOwned(n, mp, sched);
    TryAlone(Run(Init(n, mp), sched), t, 5);
  }

  // ----- lock on a free lock

  /** Nobody is in any of the three low-level locks. */
  predicate Clear(m: Mem) {
    m.serving == m.issued + 1 && m.queue == [] && !m.locked
  }

  lemma {:induction false} AloneAdd(v: View, t: nat, op: Op, j: nat, k: nat)
    ensures Alone(v, t, op, 1, {}, j + k) == Alone(Alone(v, t, op, 1, {}, j), t, op, 1, {}, k)
    decreases j
  {
    hide StepThread;
    if j > 0 {
      var w := if Blocked(v.m, v.pc, {}) then v else StepThread(v.m, t, v.pc, op, 1);
      AloneAdd(w, t, op, j - 1, k);
      assert Alone(v, t, op, 1, {}, j + k) == Alone(w, t, op, 1, {}, j - 1 + k);
    }
  }

  lemma DoesTrans(v: View, t: nat, op: Op, w: View, x: View)
    requires Does(v, t, op, 1, w) && Does(w, t, op, 1, x)
    ensures Does(v, t, op, 1, x)
  {
    var j: nat :| Alone(v, t, op, 1, {}, j) == w;
    var k: nat :| Alone(w, t, op, 1, {}, k) == x;
    AloneAdd(v, t, op, j, k);
  }

  ghost predicate Enters(m: Mem, t: nat) {
    exists m', ty, n :: Does(View(m, ReadType(Lock)), t, Lock, 1, View(m', Critical(ty, n)))
  }

  /** From the lock's recheck: in, or out again for another round. */
  lemma Rechecks(m: Mem, t: nat, m': Mem, ty: LockType, n: nat)
    requires Does(View(m, ReadType(Lock)), t, Lock, 1, View(m', Recheck(Lock, ty, n)))
    ensures m'.lockType == ty ==> Enters(m, t)
    ensures m'.lockType != ty ==> Does(View(m, ReadType(Lock)), t, Lock, 1, View(ReleaseLow(m', ty), ReadType(Lock)))
  {
    hide Does, ReleaseLow;
    var m'' := if m'.lockType == ty then m' else ReleaseLow(m', ty);
    CheckRuns(m', ty, Lock, n, t, m'');
    var w := View(m'', if m'.lockType == ty then Critical(ty, n) else ReadType(Lock));
    DoesTrans(View(m, ReadType(Lock)), t, Lock, View(m', Recheck(Lock, ty, n)), w);
  }

  lemma TicketRound(m: Mem, t: nat)
    requires Clear(m) && m.lockType == TICKET
    ensures var n := m.issued + 1;
      Does(View(m, ReadType(Lock)), t, Lock, 1, View(TicketAdapted(m.(issued := n), n), Recheck(Lock, TICKET, n)))
  {
    hide Does, TicketAdapted, AsInt32;
    var n := m.issued + 1;
    var m1 := m.(issued := n);
    var w := View(TicketAdapted(m1, n), Recheck(Lock, TICKET, n));
    TicketAdapRuns(m1, n, t, TicketAdapted(m1, n));
    Then(View(m1, TktDistance(n)), t, Lock, 1, View(m1, TktAdapt(n)), w);
    Then(View(m, Chosen(Lock, TICKET)), t, Lock, 1, View(m1, TktDistance(n)), w);
    Then(View(m, ReadType(Lock)), t, Lock, 1, View(m, Chosen(Lock, TICKET)), w);
  }

  lemma McsRound(m: Mem, t: nat)
    requires Clear(m) && m.lockType == MCS
    ensures var n := m.numAcquired + 1;
      var m1 := m.(queue := [t], numAcquired := n);
      Does(View(m, ReadType(Lock)), t, Lock, 1, View(McsAdapted(m1, n, 1), Recheck(Lock, MCS, n)))
  {
    hide Does, McsAdapted, AsInt32;
    var n := m.numAcquired + 1;
    var m0 := m.(queue := [t]);
    var m1 := m0.(numAcquired := n);
    var w := View(McsAdapted(m1, n, 1), Recheck(Lock, MCS, n));
    McsAdapRuns(m1, n, 1, t, McsAdapted(m1, n, 1));
    Then(View(m1, McsWait(n)), t, Lock, 1, View(m1, McsAdapt(n)), w);
    Then(View(m0, McsCount), t, Lock, 1, View(m1, McsWait(n)), w);
    Then(View(m, Chosen(Lock, MCS)), t, Lock, 1, View(m0, McsCount), w);
    Then(View(m, ReadType(Lock)), t, Lock, 1, View(m, Chosen(Lock, MCS)), w);
  }

  lemma MutexRound(m: Mem, t: nat)
    requires Clear(m) && m.lockType == MUTEX
    ensures Does(View(m, ReadType(Lock)), t, Lock, 1,
                 View(MutexAdapted(m.(locked := true)), Recheck(Lock, MUTEX, 0)))
  {
    hide Does, MutexAdapted;
    var m1 := m.(locked := true);
    var w := View(MutexAdapted(m1), Recheck(Lock, MUTEX, 0));
    MutexAdapRuns(m1, t, MutexAdapted(m1));
    Then(View(m, Chosen(Lock, MUTEX)), t, Lock, 1, View(m1, MtxAdapt), w);
    Then(View(m, ReadType(Lock)), t, Lock, 1, View(m, Chosen(Lock, MUTEX)), w);
  }

  /** The round that follows a change of lock_type by the thread itself makes no other change. */
  predicate Settled(m: Mem) {
    && Clear(m)
    && match m.lockType
       case TICKET => !m.multiprogramming && m.queueTotal == 0
       case MCS => !m.multiprogramming && m.numAcquired == NUM_ACQ_INIT
       case MUTEX => m.multiprogramming
  }

  lemma SettledEnters(m: Mem, t: nat)
    requires Settled(m)
    ensures Enters(m, t)
  {
    hide Enters, Does;
    match m.lockType
    case TICKET =>
      var n := m.issued + 1;
      TicketRound(m, t);
      Rechecks(m, t, TicketAdapted(m.(issued := n), n), TICKET, n);
    case MCS =>
      var n := m.numAcquired + 1;
      McsRound(m, t);
      Rechecks(m, t, McsAdapted(m.(queue := [t], numAcquired := n), n, 1), MCS, n);
    case MUTEX =>
      MutexRound(m, t);
      Rechecks(m, t, MutexAdapted(m.(locked := true)), MUTEX, 0);
  }

  /** A first round enters, or leaves for a second one that will. */
  lemma FirstRound(m: Mem, t: nat) returns (m': Mem)
    requires Clear(m)
    ensures Enters(m, t) || (Settled(m') && Does(View(m, ReadType(Lock)), t, Lock, 1, View(m', ReadType(Lock))))
  {
    hide Enters, Does;
    match m.lockType
    case TICKET =>
      var n := m.issued + 1;
      var m1 := TicketAdapted(m.(issued := n), n);
      TicketRound(m, t);
      Rechecks(m, t, m1, TICKET, n);
      m' := ReleaseLow(m1, TICKET);
    case MCS =>
      var n := m.numAcquired + 1;
      var m1 := McsAdapted(m.(queue := [t], numAcquired := n), n, 1);
      McsRound(m, t);
      Rechecks(m, t, m1, MCS, n);
      m' := ReleaseLow(m1, MCS);
    case MUTEX =>
      var m1 := MutexAdapted(m.(locked := true));
      MutexRound(m, t);
      Rechecks(m, t, m1, MUTEX, 0);
      m' := ReleaseLow(m1, MUTEX);
  }

  lemma ClearEnters(m: Mem, t: nat)
    requires Clear(m)
    ensures Enters(m, t)
  {
    hide Settled, Does;
    var m' := FirstRound(m, t);
    if !Enters(m, t) {
      SettledEnters(m', t);
      var m2, ty, n :| Does(View(m', ReadType(Lock)), t, Lock, 1, View(m2, Critical(ty, n)));
      DoesTrans(View(m, ReadType(Lock)), t, Lock, View(m', ReadType(Lock)), View(m2, Critical(ty, n)));
    }
  }

  /** On the way from reading lock_type to the critical section. */
  predicate OnLock(pc: Pc) {
    && !Returned(pc) && !pc.TryHead? && !pc.TryCas? && !pc.TryEnqueue?
    && (pc.ReadType? || pc.Chosen? || pc.Recheck? ==> pc.op == Lock)
    && (pc.Release? ==> pc.next == Retry(Lock))
  }

  lemma OnLockStays(m: Mem, t: nat, pc: Pc)
    requires OnLock(pc)
    ensures var pc' := StepThread(m, t, pc, Lock, 1).pc; OnLock(pc') || pc'.Critical?
  {
    hide AsInt32, ReleaseLow;
  }

  /** While no other thread is between its swap and its link, a thread alone in the machine does
      what a thread by itself does. */
  lemma {:induction false} Lift(s: State, t: nat, v: View, k: nat)
    requires t < |s.th| && forall u :: 0 <= u < |s.th| && u != t ==> !s.th[u].McsCount?
    requires OnLock(v.pc) && Alone(v, t, Lock, 1, {}, k).pc.Critical?
    ensures exists m', ty, n :: Call(After(s, t, v), t, Lock, k) == After(s, t, View(m', Critical(ty, n)))
    decreases k
  {
    hide StepThread, OnLock;
    assert k > 0 by { assert Alone(v, t, Lock, 1, {}, 0) == v; Under(v.pc); }
    Under(v.pc);
    var w := StepThread(v.m, t, v.pc, Lock, 1);
    var s1 := After(s, t, v);
    assert !Blocked(v.m, v.pc, {}) && !AwaitsLink(s1.m, s1.th[t], s1.th);
    assert Step(s1, Move(t, Lock, 1)) == After(s, t, w);
    OnLockStays(v.m, t, v.pc);
    if w.pc.Critical? {
      Over(After(s, t, w), t, Lock, k - 1);
      assert Call(s1, t, Lock, k) == After(s, t, View(w.m, Critical(w.pc.ty, w.pc.n)));
    } else {
      Lift(s, t, w, k - 1);
    }
  }

  lemma Under(pc: Pc)
    requires OnLock(pc)
    ensures !Returned(pc)
  {
  }

  lemma IdleEnters(s: State, t: nat) returns (k: nat)
    requires Inv(s) && Owned(s) && t < |s.th| && s.th[t].Idle? && NobodyInside(s.th)
    ensures exists m', ty, n ::
      Call(Step(s, Move(t, Lock, 1)), t, Lock, k) == After(s, t, View(m', Critical(ty, n)))
  {
    hide Owned, Does, Call, TypeInv, PeriodInv, StepTicket, StepMcs, StepMutex, StepAcquire;
    FreeIffNobody(s, TICKET);
    FreeIffNobody(s, MCS);
    FreeIffNobody(s, MUTEX);
    TicketsBounded(s);
    HeadTail(s.m);
    forall u | 0 <= u < |s.th|
      ensures !s.th[u].McsCount?
    {
      assert !InLow(s.th[u], MCS);
    }
    hide Inv, NobodyIn;
    ClearEnters(s.m, t);
    var m', ty, n :| Does(View(s.m, ReadType(Lock)), t, Lock, 1, View(m', Critical(ty, n)));
    k := Steps(View(s.m, ReadType(Lock)), t, View(m', Critical(ty, n)));
    Lift(s, t, View(s.m, ReadType(Lock)), k);
    assert After(s, t, View(s.m, ReadType(Lock))) == Step(s, Move(t, Lock, 1));
  }

  lemma Steps(v: View, t: nat, w: View) returns (k: nat)
    requires Does(v, t, Lock, 1, w)
    ensures Alone(v, t, Lock, 1, {}, k) == w
  {
    k :| Alone(v, t, Lock, 1, {}, k) == w;
  }

  /** glk_lock on a free lock enters by itself, whatever it adapts on the way. */
  lemma LockAlone(n: nat, mp: bool, sched: seq<Event>, t: nat) returns (k: nat)
    requires n <= MAX_THREADS && TimelyRun(Init(n, mp), sched)
    requires var s := Run(Init(n, mp), sched); t < |s.th| && s.th[t].Idle? && NobodyInside(s.th)
    ensures var s := Run(Init(n, mp), sched);
      var s' := Call(Step(s, Move(t, Lock, 1)), t, Lock, k);
      && |s'.th| == |s.th| && s'.th[t].Critical? && forall u :: 0 <= u < |s.th| && u != t ==> s'.th[u] == s.th[u]
  {
    hide Run, Inv, Owned, Call, TimelyRun, NobodyInside;
    ReachableOwned(n, mp, sched);
    k := IdleEnters(Run(Init(n, mp), sched), t);
    hide Step;
  }

  /** glk_unlock takes two steps, unless the next thread in the MCS queue has yet to link itself. */
  lemma UnlockAlone(n: nat, mp: bool, sched: seq<Event>, t: nat, op: Op)
    requires n <= MAX_THREADS && TimelyRun(Init(n, mp), sched)
    requires var s := Run(Init(n, mp), sched); t < |s.th| && s.th[t].Critical?
    ensures var s := Run(Init(n, mp), sched);
      var s1 := Step(s, Move(t, op, 1));
      && HoldsLow(s.m, t, s.th[t], s.m.lockType)
      && |s1.th| == |s.th| && s1.th[t] == Release(s.m.lockType, s.th[t].n, Finish) && s1.m == s.m
      && (!AwaitsLink(s1.m, s1.th[t], s1.th) ==>
            Step(s1, Move(t, op, 1)) == State(ReleaseLow(s.m, s.m.lockType), s.th[t := Idle]))
  {
    hide Run, TimelyRun, HoldsLow, ReleaseLow;
    Reachable(n, mp, sched);
    UnlockReleasesHeldLock(n, mp, sched, t);
    var s := Run(Init(n, mp), sched);
    hide Inv, AwaitsLink;
    assert !AwaitsLink(s.m, s.th[t], s.th) by { NotReleasing(s, t); }
    assert s.th[t := Release(s.m.lockType, s.th[t].n, Finish)][t := Idle] == s.th[t := Idle];
  }

  lemma NotReleasing(s: State, t: nat)
    requires t < |s.th| && !s.th[t].Release?
    ensures !AwaitsLink(s.m, s.th[t], s.th)
  {
  }
}
