/** The window of trylock is exact: when 2^32 tickets are issued between its read of tail
    and its compare-and-swap, two threads get into the critical section, and two threads
    are enough. */
module GlkTrylock {
  import opened Glk
  import opened GlkSafety
  import opened GlkOverflow

  /** Thread 0 is about to compare and swap tail, which it has read as 0; thread 1 has had
      the lock `k` times since. */
  predicate Overtaken(s: State, k: nat) {
    && |s.th| >= 2 && !s.m.multiprogramming
    && s.m == Mem(TICKET, k + 1, k, [], false, s.m.numAcquired, 0, false)
    && (forall i :: 0 <= i < |s.th| ==> s.th[i] == if i == 0 then TryCas(0) else Idle)
  }

  /** A round whose ticket is a multiple of the period: with nobody waiting, the lock stays
      a ticket lock. */
  lemma AdaptingRound(m: Mem, t: nat, late: set<nat>)
    requires m.lockType == TICKET && m.serving == m.issued + 1 && (m.issued + 1) % ADAPT_PERIOD == 0
    requires m.queueTotal == 0 && !m.multiprogramming
    ensures Solo(View(m, Idle), t, late, 9) ==
      View(m.(issued := m.issued + 1, numAcquired := NUM_ACQ_INIT), Critical(TICKET, m.issued + 1))
  {
    hide Solo, StepMcs, StepMutex, AsInt32;
    var n := m.issued + 1;
    var m1 := m.(issued := n);
    var m2 := m1.(numAcquired := NUM_ACQ_INIT);
    First(View(m, Idle), t, 9, View(m, ReadType(Lock)), late);
    First(View(m, ReadType(Lock)), t, 8, View(m, Chosen(Lock, TICKET)), late);
    First(View(m, Chosen(Lock, TICKET)), t, 7, View(m1, TktDistance(n)), late);
    First(View(m1, TktDistance(n)), t, 6, View(m1, TktAdapt(n)), late);
    First(View(m1, TktAdapt(n)), t, 5, View(m1, TktReadTotal(n)), late);
    First(View(m1, TktReadTotal(n)), t, 4, View(m1, TktSetTotal(n, 0, false)), late);
    First(View(m1, TktSetTotal(n, 0, false)), t, 3, View(m1, TktSetNum(n, false)), late);
    First(View(m1, TktSetNum(n, false)), t, 2, View(m2, Recheck(Lock, TICKET, n)), late);
    First(View(m2, Recheck(Lock, TICKET, n)), t, 1, View(m2, Critical(TICKET, n)), late);
    NoStep(View(m2, Critical(TICKET, n)), t, late);
  }

  lemma OnceMore(s: State, k: nat, v: View)
    requires Overtaken(s, k) && v.pc == Idle
    requires v.m == s.m.(serving := k + 2, issued := k + 1, numAcquired := v.m.numAcquired)
    ensures Overtaken(After(s, 1, v), k + 1)
  {
  }

  lemma OvertakeOnce(s0: State, s: State, k: nat) returns (s': State)
    requires Reaches(s0, s) && Overtaken(s, k)
    ensures Reaches(s0, s') && Overtaken(s', k + 1)
  {
    var m := s.m;
    assert s.th[1] == Idle && |s.th| >= 2;
    if (k + 1) % ADAPT_PERIOD == 0 {
      AdaptingRound(m, 1, Late(s, 1));
      var m1 := m.(issued := k + 1, numAcquired := NUM_ACQ_INIT);
      var w := View(m1.(serving := k + 2), Idle);
      LeaveTicket(m1, 1, k + 1, Late(s, 1));
      AloneAdd(View(m, Idle), 1, 9, 2, Late(s, 1));
      OnceMore(s, k, w);
      hide Solo, Reaches, Overtaken;
      s' := Extend(s0, s, 1, 11, w);
    } else {
      TicketRound(m, 1, Late(s, 1));
      var w := View(m.(serving := k + 2, issued := k + 1), Idle);
      OnceMore(s, k, w);
      hide Solo, Reaches, Overtaken;
      s' := Extend(s0, s, 1, 8, w);
    }
  }

  lemma Overtake(s0: State, s: State, k: nat) returns (s': State)
    requires Reaches(s0, s) && Overtaken(s, k) && k < TWO32
    ensures Reaches(s0, s') && Overtaken(s', TWO32 - 1)
    decreases TWO32 - k
  {
    hide Reaches, Overtaken;
    if k == TWO32 - 1 {
      s' := s;
    } else {
      s' := OvertakeOnce(s0, s, k);
      s' := Overtake(s0, s', k + 1);
    }
  }

  const E := Move(0, TryLock, 1)

  /** Thread 0 reads tail and finds the lock free. */
  lemma Begin(n: nat) returns (s: State)
    requires n >= 2
    ensures s == Run(Init(n, false), [E, E, E, E]) && Overtaken(s, 0)
  {
    var s0 := Init(n, false);
    RunFour(s0, E);
    s := Step(Step(Step(Step(s0, E), E), E), E);
  }

  /** Thread 0 swaps although thread 1 is inside. */
  lemma Break(s: State, m: Mem)
    requires Overtaken(s, TWO32 - 1) && m == s.m.(issued := TWO32, numAcquired := NUM_ACQ_INIT)
    ensures !Exclusive(Step(Step(After(s, 1, View(m, Critical(TICKET, TWO32))), E), E))
  {
    var s2 := Step(Step(After(s, 1, View(m, Critical(TICKET, TWO32))), E), E);
    assert s2.th[0].Critical? && s2.th[1].Critical?;
  }

  lemma Window(n: nat) returns (sched: seq<Event>)
    requires n >= 2
    ensures !Exclusive(Run(Init(n, false), sched))
  {
    var s4 := Begin(n);
    ReachesSelf(s4);
    var s := Overtake(s4, s4, 0);
    var m := s.m.(issued := TWO32, numAcquired := NUM_ACQ_INIT);
    assert s.th[1] == Idle && |s.th| >= 2;
    AdaptingRound(s.m, 1, Late(s, 1));
    Break(s, m);
    hide Solo, Overtaken, Exclusive, Step;
    s := Extend(s4, s, 1, 9, View(m, Critical(TICKET, TWO32)));
    var middle :| LockOnly(middle) && Run(s4, middle) == s;
    RunConcat(Init(n, false), [E, E, E, E], middle);
    RunTwo(Init(n, false), [E, E, E, E] + middle, E);
    sched := [E, E, E, E] + middle + [E, E];
  }

  lemma RunFour(s: State, e: Event)
    ensures Run(s, [e, e, e, e]) == Step(Step(Step(Step(s, e), e), e), e)
  {
    assert Run(s, []) == s;
    RunTwo(s, [], e);
    assert [] + [e, e] == [e, e];
    RunTwo(s, [e, e], e);
    assert [e, e] + [e, e] == [e, e, e, e];
  }

  lemma RunTwo(s: State, sched: seq<Event>, e: Event)
    ensures Run(s, sched + [e, e]) == Step(Step(Run(s, sched), e), e)
  {
    assert (sched + [e, e])[..|sched| + 1] == sched + [e];
    assert (sched + [e])[..|sched|] == sched;
    assert Run(s, sched + [e]) == Step(Run(s, sched), e);
  }

  /** Without the bound on trylock's window, only a lock that one thread uses is exclusive. */
  lemma UntimelyExclusiveIff(n: nat)
    ensures (forall mp, sched :: Exclusive(Run(Init(n, mp), sched))) <==> n <= 1
  {
    if n <= 1 {
      forall mp, sched
        ensures Exclusive(Run(Init(n, mp), sched))
      {
        ThreadsStay(n, mp, sched);
      }
    } else {
      var sched := Window(n);
    }
  }

  lemma {:induction false} ThreadsStay(n: nat, mp: bool, sched: seq<Event>)
    ensures |Run(Init(n, mp), sched).th| == n
  {
    if sched != [] {
      ThreadsStay(n, mp, sched[..|sched| - 1]);
      StepSize(Run(Init(n, mp), sched[..|sched| - 1]), sched[|sched| - 1]);
    }
  }
}
