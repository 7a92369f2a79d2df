/** The bound on the number of threads is exact: with one thread more than
    `MAX_THREADS` the sampling periods no longer protect `lockType`, and a
    schedule puts two threads into the critical section.

    In MCS mode thread 0 obtains acquisition number 4096 while 2048 threads stand
    ahead of it; each of them counts once, passes through the critical section once its
    successor has linked itself, comes back and counts again, so the last one obtains
    number 8192. When thread 0
    has moved the lock to ticket mode, the holder of number 8192 still rewrites
    lockType. */
module GlkOverflow {
  import opened Glk
  import opened GlkSafety

  /** Nobody calls trylock. */
  predicate LockOnly(sched: seq<Event>) {
    forall i :: 0 <= i < |sched| ==> sched[i].Move? ==> sched[i].op == Lock
  }

  ghost predicate Reaches(s: State, s': State) {
    exists sched :: LockOnly(sched) && Run(s, sched) == s'
  }

  lemma {:induction false} RunConcat(s: State, a: seq<Event>, b: seq<Event>)
    ensures Run(s, a + b) == Run(Run(s, a), b)
  {
    if b == [] {
      assert a + b == a;
    } else {
      RunConcat(s, a, b[..|b| - 1]);
      assert (a + b)[..|a + b| - 1] == a + b[..|b| - 1];
    }
  }

  lemma ReachesSelf(s: State)
    ensures Reaches(s, s)
  {
    assert LockOnly([]) && Run(s, []) == s;
  }

  lemma ReachesTrans(s: State, s': State, s'': State)
    requires Reaches(s, s') && Reaches(s', s'')
    ensures Reaches(s, s'')
  {
    var a :| LockOnly(a) && Run(s, a) == s';
    var b :| LockOnly(b) && Run(s', b) == s'';
    RunConcat(s, a, b);
    assert LockOnly(a + b);
  }

  /** The threads other than `t` that are between their swap and their link. */
  function Late(s: State, t: nat): set<nat> {
    set u | 0 <= u < |s.th| && u != t && s.th[u].McsCount?
  }

  /** The next thread in the queue, if there is one, has linked itself. */
  predicate Linked(m: Mem, late: set<nat>) {
    |m.queue| <= 1 || m.queue[1] !in late
  }

  /** `k` steps of thread `t` alone, whose queue walk, if any, counts only itself. */
  function Solo(v: View, t: nat, late: set<nat>, k: nat): View {
    Alone(v, t, Lock, 1, late, k)
  }

  lemma {:induction false} ReachesAlone(s: State, t: nat, k: nat)
    requires t < |s.th|
    decreases k
    ensures Reaches(s, After(s, t, Solo(View(s.m, s.th[t]), t, Late(s, t), k)))
  {
    if k == 0 {
      assert After(s, t, View(s.m, s.th[t])) == s;
      ReachesSelf(s);
    } else {
      var e := Move(t, Lock, 1);
      var s1 := Step(s, e);
      assert Run(s, []) == s;
      assert Run(s, [e]) == s1 && LockOnly([e]);
      assert AwaitsLink(s.m, s.th[t], s.th) == Blocked(s.m, s.th[t], Late(s, t));
      assert Late(s1, t) == Late(s, t);
      ReachesAlone(s1, t, k - 1);
      var v := Solo(View(s.m, s.th[t]), t, Late(s, t), k);
      assert After(s1, t, v) == After(s, t, v);
      ReachesTrans(s, s1, After(s, t, v));
    }
  }

  /** A thread that finds lockType changed gives its lock up and starts over. */
  lemma StepOut(m: Mem, t: nat, ty: LockType, n: nat, late: set<nat>)
    requires m.lockType != ty && (ty == MCS ==> Linked(m, late))
    ensures Solo(View(m, Recheck(Lock, ty, n)), t, late, 2) == View(ReleaseLow(m, ty), ReadType(Lock))
  {
    hide StepTicket, StepMcs, StepMutex, StepAcquire, ReleaseLow;
  }

  // ----- complete lock/unlock rounds of one thread

  lemma TicketRound(m: Mem, t: nat, late: set<nat>)
    requires m.lockType == TICKET && m.serving == m.issued + 1 && (m.issued + 1) % ADAPT_PERIOD != 0
    ensures Solo(View(m, Idle), t, late, 8) == View(m.(serving := m.serving + 1, issued := m.issued + 1), Idle)
  {
    hide Solo, StepMcs, StepMutex, AsInt32;
    var n := m.issued + 1;
    var m1 := m.(issued := n);
    var w := View(m1.(serving := m.serving + 1), Idle);
    First(View(m, Idle), t, 8, View(m, ReadType(Lock)), late);
    First(View(m, ReadType(Lock)), t, 7, View(m, Chosen(Lock, TICKET)), late);
    First(View(m, Chosen(Lock, TICKET)), t, 6, View(m1, TktDistance(n)), late);
    First(View(m1, TktDistance(n)), t, 5, View(m1, TktAdapt(n)), late);
    First(View(m1, TktAdapt(n)), t, 4, View(m1, Recheck(Lock, TICKET, n)), late);
    First(View(m1, Recheck(Lock, TICKET, n)), t, 3, View(m1, Critical(TICKET, n)), late);
    First(View(m1, Critical(TICKET, n)), t, 2, View(m1, Release(TICKET, n, Finish)), late);
    First(View(m1, Release(TICKET, n, Finish)), t, 1, w, late);
    NoStep(w, t, late);
  }

  lemma NoStep(v: View, t: nat, late: set<nat>)
    ensures Solo(v, t, late, 0) == v
  {
  }

  /** The first step of several. */
  lemma First(v: View, t: nat, k: nat, w: View, late: set<nat>)
    requires k > 0 && StepThread(v.m, t, v.pc, Lock, 1) == w && !Blocked(v.m, v.pc, late)
    ensures Solo(v, t, late, k) == Solo(w, t, late, k - 1)
  {
  }

  lemma {:induction false} AloneAdd(v: View, t: nat, j: nat, k: nat, late: set<nat>)
    decreases j
    ensures Solo(v, t, late, j + k) == Solo(Solo(v, t, late, j), t, late, k)
  {
    if j > 0 {
      AloneAdd(Solo(v, t, late, 1), t, j - 1, k, late);
      assert Solo(v, t, late, j) == Solo(Solo(v, t, late, 1), t, late, j - 1);
      assert Solo(v, t, late, j + k) == Solo(Solo(v, t, late, 1), t, late, j - 1 + k);
    }
  }

  /** queueTotal after the acquisition numbered `c`, by a walk that counts one node. */
  function Sampled(total: nat, c: nat): nat {
    total + if c % SAMPLE_PERIOD == 0 then 1 else 0
  }

  /** The head of the queue stops spinning and, at most, samples. */
  lemma McsServed(m: Mem, t: nat, n: nat, late: set<nat>)
    requires Heads(m, t) && n % ADAPT_PERIOD != 0 && m.queueTotal + 1 < TWO32
    ensures Solo(View(m, McsWait(n)), t, late, 5) ==
      Solo(View(m.(queueTotal := Sampled(m.queueTotal, n)), Recheck(Lock, MCS, n)), t, late, 3)
  {
    hide Solo, AsInt32, StepTicket, StepMutex, StepAcquire;
    var m1 := m.(queueTotal := Sampled(m.queueTotal, n));
    First(View(m, McsWait(n)), t, 5, View(m, McsAdapt(n)), late);
    First(View(m, McsAdapt(n)), t, 4, View(m1, Recheck(Lock, MCS, n)), late);
  }

  /** The head of the queue enters the critical section and leaves. */
  lemma McsPass(m: Mem, t: nat, n: nat, late: set<nat>)
    requires m.lockType == MCS && Heads(m, t) && n % ADAPT_PERIOD != 0
    requires m.queueTotal + 1 < TWO32 && Linked(m, late)
    ensures Solo(View(m, McsWait(n)), t, late, 5) ==
      View(m.(queue := m.queue[1..], queueTotal := Sampled(m.queueTotal, n)), Idle)
  {
    hide Solo, Sampled, StepTicket, StepMcs, StepMutex, StepAcquire;
    var m1 := m.(queueTotal := Sampled(m.queueTotal, n));
    var w := View(m1.(queue := m.queue[1..]), Idle);
    McsServed(m, t, n, late);
    First(View(m1, Recheck(Lock, MCS, n)), t, 3, View(m1, Critical(MCS, n)), late);
    First(View(m1, Critical(MCS, n)), t, 2, View(m1, Release(MCS, n, Finish)), late);
    First(View(m1, Release(MCS, n, Finish)), t, 1, w, late);
    NoStep(w, t, late);
  }

  lemma McsRoundTail(m: Mem, t: nat, late: set<nat>)
    requires m.lockType == MCS && m.queue == [] && (m.numAcquired + 1) % ADAPT_PERIOD != 0
    requires m.queueTotal + 1 < TWO32
    ensures Solo(View(m, ReadType(Lock)), t, late, 8) ==
      View(m.(numAcquired := m.numAcquired + 1, queueTotal := Sampled(m.queueTotal, m.numAcquired + 1)), Idle)
  {
    hide Solo, Sampled, AsInt32, StepTicket, StepMutex;
    var c := m.numAcquired + 1;
    var m1 := m.(queue := [t]);
    var m2 := m1.(numAcquired := c);
    First(View(m, ReadType(Lock)), t, 8, View(m, Chosen(Lock, MCS)), late);
    First(View(m, Chosen(Lock, MCS)), t, 7, View(m1, McsCount), late);
    First(View(m1, McsCount), t, 6, View(m2, McsWait(c)), late);
    McsPass(m2, t, c, late);
  }

  lemma McsRound(m: Mem, t: nat, late: set<nat>)
    requires m.lockType == MCS && m.queue == [] && (m.numAcquired + 1) % ADAPT_PERIOD != 0
    requires m.queueTotal + 1 < TWO32
    ensures Solo(View(m, Idle), t, late, 9) ==
      View(m.(numAcquired := m.numAcquired + 1, queueTotal := Sampled(m.queueTotal, m.numAcquired + 1)), Idle)
  {
    hide Solo, Sampled;
    McsRoundTail(m, t, late);
    First(View(m, Idle), t, 9, View(m, ReadType(Lock)), late);
  }

  // ----- the schedule

  const M := MAX_THREADS

  /** `t` alone takes `k` steps, at the end of a run. */
  lemma Extend(s0: State, s: State, t: nat, k: nat, v: View) returns (s': State)
    requires Reaches(s0, s) && t < |s.th| && Solo(View(s.m, s.th[t]), t, Late(s, t), k) == v
    ensures Reaches(s0, s') && s' == After(s, t, v)
  {
    s' := After(s, t, v);
    ReachesAlone(s, t, k);
    ReachesTrans(s0, s, s');
  }

  /** Thread 1 is in the critical section and threads 2 to `k` wait behind it. */
  ghost predicate Gathered(s: State, k: nat) {
    && 1 <= k <= 128 && |s.th| > M
    && s.m == Mem(TICKET, 1, k, [], false, 0, if k == 128 then 127 else 0, false)
    && (forall i :: 0 <= i < |s.th| ==>
          s.th[i] == if i == 1 then Critical(TICKET, 1) else if 2 <= i <= k then TktWait(i) else Idle)
  }

  /** A thread takes a ticket that is not the next one, and waits. */
  lemma JoinLine(m: Mem, t: nat, n: nat, late: set<nat>)
    requires m.lockType == TICKET && n == m.issued + 1 && m.serving < n < TWO31
    ensures n % SAMPLE_PERIOD != 0 ==> Solo(View(m, Idle), t, late, 4) == View(m.(issued := n), TktWait(n))
    ensures n % SAMPLE_PERIOD == 0 ==>
      Solo(View(m, Idle), t, late, 5) ==
        View(m.(issued := n, queueTotal := (m.queueTotal + n - m.serving) % TWO32), TktWait(n))
  {
    hide Solo, StepMcs, StepMutex;
    var m1 := m.(issued := n);
    var k := if n % SAMPLE_PERIOD == 0 then 5 else 4;
    First(View(m, Idle), t, k, View(m, ReadType(Lock)), late);
    First(View(m, ReadType(Lock)), t, k - 1, View(m, Chosen(Lock, TICKET)), late);
    First(View(m, Chosen(Lock, TICKET)), t, k - 2, View(m1, TktDistance(n)), late);
    if n % SAMPLE_PERIOD == 0 {
      First(View(m1, TktDistance(n)), t, 2, View(m1, TktSample(n, n - m.serving)), late);
      var m2 := m1.(queueTotal := (m.queueTotal + n - m.serving) % TWO32);
      First(View(m1, TktSample(n, n - m.serving)), t, 1, View(m2, TktWait(n)), late);
      NoStep(View(m2, TktWait(n)), t, late);
    } else {
      First(View(m1, TktDistance(n)), t, 1, View(m1, TktWait(n)), late);
      NoStep(View(m1, TktWait(n)), t, late);
    }
  }

  lemma Gather(s0: State, s: State, k: nat) returns (s': State)
    requires Reaches(s0, s) && Gathered(s, k)
    ensures Reaches(s0, s') && Gathered(s', 128)
    decreases 128 - k
  {
    if k == 128 {
      s' := s;
    } else {
      var m' := s.m.(issued := k + 1, queueTotal := if k + 1 == 128 then 127 else 0);
      OneMoreGathered(s, k, m');
      hide Gathered, Solo, Reaches;
      s' := Extend(s0, s, k + 1, if k + 1 == 128 then 5 else 4, View(m', TktWait(k + 1)));
      s' := Gather(s0, s', k + 1);
    }
  }

  lemma OneMoreGathered(s: State, k: nat, m': Mem)
    requires Gathered(s, k) && k < 128
    requires m' == s.m.(issued := k + 1, queueTotal := if k + 1 == 128 then 127 else 0)
    ensures k + 1 < |s.th|
    ensures Gathered(After(s, k + 1, View(m', TktWait(k + 1))), k + 1)
    ensures Solo(View(s.m, s.th[k + 1]), k + 1, Late(s, k + 1), if k + 1 == 128 then 5 else 4) ==
      View(m', TktWait(k + 1))
  {
    hide Solo;
    JoinLine(s.m, k + 1, k + 1, Late(s, k + 1));
  }

  /** Thread `k` is in the critical section, threads up to 128 still wait. */
  ghost predicate Draining(s: State, k: nat) {
    && 1 <= k <= 128 && |s.th| > M
    && s.m == Mem(TICKET, k, 128, [], false, 0, 127, false)
    && (forall i :: 0 <= i < |s.th| ==>
          s.th[i] == if i == k then Critical(TICKET, k) else if k < i <= 128 then TktWait(i) else Idle)
  }

  ghost predicate AllIdle(s: State) {
    |s.th| > M && forall i :: 0 <= i < |s.th| ==> s.th[i] == Idle
  }

  lemma LeaveTicket(m: Mem, t: nat, n: nat, late: set<nat>)
    requires m.lockType == TICKET
    ensures Solo(View(m, Critical(TICKET, n)), t, late, 2) == View(m.(serving := m.serving + 1), Idle)
  {
    hide StepTicket, StepMcs, StepMutex, StepAcquire;
  }

  lemma NextTicket(m: Mem, t: nat, late: set<nat>)
    requires m.lockType == TICKET && m.serving == t && t % ADAPT_PERIOD != 0
    ensures Solo(View(m, TktWait(t)), t, late, 3) == View(m, Critical(TICKET, t))
  {
  }

  lemma Drain(s0: State, s: State, k: nat) returns (s': State)
    requires Reaches(s0, s) && Draining(s, k)
    ensures Reaches(s0, s') && AllIdle(s') && s'.m == Mem(TICKET, 129, 128, [], false, 0, 127, false)
    decreases 128 - k
  {
    hide Solo;
    LeaveTicket(s.m, k, k, Late(s, k));
    s' := Extend(s0, s, k, 2, View(s.m.(serving := k + 1), Idle));
    if k < 128 {
      NextTicket(s'.m, k + 1, Late(s', k + 1));
      s' := Extend(s0, s', k + 1, 3, View(s'.m, Critical(TICKET, k + 1)));
      s' := Drain(s0, s', k + 1);
    }
  }

  /** Thread 0 alone uses up the tickets below 4096. */
  lemma TicketRounds(s0: State, s: State) returns (s': State)
    requires Reaches(s0, s) && AllIdle(s) && s.m.lockType == TICKET
    requires s.m.serving == s.m.issued + 1 && s.m.issued < ADAPT_PERIOD
    ensures Reaches(s0, s') && AllIdle(s') && s'.m == s.m.(serving := ADAPT_PERIOD, issued := ADAPT_PERIOD - 1)
    decreases ADAPT_PERIOD - s.m.issued
  {
    hide Solo;
    if s.m.issued == ADAPT_PERIOD - 1 {
      s' := s;
    } else {
      TicketRound(s.m, 0, Late(s, 0));
      s' := Extend(s0, s, 0, 8, View(s.m.(serving := s.m.serving + 1, issued := s.m.issued + 1), Idle));
      s' := TicketRounds(s0, s');
    }
  }

  lemma TakeTicket4096(m: Mem, late: set<nat>)
    requires m == Mem(TICKET, 4096, 4095, [], false, 0, 127, false)
    ensures Solo(View(m, Idle), 0, late, 6) == View(m.(issued := 4096), TktSetTotal(4096, 15, true))
  {
    hide Solo, StepMcs, StepMutex;
    var m1 := m.(issued := 4096);
    First(View(m, Idle), 0, 6, View(m, ReadType(Lock)), late);
    First(View(m, ReadType(Lock)), 0, 5, View(m, Chosen(Lock, TICKET)), late);
    First(View(m, Chosen(Lock, TICKET)), 0, 4, View(m1, TktDistance(4096)), late);
    First(View(m1, TktDistance(4096)), 0, 3, View(m1, TktAdapt(4096)), late);
    First(View(m1, TktAdapt(4096)), 0, 2, View(m1, TktReadTotal(4096)), late);
    First(View(m1, TktReadTotal(4096)), 0, 1, View(m1, TktSetTotal(4096, 15, true)), late);
    NoStep(View(m1, TktSetTotal(4096, 15, true)), 0, late);
  }

  lemma LeaveTicketMode(m: Mem, late: set<nat>)
    requires m.lockType == TICKET
    ensures Solo(View(m, TktSetTotal(4096, 15, true)), 0, late, 5) ==
      View(m.(lockType := MCS, serving := m.serving + 1, numAcquired := 512, queueTotal := 15), ReadType(Lock))
  {
    hide Solo, StepMcs, StepMutex, StepAcquire;
    var m1 := m.(queueTotal := 15);
    var m2 := m1.(numAcquired := 512);
    var m3 := m2.(lockType := MCS);
    First(View(m, TktSetTotal(4096, 15, true)), 0, 5, View(m1, TktSetNum(4096, true)), late);
    First(View(m1, TktSetNum(4096, true)), 0, 4, View(m2, TktToMcs(4096)), late);
    First(View(m2, TktToMcs(4096)), 0, 3, View(m3, Recheck(Lock, TICKET, 4096)), late);
    StepOut(m3, 0, TICKET, 4096, late);
  }

  /** Ticket 4096 finds queueTotal at 127 and moves the lock to MCS mode. */
  lemma SwitchToMcs(s0: State, s: State) returns (s': State)
    requires Reaches(s0, s) && AllIdle(s) && s.m == Mem(TICKET, 4096, 4095, [], false, 0, 127, false)
    ensures Reaches(s0, s') && AllIdle(s') && s'.m == Mem(MCS, 4097, 4096, [], false, 513, 15, false)
  {
    hide Solo;
    TakeTicket4096(s.m, Late(s, 0));
    s' := Extend(s0, s, 0, 6, View(s.m.(issued := 4096), TktSetTotal(4096, 15, true)));
    LeaveTicketMode(s'.m, Late(s', 0));
    s' := Extend(s0, s', 0, 5, View(Mem(MCS, 4097, 4096, [], false, 512, 15, false), ReadType(Lock)));
    McsRoundTail(s'.m, 0, Late(s', 0));
    s' := Extend(s0, s', 0, 8, View(Mem(MCS, 4097, 4096, [], false, 513, 15, false), Idle));
  }

  lemma McsRounds(s0: State, s: State) returns (s': State)
    requires Reaches(s0, s) && AllIdle(s) && 513 <= s.m.numAcquired <= 4095
    requires s.m == Mem(MCS, 4097, 4096, [], false, s.m.numAcquired, 11 + s.m.numAcquired / SAMPLE_PERIOD, false)
    ensures Reaches(s0, s') && AllIdle(s') && s'.m == Mem(MCS, 4097, 4096, [], false, 4095, 42, false)
    decreases 4095 - s.m.numAcquired
  {
    hide Solo;
    if s.m.numAcquired == 4095 {
      s' := s;
    } else {
      var c := s.m.numAcquired + 1;
      McsRound(s.m, 0, Late(s, 0));
      s' := Extend(s0, s, 0, 9, View(s.m.(numAcquired := c, queueTotal := 11 + c / SAMPLE_PERIOD), Idle));
      s' := McsRounds(s0, s');
    }
  }

  /** Threads 1 to `k` stand in the queue and have not counted yet. */
  ghost predicate Queued(s: State, k: nat) {
    && k <= M < |s.th|
    && s.m == Mem(MCS, 4097, 4096, seq(k, i requires 0 <= i < k => i + 1), false, 4095, 42, false)
    && (forall i :: 0 <= i < |s.th| ==> s.th[i] == if 1 <= i <= k then McsCount else Idle)
  }

  lemma Enqueue(s0: State, s: State, k: nat) returns (s': State)
    requires Reaches(s0, s) && Queued(s, k)
    ensures Reaches(s0, s') && Queued(s', M)
    decreases M - k
  {
    if k == M {
      s' := s;
    } else {
      var q := seq(k + 1, i requires 0 <= i < k + 1 => i + 1);
      assert s.m.queue + [k + 1] == q;
      s' := Extend(s0, s, k + 1, 3, View(s.m.(queue := q), McsCount));
      s' := Enqueue(s0, s', k + 1);
    }
  }

  /** The queue M+1 long that starts with thread `k + 1` and wraps around. */
  function Ring(k: nat): seq<nat> {
    seq(M + 1, i requires 0 <= i < M + 1 => (k + 1 + i) % (M + 1))
  }

  /** Thread 0 holds number 4096; threads 1 to `k` have passed through the critical section
      and queued up again behind it; the head of the queue, unless it is thread 0, has counted. */
  ghost predicate Cycled(s: State, k: nat) {
    && k <= M < |s.th|
    && s.m == Mem(MCS, 4097, 4096, Ring(k), false, 4096 + if k < M then k + 1 else k,
                  10 + (4096 + k) / SAMPLE_PERIOD, false)
    && (forall i :: 0 <= i < |s.th| ==>
          s.th[i] == if i == 0 then McsWait(4096) else if i == k + 1 && k < M then McsWait(4096 + i)
                     else if i <= M then McsCount else Idle)
  }

  lemma Adaptor(s0: State, s: State) returns (s': State)
    requires Reaches(s0, s) && Queued(s, M)
    ensures Reaches(s0, s') && Cycled(s', 0)
  {
    assert s.m.queue + [0] == Ring(0);
    s' := Extend(s0, s, 0, 4, View(s.m.(queue := Ring(0), numAcquired := 4096), McsWait(4096)));
    s' := Extend(s0, s', 1, 1, View(s'.m.(numAcquired := 4097), McsWait(4097)));
  }

  lemma CycleRound(m: Mem, t: nat, n: nat, q: seq<nat>, late: set<nat>)
    requires m.lockType == MCS && Heads(m, t) && m.queue[1..] + [t] == q && n % ADAPT_PERIOD != 0
    requires m.queueTotal + 1 < TWO32 && Linked(m, late)
    ensures Solo(View(m, McsWait(n)), t, late, 8) ==
      View(m.(queue := q, queueTotal := Sampled(m.queueTotal, n)), McsCount)
  {
    hide Solo, Sampled, AsInt32, StepTicket, StepMcs, StepMutex;
    McsPass(m, t, n, late);
    AloneAdd(View(m, McsWait(n)), t, 5, 3, late);
    var m1 := m.(queue := m.queue[1..], queueTotal := Sampled(m.queueTotal, n));
    First(View(m1, Idle), t, 3, View(m1, ReadType(Lock)), late);
    First(View(m1, ReadType(Lock)), t, 2, View(m1, Chosen(Lock, MCS)), late);
    First(View(m1, Chosen(Lock, MCS)), t, 1, View(m1.(queue := q), McsCount), late);
    NoStep(View(m1.(queue := q), McsCount), t, late);
  }

  lemma CountOne(m: Mem, t: nat, late: set<nat>)
    ensures Solo(View(m, McsCount), t, late, 1) ==
      View(m.(numAcquired := m.numAcquired + 1), McsWait(m.numAcquired + 1))
  {
    First(View(m, McsCount), t, 1, View(m.(numAcquired := m.numAcquired + 1), McsWait(m.numAcquired + 1)), late);
    NoStep(View(m.(numAcquired := m.numAcquired + 1), McsWait(m.numAcquired + 1)), t, late);
  }

  lemma RingTurns(k: nat)
    requires k < M
    ensures Ring(k)[0] == k + 1 && Ring(k)[1..] + [k + 1] == Ring(k + 1)
    ensures |Ring(k)| == M + 1 && Ring(k)[1] == if k + 1 < M then k + 2 else 0
  {
  }

  lemma SampledSum(k: nat)
    requires k < M
    ensures Sampled(10 + (4096 + k) / SAMPLE_PERIOD, 4096 + k + 1) == 10 + (4096 + k + 1) / SAMPLE_PERIOD
    ensures (4096 + k + 1) % ADAPT_PERIOD != 0 && 10 + (4096 + k) / SAMPLE_PERIOD + 1 < TWO32
  {
  }

  /** The head of the ring, whose successor has linked itself, goes round. */
  lemma CycleOne(s0: State, s: State, k: nat) returns (s': State)
    requires Reaches(s0, s) && k < M < |s.th|
    requires s.m == Mem(MCS, 4097, 4096, Ring(k), false, 4096 + if k + 1 < M then k + 2 else k + 1,
                        10 + (4096 + k) / SAMPLE_PERIOD, false)
    requires forall i :: 0 <= i < |s.th| ==>
      s.th[i] == if i == 0 then McsWait(4096) else if i == k + 1 || (i == k + 2 && i <= M) then McsWait(4096 + i)
                 else if i <= M then McsCount else Idle
    ensures Reaches(s0, s') && Cycled(s', k + 1)
  {
    hide Solo, Ring, Sampled, Reaches;
    RingTurns(k);
    SampledSum(k);
    CycleRound(s.m, k + 1, 4096 + k + 1, Ring(k + 1), Late(s, k + 1));
    s' := Extend(s0, s, k + 1, 8,
      View(s.m.(queue := Ring(k + 1), queueTotal := 10 + (4096 + k + 1) / SAMPLE_PERIOD), McsCount));
  }

  lemma Cycle(s0: State, s: State, k: nat) returns (s': State)
    requires Reaches(s0, s) && Cycled(s, k)
    ensures Reaches(s0, s') && Cycled(s', M)
    decreases M - k
  {
    if k == M {
      s' := s;
    } else {
      RingTurns(k);
      hide Solo, Ring;
      s' := s;
      if k + 1 < M {
        CountOne(s.m, k + 2, Late(s, k + 2));
        s' := Extend(s0, s, k + 2, 1, View(s.m.(numAcquired := 4096 + k + 2), McsWait(4096 + k + 2)));
      }
      s' := CycleOne(s0, s', k);
      s' := Cycle(s0, s', k + 1);
    }
  }

  /** Threads 1 to `k` have counted a second time. */
  ghost predicate Counted(s: State, k: nat) {
    && k <= M < |s.th|
    && s.m == Mem(MCS, 4097, 4096, Ring(M), false, 6144 + k, 58, false)
    && (forall i :: 0 <= i < |s.th| ==>
          s.th[i] == if i == 0 then McsWait(4096) else if i <= k then McsWait(6144 + i)
                     else if i <= M then McsCount else Idle)
  }

  lemma Count(s0: State, s: State, k: nat) returns (s': State)
    requires Reaches(s0, s) && Counted(s, k)
    ensures Reaches(s0, s') && Counted(s', M)
    decreases M - k
  {
    if k == M {
      s' := s;
    } else {
      s' := Extend(s0, s, k + 1, 1, View(s.m.(numAcquired := 6145 + k), McsWait(6145 + k)));
      s' := Count(s0, s', k + 1);
    }
  }

  /** Thread 0 is in the critical section through the ticket lock; threads 1 to `k`
      have noticed that the MCS lock no longer counts. */
  ghost predicate Stale(s: State, k: nat) {
    && k < M < |s.th|
    && s.m == Mem(TICKET, 4097, 4097, Ring(M)[k + 1..], false, 512, (6144 + k) / SAMPLE_PERIOD - 48, false)
    && (forall i :: 0 <= i < |s.th| ==>
          s.th[i] == if i == 0 then Critical(TICKET, 4097) else if i <= k then ReadType(Lock)
                     else if i <= M then McsWait(6144 + i) else Idle)
  }

  lemma DecideTicketMode(m: Mem, late: set<nat>)
    requires Heads(m, 0) && m.queueTotal == 58 && !m.multiprogramming
    ensures Solo(View(m, McsWait(4096)), 0, late, 3) == View(m.(queueTotal := 59), McsSetTotal(4096, 0, true))
  {
  }

  lemma LeaveMcsMode(m: Mem, late: set<nat>)
    requires m.lockType == MCS && m.queue != [] && Linked(m, late)
    ensures Solo(View(m, McsSetTotal(4096, 0, true)), 0, late, 5) ==
      View(m.(lockType := TICKET, queue := m.queue[1..], numAcquired := 512, queueTotal := 0), ReadType(Lock))
  {
    hide Solo, StepTicket, StepMutex, StepAcquire, AsInt32;
    var m1 := m.(queueTotal := 0);
    var m2 := m1.(numAcquired := 512);
    var m3 := m2.(lockType := TICKET);
    First(View(m, McsSetTotal(4096, 0, true)), 0, 5, View(m1, McsSetNum(4096, true)), late);
    First(View(m1, McsSetNum(4096, true)), 0, 4, View(m2, McsToTicket(4096)), late);
    First(View(m2, McsToTicket(4096)), 0, 3, View(m3, Recheck(Lock, MCS, 4096)), late);
    StepOut(m3, 0, MCS, 4096, late);
  }

  lemma EnterByTicket(m: Mem, late: set<nat>)
    requires m.lockType == TICKET && m.issued == 4096 && m.serving == 4097
    ensures Solo(View(m, ReadType(Lock)), 0, late, 5) == View(m.(issued := 4097), Critical(TICKET, 4097))
  {
    hide Solo;
    var m1 := m.(issued := 4097);
    First(View(m, ReadType(Lock)), 0, 5, View(m, Chosen(Lock, TICKET)), late);
    First(View(m, Chosen(Lock, TICKET)), 0, 4, View(m1, TktDistance(4097)), late);
    First(View(m1, TktDistance(4097)), 0, 3, View(m1, TktAdapt(4097)), late);
    First(View(m1, TktAdapt(4097)), 0, 2, View(m1, Recheck(Lock, TICKET, 4097)), late);
    First(View(m1, Recheck(Lock, TICKET, 4097)), 0, 1, View(m1, Critical(TICKET, 4097)), late);
    NoStep(View(m1, Critical(TICKET, 4097)), 0, late);
  }

  lemma SwitchToTicket(s0: State, s: State) returns (s': State)
    requires Reaches(s0, s) && Counted(s, M)
    ensures Reaches(s0, s') && Stale(s', 0)
  {
    hide Solo;
    DecideTicketMode(s.m, Late(s, 0));
    s' := Extend(s0, s, 0, 3, View(s.m.(queueTotal := 59), McsSetTotal(4096, 0, true)));
    LeaveMcsMode(s'.m, Late(s', 0));
    s' := Extend(s0, s', 0, 5, View(Mem(TICKET, 4097, 4096, Ring(M)[1..], false, 512, 0, false), ReadType(Lock)));
    EnterByTicket(s'.m, Late(s', 0));
    s' := Extend(s0, s', 0, 5, View(s'.m.(issued := 4097), Critical(TICKET, 4097)));
  }

  /** A stale waiter gets the MCS lock, notices and gives it up. */
  lemma StalePass(m: Mem, t: nat, n: nat, late: set<nat>)
    requires m.lockType == TICKET && Heads(m, t) && n % ADAPT_PERIOD != 0 && m.queueTotal + 1 < TWO32
    requires Linked(m, late)
    ensures Solo(View(m, McsWait(n)), t, late, 4) ==
      View(m.(queue := m.queue[1..], queueTotal := Sampled(m.queueTotal, n)), ReadType(Lock))
  {
  }

  lemma DrainStale(s0: State, s: State, k: nat) returns (s': State)
    requires Reaches(s0, s) && Stale(s, k)
    ensures Reaches(s0, s') && Stale(s', M - 1)
    decreases M - k
  {
    hide Solo;
    if k == M - 1 {
      s' := s;
    } else {
      var m' := s.m.(queue := Ring(M)[k + 2..], queueTotal := (6145 + k) / SAMPLE_PERIOD - 48);
      assert s.m.queue[1..] == m'.queue;
      StalePass(s.m, k + 1, 6145 + k, Late(s, k + 1));
      s' := Extend(s0, s, k + 1, 4, View(m', ReadType(Lock)));
      s' := DrainStale(s0, s', k + 1);
    }
  }

  lemma StaleDecision(m: Mem, late: set<nat>)
    requires Heads(m, M) && m.queueTotal == 15 && m.multiprogramming
    ensures Solo(View(m, McsWait(8192)), M, late, 4) ==
      View(m.(lockType := MUTEX, queueTotal := 16), Recheck(Lock, MCS, 8192))
  {
  }

  lemma EnterByMutex(m: Mem, late: set<nat>)
    requires m.lockType == MUTEX && |m.queue| == 1 && !m.locked && m.multiprogramming
    ensures Solo(View(m, Recheck(Lock, MCS, 8192)), M, late, 6) ==
      View(m.(queue := [], locked := true), Critical(MUTEX, 0))
  {
    hide Solo, StepTicket, StepMcs;
    var m1 := m.(queue := []);
    var m2 := m1.(locked := true);
    assert m.queue[1..] == [];
    StepOut(m, M, MCS, 8192, late);
    AloneAdd(View(m, Recheck(Lock, MCS, 8192)), M, 2, 4, late);
    First(View(m1, ReadType(Lock)), M, 4, View(m1, Chosen(Lock, MUTEX)), late);
    First(View(m1, Chosen(Lock, MUTEX)), M, 3, View(m2, MtxAdapt), late);
    First(View(m2, MtxAdapt), M, 2, View(m2, Recheck(Lock, MUTEX, 0)), late);
    First(View(m2, Recheck(Lock, MUTEX, 0)), M, 1, View(m2, Critical(MUTEX, 0)), late);
    NoStep(View(m2, Critical(MUTEX, 0)), M, late);
  }

  /** Number 8192 still counts as an adaptation point and rewrites lockType. */
  lemma StaleWriter(s0: State, s: State) returns (s': State)
    requires Reaches(s0, s) && Stale(s, M - 1)
    ensures Reaches(s0, s') && !Exclusive(s')
  {
    hide Solo;
    var s1 := s.(m := s.m.(multiprogramming := true));
    assert Run(s, []) == s;
    assert Run(s, [SetMp(true)]) == s1 && LockOnly([SetMp(true)]);
    ReachesTrans(s0, s, s1);
    StaleDecision(s1.m, Late(s1, M));
    s' := Extend(s0, s1, M, 4, View(s1.m.(lockType := MUTEX, queueTotal := 16), Recheck(Lock, MCS, 8192)));
    EnterByMutex(s'.m, Late(s', M));
    s' := Extend(s0, s', M, 6, View(s'.m.(queue := [], locked := true), Critical(MUTEX, 0)));
    assert s'.th[0].Critical? && s'.th[M].Critical?;
  }

  /** Any number of threads beyond the bound can break mutual exclusion. */
  lemma Overflow(n: nat) returns (sched: seq<Event>)
    requires n > MAX_THREADS
    ensures LockOnly(sched) && TimelyRun(Init(n, false), sched)
    ensures !Exclusive(Run(Init(n, false), sched))
  {
    var s0 := Init(n, false);
    ReachesSelf(s0);
    var s := Extend(s0, s0, 1, 6, View(s0.m.(issued := 1), Critical(TICKET, 1)));
    s := Gather(s0, s, 1);
    s := Drain(s0, s, 1);
    s := TicketRounds(s0, s);
    s := SwitchToMcs(s0, s);
    s := McsRounds(s0, s);
    s := Enqueue(s0, s, 0);
    s := Adaptor(s0, s);
    s := Cycle(s0, s, 0);
    s := Count(s0, s, 0);
    s := SwitchToTicket(s0, s);
    s := DrainStale(s0, s, 0);
    s := StaleWriter(s0, s);
    sched :| LockOnly(sched) && Run(s0, sched) == s;
    NoTrylockTimely(n, false, sched);
  }

  /** Not in trylock, nor on the way there. */
  predicate Locking(pc: Pc) {
    && !pc.TryHead? && !pc.TryCas? && !pc.TryEnqueue?
    && (pc.ReadType? || pc.Chosen? || pc.Recheck? ==> pc.op == Lock)
    && (pc.Release? && pc.next.Retry? ==> pc.next.op == Lock)
  }

  lemma LockingStays(m: Mem, t: nat, pc: Pc, len: nat)
    requires Locking(pc)
    ensures Locking(StepThread(m, t, pc, Lock, len).pc)
  {
    hide AsInt32, ReleaseLow;
  }

  /** Runs without trylock are timely. */
  lemma {:induction false} NoTrylockTimely(n: nat, mp: bool, sched: seq<Event>)
    requires LockOnly(sched)
    ensures TimelyRun(Init(n, mp), sched)
    ensures forall t :: 0 <= t < |Run(Init(n, mp), sched).th| ==> Locking(Run(Init(n, mp), sched).th[t])
  {
    if sched != [] {
      var before, e := sched[..|sched| - 1], sched[|sched| - 1];
      NoTrylockTimely(n, mp, before);
      var s := Run(Init(n, mp), before);
      if e.Move? && e.t < |s.th| { LockingStays(s.m, e.t, s.th[e.t], e.len); }
      hide StepThread;
    }
  }

  /** Mutual exclusion holds in every run whose trylocks are timely exactly when the threads
      number at most 2048. */
  lemma ExclusiveIffBounded(n: nat)
    ensures (forall mp, sched :: TimelyRun(Init(n, mp), sched) ==> Exclusive(Run(Init(n, mp), sched)))
      <==> n <= MAX_THREADS
  {
    if n <= MAX_THREADS {
      forall mp, sched | TimelyRun(Init(n, mp), sched)
        ensures Exclusive(Run(Init(n, mp), sched))
      {
        MutualExclusion(n, mp, sched);
      }
    } else {
      var sched := Overflow(n);
    }
  }
}
