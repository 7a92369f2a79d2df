/** What the sampling periods of src/glk.c achieve over whole runs: switches away from the
    ticket lock are at least a period of tickets apart, and num_acquired stays small. */
module GlkPeriods {
  import opened Sums
  import opened Glk
  import opened GlkSafety

  // ----- exits from TICKET

  /** The thread is about to switch from the ticket lock to another one. */
  predicate Exiting(pc: Pc) {
    pc.TktToMutex? || pc.TktToMcs?
  }

  /** The tickets of the threads that made the switches of a run, in order. */
  function Exits(s: State, sched: seq<Event>): seq<nat> {
    if sched == [] then []
    else
      var before, e := Run(s, sched[..|sched| - 1]), sched[|sched| - 1];
      Exits(s, sched[..|sched| - 1]) +
      if e.Move? && e.t < |before.th| && Exiting(before.th[e.t]) then [before.th[e.t].n] else []
  }

  /** Nobody can switch with ticket `x` any more. */
  predicate Spent(s: State, x: nat) {
    && x <= s.m.serving && x <= s.m.issued
    && forall t :: 0 <= t < |s.th| && TicketPath(s.th[t]) ==> s.th[t].n != x
  }

  lemma PathStep(m: Mem, t: nat, pc: Pc, op: Op, len: nat)
    ensures var v := StepThread(m, t, pc, op, len);
      && (TicketPath(v.pc) ==> if TicketPath(pc) then v.pc.n == pc.n else v.pc.n == m.issued + 1)
      && v.m.issued >= m.issued && v.m.serving >= m.serving
      && (Exiting(pc) ==> !TicketPath(v.pc) && v.m.serving == m.serving && v.m.issued == m.issued)
  {
    hide AsInt32;
  }

  lemma SpentStays(s: State, e: Event, x: nat)
    requires Spent(s, x)
    ensures Spent(Step(s, e), x)
  {
    if e.Move? && e.t < |s.th| {
      PathStep(s.m, e.t, s.th[e.t], e.op, e.len);
      hide StepThread;
    }
  }

  lemma ExitSpends(s: State, e: Event)
    requires Inv(s) && e.Move? && e.t < |s.th| && Exiting(s.th[e.t])
    ensures Spent(Step(s, e), s.th[e.t].n)
    ensures s.th[e.t].n % ADAPT_PERIOD == 0 && s.th[e.t].n == s.m.serving
  {
    InvAt(s, e.t);
    PathStep(s.m, e.t, s.th[e.t], e.op, e.len);
    hide StepThread, QueueInv, MutexInv, TypeInv, PeriodInv, TypeOk;
    assert HasTicket(s.th[e.t]);
    assert forall u :: 0 <= u < |s.th| && TicketPath(s.th[u]) ==> HasTicket(s.th[u]);
  }

  /** Multiples of the period, a period apart, and all of them in the past. */
  predicate InOrder(s: State, x: seq<nat>) {
    && (forall i :: 0 <= i < |x| ==> x[i] % ADAPT_PERIOD == 0 && Spent(s, x[i]))
    && (forall i, j :: 0 <= i < j < |x| ==> x[i] + ADAPT_PERIOD <= x[j])
  }

  lemma Multiples(x: nat, y: nat)
    requires x < y && x % ADAPT_PERIOD == 0 && y % ADAPT_PERIOD == 0
    ensures x + ADAPT_PERIOD <= y
  {
  }

  lemma ExitsStep(s: State, e: Event, x: seq<nat>)
    requires Inv(s) && InOrder(s, x)
    ensures InOrder(Step(s, e), x + if e.Move? && e.t < |s.th| && Exiting(s.th[e.t]) then [s.th[e.t].n] else [])
  {
    forall i | 0 <= i < |x|
      ensures Spent(Step(s, e), x[i])
    {
      SpentStays(s, e, x[i]);
    }
    if e.Move? && e.t < |s.th| && Exiting(s.th[e.t]) {
      ExitSpends(s, e);
      hide Step, Inv;
      forall i | 0 <= i < |x|
        ensures x[i] + ADAPT_PERIOD <= s.th[e.t].n
      {
        assert Spent(s, x[i]) && TicketPath(s.th[e.t]);
        Multiples(x[i], s.th[e.t].n);
      }
    }
    hide Step, Inv, Spent;
  }

  lemma {:induction false} ExitsInOrder(n: nat, mp: bool, sched: seq<Event>)
    requires n <= MAX_THREADS && TimelyRun(Init(n, mp), sched)
    ensures InOrder(Run(Init(n, mp), sched), Exits(Init(n, mp), sched))
  {
    if sched != [] {
      ExitsInOrder(n, mp, sched[..|sched| - 1]);
      Reachable(n, mp, sched[..|sched| - 1]);
      hide Inv, InOrder, Step;
      var s, e := Run(Init(n, mp), sched[..|sched| - 1]), sched[|sched| - 1];
      ExitsStep(s, e, Exits(Init(n, mp), sched[..|sched| - 1]));
    }
  }

  /** Consecutive switches away from the ticket lock are at least 4096 tickets apart. */
  lemma ExitsApart(n: nat, mp: bool, sched: seq<Event>, i: nat)
    requires n <= MAX_THREADS && TimelyRun(Init(n, mp), sched) && i + 1 < |Exits(Init(n, mp), sched)|
    ensures var x := Exits(Init(n, mp), sched); x[i] + ADAPT_PERIOD <= x[i + 1]
  {
    ExitsInOrder(n, mp, sched);
    hide Exits, Spent;
  }

  // ----- num_acquired

  predicate SomeAdaptor(s: State) {
    exists a :: 0 <= a < |s.th| && McsAdaptor(s.th[a])
  }

  predicate Small(s: State) {
    && s.m.numAcquired < 2 * ADAPT_PERIOD
    && (s.m.numAcquired >= ADAPT_PERIOD && s.m.lockType == MCS ==> SomeAdaptor(s))
    && (s.m.numAcquired >= ADAPT_PERIOD ==> forall t :: 0 <= t < |s.th| ==> !s.th[t].TktToMcs?)
  }

  lemma NoHitOne(c: nat, p: nat)
    requires NoHit(c, p) && p >= 1
    ensures c < ADAPT_PERIOD ==> c + 1 < ADAPT_PERIOD
    ensures c < 2 * ADAPT_PERIOD ==> c + 1 < 2 * ADAPT_PERIOD
  {
  }

  /** Adding one stays below the next multiple of the period, unless it makes an adaptor. */
  lemma CountStaysSmall(s: State, t: nat)
    requires Inv(s) && Small(s) && t < |s.th| && s.th[t].McsCount?
    ensures s.m.numAcquired + 1 < 2 * ADAPT_PERIOD
    ensures s.m.lockType != MCS && s.m.numAcquired < ADAPT_PERIOD ==> s.m.numAcquired + 1 < ADAPT_PERIOD
  {
    hide TicketInv, QueueInv, MutexInv, TypeInv;
    if s.m.lockType != MCS {
      SumAtLeast(Counters(s.th), t);
      NoHitOne(s.m.numAcquired, Sum(Counters(s.th)));
    } else if s.m.numAcquired >= ADAPT_PERIOD {
      var a :| 0 <= a < |s.th| && McsAdaptor(s.th[a]);
      SumAtLeast(Budgets(s.th, s.m.queue, a), t);
      NoHitOne(s.m.numAcquired, Sum(Budgets(s.th, s.m.queue, a)));
    }
  }

  lemma SmallStep(m: Mem, t: nat, pc: Pc, op: Op, len: nat)
    requires LocalOk(m, t, pc)
    ensures var v := StepThread(m, t, pc, op, len);
      && (v.m.numAcquired != m.numAcquired && !pc.McsCount? ==> v.m.numAcquired < ADAPT_PERIOD)
      && (pc.McsCount? ==> v.m.numAcquired == m.numAcquired + 1 && v.m.lockType == m.lockType && !v.pc.TktToMcs?
                           && (v.m.numAcquired == ADAPT_PERIOD ==> McsAdaptor(v.pc)))
      && (v.m.lockType == MCS && m.lockType != MCS ==> pc.TktToMcs?)
      && (v.pc.TktToMcs? ==> pc.TktSetNum? && v.m.numAcquired < ADAPT_PERIOD)
      && (McsAdaptor(pc) && !McsAdaptor(v.pc) ==> v.m.lockType != MCS || v.m.numAcquired < ADAPT_PERIOD)
  {
    hide AsInt32, TicketOk, Heads;
  }

  lemma StaysSmall(s: State, e: Event)
    requires Inv(s) && Small(s)
    ensures Small(Step(s, e))
  {
    var s' := Step(s, e);
    if e.Move? && e.t < |s.th| {
      InvAt(s, e.t);
      var pc := s.th[e.t];
      SmallStep(s.m, e.t, pc, e.op, e.len);
      if pc.McsCount? { CountStaysSmall(s, e.t); }
      TypesNow(s);
      hide StepThread, Inv, LocalOk;
      if s'.m.numAcquired >= ADAPT_PERIOD && s'.m.lockType == MCS {
        if McsAdaptor(s'.th[e.t]) {
          assert SomeAdaptor(s');
        } else {
          var a :| 0 <= a < |s.th| && McsAdaptor(s.th[a]);
          assert McsAdaptor(s'.th[a]);
        }
      }
    } else {
      assert s'.th == s.th;
      if SomeAdaptor(s) {
        var a :| 0 <= a < |s.th| && McsAdaptor(s.th[a]);
        assert McsAdaptor(s'.th[a]);
      }
    }
  }

  lemma TypesNow(s: State)
    requires Inv(s)
    ensures s.m.lockType == MCS ==> forall t :: 0 <= t < |s.th| ==> !s.th[t].TktToMcs?
  {
    forall t | 0 <= t < |s.th|
      ensures s.th[t].TktToMcs? ==> s.m.lockType == TICKET
    {
      InvAt(s, t);
    }
  }

  /** num_acquired never reaches 8192, in particular it never wraps around. */
  lemma {:induction false} NumAcquiredSmall(n: nat, mp: bool, sched: seq<Event>)
    requires n <= MAX_THREADS && TimelyRun(Init(n, mp), sched)
    ensures Small(Run(Init(n, mp), sched))
  {
    if sched != [] {
      NumAcquiredSmall(n, mp, sched[..|sched| - 1]);
      Reachable(n, mp, sched[..|sched| - 1]);
      StaysSmall(Run(Init(n, mp), sched[..|sched| - 1]), sched[|sched| - 1]);
      hide Inv, Step, Small;
    }
  }
}
