/** No low-level lock of src/glk.c is ever lost: whoever is first in line for it, current or
    stale, has it or gets it with its own next steps, and a release passes it on. */
module GlkProgress {
  import opened Sums
  import opened Glk
  import opened GlkSafety

  predicate Ticketed(s: State, g: nat) {
    exists t :: 0 <= t < |s.th| && HasTicket(s.th[t]) && s.th[t].n == g
  }

  predicate MutexHeld(s: State) {
    exists t :: 0 <= t < |s.th| && HasMutex(s.th[t])
  }

  /** Every outstanding ticket is somebody's, and a locked mutex is held by somebody. */
  ghost predicate Owned(s: State) {
    && (forall g :: s.m.serving <= g <= s.m.issued ==> Ticketed(s, g))
    && (s.m.locked ==> MutexHeld(s))
  }

  lemma TicketsOwned(s: State, t: nat, v: View)
    requires Inv(s) && Owned(s) && t < |s.th| && LowEffect(s.m, t, s.th[t], v)
    ensures var s' := After(s, t, v); forall g :: s'.m.serving <= g <= s'.m.issued ==> Ticketed(s', g)
  {
    hide QueueInv, MutexInv, TypeInv, PeriodInv, MutexHeld;
    var s' := After(s, t, v);
    assert TicketOk(s.m, s.th[t]);
    forall g | s'.m.serving <= g <= s'.m.issued
      ensures Ticketed(s', g)
    {
      if g == s.m.issued + 1 {
        assert HasTicket(s'.th[t]) && s'.th[t].n == g;
      } else {
        assert Ticketed(s, g);
        var u :| 0 <= u < |s.th| && HasTicket(s.th[u]) && s.th[u].n == g;
        assert HasTicket(s'.th[u]) && s'.th[u].n == g;
      }
    }
  }

  lemma MutexOwned(s: State, t: nat, v: View)
    requires Inv(s) && Owned(s) && t < |s.th| && LowEffect(s.m, t, s.th[t], v) && v.m.locked
    ensures MutexHeld(After(s, t, v))
  {
    hide TicketInv, QueueInv, TypeInv, PeriodInv, Ticketed, TicketOk;
    var s' := After(s, t, v);
    if HasMutex(v.pc) {
      assert HasMutex(s'.th[t]);
    } else {
      assert MutexHeld(s);
      var u :| 0 <= u < |s.th| && HasMutex(s.th[u]);
      assert HasMutex(s'.th[u]);
    }
  }

  lemma OwnedKept(s: State, t: nat, v: View)
    requires Inv(s) && Owned(s) && t < |s.th| && LowEffect(s.m, t, s.th[t], v)
    ensures Owned(After(s, t, v))
  {
    hide Inv, LowEffect, Ticketed, MutexHeld;
    TicketsOwned(s, t, v);
    if v.m.locked { MutexOwned(s, t, v); }
  }

  lemma StepKeepsOwned(s: State, e: Event)
    requires Inv(s) && AllTimely(s) && Owned(s)
    ensures Owned(Step(s, e))
  {
    var s' := Step(s, e);
    if e.Move? && e.t < |s.th| && !AwaitsLink(s.m, s.th[e.t], s.th) {
      hide StepThread, LowEffect, TypeEffect, PeriodEffect, LocalOk, Inv, Owned;
      InvAt(s, e.t);
      StepEffect(s.m, e.t, s.th[e.t], e.op, e.len);
      OwnedKept(s, e.t, StepThread(s.m, e.t, s.th[e.t], e.op, e.len));
    } else {
      hide StepThread, Inv;
      assert s'.th == s.th;
      if MutexHeld(s) {
        var u :| 0 <= u < |s.th| && HasMutex(s.th[u]);
        assert HasMutex(s'.th[u]);
      }
      forall g | s.m.serving <= g <= s.m.issued
        ensures Ticketed(s', g)
      {
        assert Ticketed(s, g);
        var u :| 0 <= u < |s.th| && HasTicket(s.th[u]) && s.th[u].n == g;
        assert HasTicket(s'.th[u]) && s'.th[u].n == g;
      }
    }
  }

  lemma {:induction false} ReachableOwned(n: nat, mp: bool, sched: seq<Event>)
    requires n <= MAX_THREADS && TimelyRun(Init(n, mp), sched)
    ensures Inv(Run(Init(n, mp), sched)) && Owned(Run(Init(n, mp), sched))
    ensures |Run(Init(n, mp), sched).th| == n
  {
    Reachable(n, mp, sched);
    hide Inv, Step;
    if sched != [] {
      var s := Run(Init(n, mp), sched[..|sched| - 1]);
      ReachableOwned(n, mp, sched[..|sched| - 1]);
      hide Owned;
      StepKeepsOwned(s, sched[|sched| - 1]);
    }
  }

  // ----- progress

  /** The thread has got the low-level lock it went for. */
  predicate Served(pc: Pc) {
    ServedTicket(pc) || ServedMcs(pc) || HasMutex(pc)
  }

  /** The thread has its lock, or gets it with its next access or the one after. */
  predicate GoesOn(s: State, t: nat) {
    t < |s.th| &&
    (var s1 := Step(s, Move(t, Lock, 1));
     Served(s.th[t]) || (t < |s1.th| && Served(s1.th[t])) ||
     (var s2 := Step(s1, Move(t, Lock, 1)); t < |s2.th| && Served(s2.th[t])))
  }

  lemma TicketGoesOn(s: State, t: nat)
    requires Inv(s) && t < |s.th| && HasTicket(s.th[t]) && s.th[t].n == s.m.serving
    ensures GoesOn(s, t)
  {
    var pc := s.th[t];
    if !ServedTicket(pc) {
      var s1 := Step(s, Move(t, Lock, 1));
      InvAt(s, t);
      ExactTests(s.m, t, pc);
      hide Inv, LocalOk, AsInt32;
      if pc.TktSample? {
        assert s1.th[t] == TktWait(pc.n) && Head(s1.m) == Head(s.m);
        assert Step(s1, Move(t, Lock, 1)).th[t] == TktAdapt(pc.n);
      } else {
        assert s1.th[t] == TktAdapt(pc.n);
      }
    }
  }

  lemma QueueGoesOn(s: State, t: nat)
    requires Inv(s) && t < |s.th| && InMcs(s.th[t]) && Heads(s.m, t)
    ensures GoesOn(s, t)
  {
    hide Inv;
    var pc := s.th[t];
    if !ServedMcs(pc) {
      var s1 := Step(s, Move(t, Lock, 1));
      if pc.McsCount? {
        assert s1.th[t].McsWait? && s1.m.queue == s.m.queue;
        assert Step(s1, Move(t, Lock, 1)).th[t].McsAdapt?;
      } else {
        assert s1.th[t].McsAdapt?;
      }
    }
  }

  /** The three low-level locks go on, whether lock_type names them or not: the next of the
      outstanding tickets has its owner, a non-empty queue its head, a locked mutex its holder,
      and a free mutex takes whoever tries it next. A release that waits for the next thread's
      link is free to go on after one step of that thread. */
  ghost predicate AllGoOn(s: State) {
    && (s.m.serving <= s.m.issued ==>
          exists t :: 0 <= t < |s.th| && HasTicket(s.th[t]) && s.th[t].n == s.m.serving && GoesOn(s, t))
    && (s.m.queue != [] ==> s.m.queue[0] < |s.th| && GoesOn(s, s.m.queue[0]))
    && (s.m.locked ==> MutexHeld(s))
    && (!s.m.locked ==> forall t :: 0 <= t < |s.th| && s.th[t] == Chosen(Lock, MUTEX) ==> GoesOn(s, t))
    && (forall t :: 0 <= t < |s.th| && AwaitsLink(s.m, s.th[t], s.th) ==>
          var s' := Step(s, Move(s.m.queue[1], Lock, 1));
          |s'.th| == |s.th| && s'.th[t] == s.th[t] && !AwaitsLink(s'.m, s'.th[t], s'.th))
  }

  lemma LinkComes(s: State, t: nat)
    requires t < |s.th| && AwaitsLink(s.m, s.th[t], s.th)
    ensures var s' := Step(s, Move(s.m.queue[1], Lock, 1));
      |s'.th| == |s.th| && s'.th[t] == s.th[t] && !AwaitsLink(s'.m, s'.th[t], s'.th)
  {
    var s' := Step(s, Move(s.m.queue[1], Lock, 1));
    assert s'.th[s.m.queue[1]].McsWait? && s'.m.queue == s.m.queue;
  }

  lemma GoOn(s: State)
    requires Inv(s) && Owned(s)
    ensures AllGoOn(s)
  {
    if s.m.serving <= s.m.issued {
      assert Ticketed(s, s.m.serving);
      var t :| 0 <= t < |s.th| && HasTicket(s.th[t]) && s.th[t].n == s.m.serving;
      TicketGoesOn(s, t);
    }
    if s.m.queue != [] {
      assert s.m.queue[0] < |s.th| && InMcs(s.th[s.m.queue[0]]);
      QueueGoesOn(s, s.m.queue[0]);
    }
    forall t | 0 <= t < |s.th| && s.th[t] == Chosen(Lock, MUTEX) && !s.m.locked
      ensures GoesOn(s, t)
    {
      assert Step(s, Move(t, Lock, 1)).th[t].MtxAdapt?;
    }
    hide Inv, GoesOn;
    forall t | 0 <= t < |s.th| && AwaitsLink(s.m, s.th[t], s.th)
      ensures var s' := Step(s, Move(s.m.queue[1], Lock, 1));
        |s'.th| == |s.th| && s'.th[t] == s.th[t] && !AwaitsLink(s'.m, s'.th[t], s'.th)
    {
      LinkComes(s, t);
    }
    hide Step, AwaitsLink;
  }

  lemma AlwaysGoesOn(n: nat, mp: bool, sched: seq<Event>)
    requires n <= MAX_THREADS && TimelyRun(Init(n, mp), sched)
    ensures AllGoOn(Run(Init(n, mp), sched))
  {
    ReachableOwned(n, mp, sched);
    hide Run, Inv, Owned, AllGoOn;
    GoOn(Run(Init(n, mp), sched));
  }

  /** Nobody has the low-level lock right after its release. */
  lemma ReleaseFrees(s: State, t: nat, op: Op, len: nat, u: nat)
    requires Inv(s) && t < |s.th| && u < |s.th| && s.th[t].Release? && !AwaitsLink(s.m, s.th[t], s.th)
    ensures var s' := Step(s, Move(t, op, len)); !HoldsLow(s'.m, u, s'.th[u], s.th[t].ty)
  {
    InvAt(s, t);
    InvAt(s, u);
    if u != t && HasTicket(s.th[u]) && HasTicket(s.th[t]) { assert s.th[u].n != s.th[t].n; }
    if u != t { assert !(HasMutex(s.th[t]) && HasMutex(s.th[u])); }
    hide Inv, TypeOk, StepTicket, StepMcs, StepMutex, StepAcquire;
  }

  /** A release, in unlock or on the way to another round, passes the low-level lock on: its
      holder had it, nobody has it afterwards, and the next in line goes on. */
  lemma ReleasePassesOn(n: nat, mp: bool, sched: seq<Event>, t: nat, op: Op, len: nat)
    requires n <= MAX_THREADS && TimelyRun(Init(n, mp), sched + [Move(t, op, len)])
    requires var s := Run(Init(n, mp), sched); t < |s.th| && s.th[t].Release? && !AwaitsLink(s.m, s.th[t], s.th)
    ensures var s := Run(Init(n, mp), sched);
      var s', ty := Step(s, Move(t, op, len)), s.th[t].ty;
      && HoldsLow(s.m, t, s.th[t], ty)
      && (forall u :: 0 <= u < |s'.th| ==> !HoldsLow(s'.m, u, s'.th[u], ty))
      && AllGoOn(s')
  {
    var e := Move(t, op, len);
    assert (sched + [e])[..|sched|] == sched;
    var s := Run(Init(n, mp), sched);
    var s' := Step(s, e);
    ReachableOwned(n, mp, sched + [e]);
    Reachable(n, mp, sched);
    UnlockReleasesHeldLock(n, mp, sched, t);
    StepSize(s, e);
    hide Run, Inv, Owned, AllGoOn, HoldsLow, Step;
    GoOn(s');
    forall u | 0 <= u < |s'.th|
      ensures !HoldsLow(s'.m, u, s'.th[u], s.th[t].ty)
    {
      ReleaseFrees(s, t, op, len, u);
    }
  }
}
