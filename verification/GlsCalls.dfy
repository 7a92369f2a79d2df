/** What a call to the locking service comes to when no other thread moves meanwhile: gls_trylock
    returns in any case, gls_lock returns with the lock as soon as nobody is in it, gls_unlock
    returns, and what they return with. */
module GlsCalls {
  import opened Gls
  import G = Glk
  import K = GlkSafety
  import P = GlkProgress
  import A = GlkAlone
  import T = ConcurrentTable
  import S = ConcurrentTableSafety
  import R = ConcurrentTableProgress

  // ----- every lock is owned as module GlkProgress has it

  ghost predicate AllOwned(locks: seq<G.State>) {
    forall l :: 0 <= l < |locks| ==> P.Owned(locks[l])
  }

  lemma LocksOwned(locks: seq<G.State>, n: nat, t: nat, ask: Ask)
    requires LocksOk(locks, n) && LocksTimely(locks) && AllOwned(locks)
    ensures AllOwned(StepLocks(locks, t, ask))
  {
    hide K.Inv, P.Owned, G.Step, G.AllTimely;
    if ask.Glk? && 1 <= ask.lock <= |locks| {
      P.StepKeepsOwned(locks[ask.lock - 1], G.Move(t, ask.op, ask.len));
    }
  }

  lemma NewOwned(locks: seq<G.State>, count: nat, n: nat, mp: bool)
    requires AllOwned(locks)
    ensures AllOwned(Allocated(locks, count, n, mp))
  {
    InitOwned(n, mp);
    hide P.Owned, G.Init;
  }

  lemma InitOwned(n: nat, mp: bool)
    ensures P.Owned(G.Init(n, mp))
  {
  }

  lemma StepKeepsOwned(s: State, e: Event)
    requires Inv(s) && LocksTimely(s.locks) && AllOwned(s.locks)
    ensures AllOwned(Step(s, e).locks)
  {
    hide K.Inv, P.Owned, G.Step, G.AllTimely, S.Inv, ThreadOk, Injective, StepThread, InLock, StepLocks, Allocated;
    hide T.Map;
    match e
    case SetMp(mp) =>
      forall l | 0 <= l < |s.locks|
        ensures P.Owned(G.Step(s.locks[l], G.SetMp(mp)))
      {
        P.StepKeepsOwned(s.locks[l], G.SetMp(mp));
      }
    case Move(t, choice) =>
      if t < |s.th| {
        var v := StepThread(s.th[t], s.table.th[t], InLock(s, t), choice);
        hide AllOwned;
        LocksOwned(s.locks, |s.th|, t, v.ask);
        NewOwned(StepLocks(s.locks, t, v.ask), StepTable(s.table, t, v.ask).m.locks, |s.th|, s.mp);
      }
  }

  lemma {:induction false} ReachableOwned(n: nat, numBuckets: nat, mp: bool, sched: seq<Event>)
    requires n <= G.MAX_THREADS && numBuckets >= 1 && TimelyRun(Init(n, numBuckets, mp), sched)
    ensures var s := Run(Init(n, numBuckets, mp), sched);
      Inv(s) && AllOwned(s.locks) && LocksTimely(s.locks) && |s.th| == n
  {
    hide Inv, Step, AllOwned, LocksTimely;
    Reachable(n, numBuckets, mp, sched);
    if sched == [] {
      assert AllOwned([]) by { NothingOwned(); }
    } else {
      var s := Run(Init(n, numBuckets, mp), sched[..|sched| - 1]);
      ReachableOwned(n, numBuckets, mp, sched[..|sched| - 1]);
      StepKeepsOwned(s, sched[|sched| - 1]);
    }
  }

  lemma NothingOwned()
    ensures AllOwned([])
  {
  }

  // ----- a call and its steps in the lock

  /** `k` steps of thread `t` alone. */
  function Solo(s: State, t: nat, k: nat): State
    decreases k
  {
    if k == 0 then s else Solo(Step(s, Move(t, Continue(0, 1))), t, k - 1)
  }

  lemma SoloMore(s: State, t: nat, k: nat)
    requires k > 0
    ensures Solo(s, t, k) == Solo(Step(s, Move(t, Continue(0, 1))), t, k - 1)
  {
  }

  lemma SoloNone(s: State, t: nat)
    ensures Solo(s, t, 0) == s
  {
  }

  /** The thread is inside glk_lock, glk_trylock or glk_unlock on this lock. */
  predicate Calls(s: State, t: nat, lock: nat) {
    && t < |s.th| == |s.table.th| && 1 <= lock <= |s.locks| == s.table.m.locks
    && |s.locks[lock - 1].th| == |s.th|
    && (s.th[t].pc.LockRun? || s.th[t].pc.UnlockRun?) && s.th[t].pc.lock == lock
  }

  function Place(s: State, t: nat, lock: nat): G.Pc
    requires Calls(s, t, lock)
  {
    s.locks[lock - 1].th[t]
  }

  /** gls_lock returns only from the critical section, the other calls also without. */
  predicate Ends(pc: Pc, place: G.Pc) {
    match pc
    case LockRun(_, _, try_) => place.Critical? || (try_ && place.Idle?)
    case _ => place.Idle?
  }

  function Ended(own: Thread, place: G.Pc): Thread {
    own.(pc := Out, held := if own.pc.LockRun? && place.Critical? then own.held + {own.pc.addr} else own.held)
  }

  lemma OneStep(s: State, t: nat, lock: nat)
    requires Calls(s, t, lock)
    ensures var s1 := Step(s, Move(t, Continue(0, 1)));
      if Ends(s.th[t].pc, Place(s, t, lock)) then s1 == s.(th := s.th[t := Ended(s.th[t], Place(s, t, lock))])
      else
        var op := if s.th[t].pc.LockRun? then LockOp(s.th[t].pc.try_) else G.Op.Lock;
        s1 == s.(locks := s.locks[lock - 1 := G.Step(s.locks[lock - 1], G.Move(t, op, 1))])
  {
    hide G.Step, T.Step;
    assert InLock(s, t) == Place(s, t, lock);
    assert s.th[t := s.th[t]] == s.th;
  }

  function OpOf(pc: Pc): G.Op {
    if pc.LockRun? then LockOp(pc.try_) else G.Op.Lock
  }

  lemma {:induction false} CallReturns(s: State, t: nat, lock: nat, k: nat) returns (j: nat)
    requires Calls(s, t, lock)
    requires var g := A.Call(s.locks[lock - 1], t, OpOf(s.th[t].pc), k); t < |g.th| && Ends(s.th[t].pc, g.th[t])
    ensures j <= k + 1
    ensures var g := A.Call(s.locks[lock - 1], t, OpOf(s.th[t].pc), k);
      Solo(s, t, j) == s.(locks := s.locks[lock - 1 := g], th := s.th[t := Ended(s.th[t], g.th[t])])
    decreases k
  {
    hide Solo, Step, G.Step, Ended;
    var g := s.locks[lock - 1];
    OneStep(s, t, lock);
    var s1 := Step(s, Move(t, Continue(0, 1)));
    if Ends(s.th[t].pc, Place(s, t, lock)) {
      j := 1;
      A.Over(g, t, OpOf(s.th[t].pc), k);
      SoloNone(s1, t);
      assert s.locks[lock - 1 := g] == s.locks;
    } else {
      K.StepSize(g, G.Move(t, OpOf(s.th[t].pc), 1));
      var i := CallReturns(s1, t, lock, k - 1);
      j := i + 1;
      var g' := A.Call(g, t, OpOf(s.th[t].pc), k);
      assert s1.locks[lock - 1 := g'] == s.locks[lock - 1 := g'];
    }
    SoloMore(s, t, j);
  }

  lemma CallStarts(s: State, t: nat, lock: nat)
    requires t < |s.th| == |s.table.th| && 1 <= lock <= |s.locks| == s.table.m.locks
    requires |s.locks[lock - 1].th| == |s.th|
    requires (s.th[t].pc.LockStart? || s.th[t].pc.UnlockStart?) && s.th[t].pc.lock == lock
    ensures var own := s.th[t];
      var own1 := if own.pc.LockStart? then own.(pc := LockRun(own.pc.addr, lock, own.pc.try_))
                  else own.(pc := UnlockRun(own.pc.addr, lock), held := own.held - {own.pc.addr});
      var s1 := Step(s, Move(t, Continue(0, 1)));
      && s1 == s.(locks := s.locks[lock - 1 := G.Step(s.locks[lock - 1], G.Move(t, OpOf(own1.pc), 1))],
                  th := s.th[t := own1])
      && Calls(s1, t, lock)
  {
    hide G.Step, T.Step;
    K.StepSize(s.locks[lock - 1], G.Move(t, if s.th[t].pc.LockStart? then LockOp(s.th[t].pc.try_) else G.Op.Lock, 1));
  }

  /** gls_trylock, from the lookup on, returns after at most seven steps: with the address held
      exactly if nobody is in the low-level lock that the address's lock goes by, and otherwise
      without any trace. */
  lemma TryLockAlone(n: nat, numBuckets: nat, mp: bool, sched: seq<Event>, t: nat) returns (j: nat)
    requires n <= G.MAX_THREADS && numBuckets >= 1 && TimelyRun(Init(n, numBuckets, mp), sched)
    requires var s := Run(Init(n, numBuckets, mp), sched);
      t < |s.th| && s.th[t].pc.LockStart? && s.th[t].pc.try_
    ensures var s := Run(Init(n, numBuckets, mp), sched);
      var s', lock, own := Solo(s, t, j), s.th[t].pc.lock, s.th[t];
      && j <= 7 && Leads(s.locks, n, lock, t) && s'.table == s.table && |s'.th| == |s.th|
      && var g := s.locks[lock - 1];
         if A.NobodyIn(g.th, g.m.lockType) then s'.th[t] == own.(pc := Out, held := own.held + {own.pc.addr})
         else s' == s.(th := s.th[t := own.(pc := Out)])
  {
    hide Run, Inv, AllOwned, LocksTimely, TimelyRun, Solo, Leads;
    ReachableOwned(n, numBuckets, mp, sched);
    j := TryRuns(Run(Init(n, numBuckets, mp), sched), t);
  }

  lemma TryRuns(s: State, t: nat) returns (j: nat)
    requires Inv(s) && AllOwned(s.locks) && t < |s.th| && s.th[t].pc.LockStart? && s.th[t].pc.try_
    ensures var s', lock, own := Solo(s, t, j), s.th[t].pc.lock, s.th[t];
      && j <= 7 && Leads(s.locks, |s.th|, lock, t) && s'.table == s.table && |s'.th| == |s.th|
      && var g := s.locks[lock - 1];
         if A.NobodyIn(g.th, g.m.lockType) then s'.th[t] == own.(pc := Out, held := own.held + {own.pc.addr})
         else s' == s.(th := s.th[t := own.(pc := Out)])
  {
    hide Inv, AllOwned, Solo, Step, G.Step, A.Call, A.NobodyIn, K.Inv, P.Owned, T.Map;
    LockAt(s, t);
    SizesAt(s, t, s.th[t].pc.lock);
    var own, lock := s.th[t], s.th[t].pc.lock;
    var g := s.locks[lock - 1];
    var s1 := Step(s, Move(t, Continue(0, 1)));
    CallStarts(s, t, lock);
    A.TryAlone(g, t, 5);
    var g' := A.Call(G.Step(g, G.Move(t, G.Op.TryLock, 1)), t, G.Op.TryLock, 5);
    assert t < |g'.th| && (g'.th[t].Critical? || g'.th[t].Idle?);
    var i := CallReturns(s1, t, lock, 5);
    j := i + 1;
    SoloMore(s, t, j);
    assert s1.locks[lock - 1 := g'] == s.locks[lock - 1 := g'] && s.locks[lock - 1 := g] == s.locks;
  }

  lemma SizesAt(s: State, t: nat, lock: nat)
    requires Inv(s) && AllOwned(s.locks) && t < |s.th| && 1 <= lock <= |s.locks|
    ensures |s.th| == |s.table.th| && |s.locks| == s.table.m.locks
    ensures |s.locks[lock - 1].th| == |s.th| && K.Inv(s.locks[lock - 1]) && P.Owned(s.locks[lock - 1])
  {
    hide K.Inv, P.Owned, S.Inv, ThreadOk, Injective;
  }

  /** gls_lock, from the lookup on, returns with the address held as soon as nobody is in the
      address's lock. */
  lemma LockAlone(n: nat, numBuckets: nat, mp: bool, sched: seq<Event>, t: nat) returns (j: nat)
    requires n <= G.MAX_THREADS && numBuckets >= 1 && TimelyRun(Init(n, numBuckets, mp), sched)
    requires var s := Run(Init(n, numBuckets, mp), sched);
      && t < |s.th| && s.th[t].pc.LockStart? && !s.th[t].pc.try_
      && (Leads(s.locks, n, s.th[t].pc.lock, t) ==> A.NobodyInside(s.locks[s.th[t].pc.lock - 1].th))
    ensures var s := Run(Init(n, numBuckets, mp), sched);
      var s', own := Solo(s, t, j), s.th[t];
      |s'.th| == |s.th| && s'.th[t] == own.(pc := Out, held := own.held + {own.pc.addr})
  {
    hide Run, Inv, AllOwned, LocksTimely, TimelyRun, Solo, Leads, A.NobodyInside;
    ReachableOwned(n, numBuckets, mp, sched);
    j := LockRuns(Run(Init(n, numBuckets, mp), sched), t);
  }

  lemma LockRuns(s: State, t: nat) returns (j: nat)
    requires Inv(s) && AllOwned(s.locks) && t < |s.th| && s.th[t].pc.LockStart? && !s.th[t].pc.try_
    requires Leads(s.locks, |s.th|, s.th[t].pc.lock, t) ==> A.NobodyInside(s.locks[s.th[t].pc.lock - 1].th)
    ensures var s', own := Solo(s, t, j), s.th[t];
      |s'.th| == |s.th| && s'.th[t] == own.(pc := Out, held := own.held + {own.pc.addr})
  {
    hide Inv, AllOwned, Solo, Step, G.Step, A.Call, A.NobodyIn, K.Inv, P.Owned, T.Map;
    LockAt(s, t);
    SizesAt(s, t, s.th[t].pc.lock);
    var own, lock := s.th[t], s.th[t].pc.lock;
    var g := s.locks[lock - 1];
    CallStarts(s, t, lock);
    var k := A.IdleEnters(g, t);
    var i := CallReturns(Step(s, Move(t, Continue(0, 1))), t, lock, k);
    j := i + 1;
    SoloMore(s, t, j);
  }

  /** gls_unlock, from the lookup on, returns after three steps, unless the next thread in the MCS
      queue has yet to link itself, and its thread is out of the lock. */
  lemma UnlockAlone(n: nat, numBuckets: nat, mp: bool, sched: seq<Event>, t: nat)
    requires n <= G.MAX_THREADS && numBuckets >= 1 && TimelyRun(Init(n, numBuckets, mp), sched)
    requires var s := Run(Init(n, numBuckets, mp), sched); t < |s.th| && s.th[t].pc.UnlockStart?
    ensures var s := Run(Init(n, numBuckets, mp), sched);
      var s3, lock, own := Solo(s, t, 3), s.th[t].pc.lock, s.th[t];
      && Leads(s.locks, n, lock, t)
      && var g := s.locks[lock - 1];
         (!G.AwaitsLink(g.m, G.Release(g.m.lockType, 0, G.Finish), g.th) ==>
           s3 == s.(th := s.th[t := own.(pc := Out, held := own.held - {own.pc.addr})],
                    locks := s.locks[lock - 1 := G.State(G.ReleaseLow(g.m, g.m.lockType), g.th[t := G.Idle])]))
  {
    hide Run, Inv, AllOwned, LocksTimely, TimelyRun, Solo, Leads, G.AwaitsLink, G.ReleaseLow;
    ReachableOwned(n, numBuckets, mp, sched);
    UnlockRuns(Run(Init(n, numBuckets, mp), sched), t);
  }

  lemma UnlockRuns(s: State, t: nat)
    requires Inv(s) && AllOwned(s.locks) && t < |s.th| && s.th[t].pc.UnlockStart?
    ensures var s3, lock, own := Solo(s, t, 3), s.th[t].pc.lock, s.th[t];
      && Leads(s.locks, |s.th|, lock, t)
      && var g := s.locks[lock - 1];
         (!G.AwaitsLink(g.m, G.Release(g.m.lockType, 0, G.Finish), g.th) ==>
           s3 == s.(th := s.th[t := own.(pc := Out, held := own.held - {own.pc.addr})],
                    locks := s.locks[lock - 1 := G.State(G.ReleaseLow(g.m, g.m.lockType), g.th[t := G.Idle])]))
  {
    hide Inv, AllOwned, Solo, Step, K.Inv, P.Owned, T.Map, G.Step, G.ReleaseLow, G.AwaitsLink;
    UnlockAt(s, t);
    SizesAt(s, t, s.th[t].pc.lock);
    var lock := s.th[t].pc.lock;
    var g := s.locks[lock - 1];
    if !G.AwaitsLink(g.m, G.Release(g.m.lockType, 0, G.Finish), g.th) {
      var e := G.Move(t, G.Op.Lock, 1);
      var g2 := G.State(G.ReleaseLow(g.m, g.m.lockType), g.th[t := G.Idle]);
      TwoSteps(g, t);
      CallStarts(s, t, lock);
      var s1 := Step(s, Move(t, Continue(0, 1)));
      OneStep(s1, t, lock);
      var s2 := Step(s1, Move(t, Continue(0, 1)));
      OneStep(s2, t, lock);
      SoloMore(s, t, 3);
      SoloMore(s1, t, 2);
      SoloMore(s2, t, 1);
      SoloNone(Step(s2, Move(t, Continue(0, 1))), t);
      assert s1.locks[lock - 1 := g2] == s.locks[lock - 1 := g2];
    }
  }

  lemma TwoSteps(g: G.State, t: nat)
    requires t < |g.th| && g.th[t].Critical? && !G.AwaitsLink(g.m, G.Release(g.m.lockType, 0, G.Finish), g.th)
    ensures var e := G.Move(t, G.Op.Lock, 1);
      var g1 := G.Step(g, e);
      && |g1.th| == |g.th| && g1.th[t].Release?
      && G.Step(g1, e) == G.State(G.ReleaseLow(g.m, g.m.lockType), g.th[t := G.Idle])
  {
    hide G.ReleaseLow, G.StepTicket, G.StepMcs, G.StepMutex, G.StepAcquire;
    var g1 := G.Step(g, G.Move(t, G.Op.Lock, 1));
    assert g1.th == g.th[t := G.Release(g.m.lockType, g.th[t].n, G.Finish)];
    assert g1.th[t := G.Idle] == g.th[t := G.Idle];
  }

  /** A call of gls_lock or gls_trylock returns with the address held exactly from the critical
      section; gls_lock in no other way. */
  lemma LockReturns(n: nat, numBuckets: nat, mp: bool, sched: seq<Event>, t: nat, choice: Choice)
    requires n <= G.MAX_THREADS && numBuckets >= 1 && t < n && TimelyRun(Init(n, numBuckets, mp), sched)
    ensures var s := Run(Init(n, numBuckets, mp), sched);
      var s' := Step(s, Move(t, choice));
      && |s.th| == |s'.th| == n
      && var pc := s.th[t].pc;
         ((pc.LockLookup? || pc.LockStart? || pc.LockRun?) && s'.th[t].pc.Out? ==>
           && pc.LockRun? && Leads(s.locks, n, pc.lock, t)
           && s'.th[t].held == s.th[t].held + (if s.locks[pc.lock - 1].th[t].Critical? then {pc.addr} else {})
           && (!pc.try_ ==> pc.addr in s'.th[t].held))
  {
    hide Run, Inv, TimelyRun, T.Step, StepLocks, Allocated, T.Map;
    Reachable(n, numBuckets, mp, sched);
    var s := Run(Init(n, numBuckets, mp), sched);
    RunAt(s, t);
  }

  lemma RunAt(s: State, t: nat)
    requires Inv(s) && t < |s.th|
    ensures |s.table.th| == |s.th|
    ensures s.th[t].pc.LockRun? ==>
      Leads(s.locks, |s.th|, s.th[t].pc.lock, t) && InLock(s, t) == s.locks[s.th[t].pc.lock - 1].th[t]
  {
    hide Inv, T.Map, ThreadOk, Places;
    InvAt(s, t);
    if s.th[t].pc.LockRun? { PlaceOf(s, t, s.th[t].pc.lock); }
  }

  // ----- the lookup of gls_unlock

  lemma {:induction false} UnlockLooksUp(s: State, t: nat) returns (j: nat)
    requires t < |s.th| == |s.table.th| && s.th[t].pc.UnlockLookup? && |s.locks| == s.table.m.locks
    requires R.Gets(s.table.th[t]) || s.table.th[t].GetDone?
    ensures j <= if s.table.th[t].GetDone? then 1 else R.GetRank(s.table.m, s.table.th[t]) + 1
    ensures var s' := Solo(s, t, j);
      && |s'.th| == |s.th| && s'.locks == s.locks && s'.table.m == s.table.m
      && s'.th[t].pc.UnlockStart? && s'.th[t].pc.addr == s.th[t].pc.addr && s'.th[t].held == s.th[t].held
    decreases if s.table.th[t].GetDone? then 0 else R.GetRank(s.table.m, s.table.th[t])
  {
    hide Solo, Step, T.StepThread, R.GetRank;
    var s1 := Step(s, Move(t, Continue(0, 1)));
    LookupStep(s, t);
    if s.table.th[t].GetDone? {
      j := 1;
      SoloNone(s1, t);
    } else {
      R.PositiveGet(s.table.m, s.table.th[t]);
      R.GetStep(s.table.m, s.table.th[t], T.Advance(0));
      var i := UnlockLooksUp(s1, t);
      j := i + 1;
    }
    SoloMore(s, t, j);
  }

  lemma LookupStep(s: State, t: nat)
    requires t < |s.th| == |s.table.th| && s.th[t].pc.UnlockLookup? && |s.locks| == s.table.m.locks
    requires R.Gets(s.table.th[t]) || s.table.th[t].GetDone?
    ensures var s1 := Step(s, Move(t, Continue(0, 1)));
      var pc, own := s.table.th[t], s.th[t];
      if pc.GetDone? then
        s1 == s.(th := s.th[t := own.(pc := UnlockStart(own.pc.addr, pc.lock))],
                 table := s.table.(th := s.table.th[t := T.Idle]))
      else s1 == s.(table := T.State(s.table.m, s.table.th[t := T.StepThread(s.table.m, pc, T.Advance(0)).pc]))
  {
    hide T.StepThread;
    var pc := s.table.th[t];
    if pc.GetDone? {
      SimpleAsk(s.table.m, pc, T.Return);
      DoneKeepsMemory(s.table.m, pc);
    } else {
      R.GetStep(s.table.m, pc, T.Advance(0));
      assert s.th[t := s.th[t]] == s.th;
    }
  }

  lemma DoneKeepsMemory(m: T.Mem, pc: T.Pc)
    requires pc.GetDone?
    ensures T.StepThread(m, pc, T.Return).m == m
  {
    hide T.StepHolder, T.StepResize, T.BinOf;
  }

  /** gls_unlock whose address is not in the cache gets through the table by itself, whatever
      the others have left half done there. */
  lemma UnlockLookupAlone(n: nat, numBuckets: nat, mp: bool, sched: seq<Event>, t: nat) returns (j: nat)
    requires n <= G.MAX_THREADS && numBuckets >= 1 && TimelyRun(Init(n, numBuckets, mp), sched)
    requires var s := Run(Init(n, numBuckets, mp), sched); t < |s.th| && s.th[t].pc.UnlockLookup?
    ensures var s := Run(Init(n, numBuckets, mp), sched);
      var s', own := Solo(s, t, j), s.th[t];
      && |s'.th| == |s.th| && s'.locks == s.locks && s'.th[t].pc.UnlockStart? && s'.th[t].pc.addr == own.pc.addr
      && s'.th[t].held == own.held
  {
    hide Run, TimelyRun, Solo, Inv, T.Map;
    Reachable(n, numBuckets, mp, sched);
    var s := Run(Init(n, numBuckets, mp), sched);
    InvAt(s, t);
    SameCount(s);
    hide R.GetRank, InLock, Places, LocksOk, Fits;
    j := UnlockLooksUp(s, t);
  }

  lemma SameCount(s: State)
    requires Inv(s)
    ensures |s.locks| == s.table.m.locks
  {
    hide S.Inv, K.Inv, ThreadOk, T.Map;
  }
}
