/** The bound on the number of threads carries over from the adaptive lock to the locking
    service: all threads lock one address, whose lock pointer each of them looks up once and
    then finds in its cache, and follow the schedule of module GlkOverflow in that lock. */
module GlsOverflow {
  import opened Gls
  import G = Glk
  import O = GlkOverflow
  import T = ConcurrentTable
  import Tables

  /** The address. */
  const A := 1

  /** Nobody calls gls_trylock. */
  predicate LockOnly(sched: seq<Event>) {
    forall i :: 0 <= i < |sched| ==> sched[i].Move? && sched[i].choice.Lock? ==> !sched[i].choice.try_
  }

  ghost predicate Reaches(s: State, s': State) {
    exists sched :: LockOnly(sched) && Run(s, sched) == s'
  }

  lemma {:induction false} RunConcat(s: State, a: seq<Event>, b: seq<Event>)
    ensures Run(s, a + b) == Run(Run(s, a), b)
  {
    hide Step;
    if b == [] {
      assert a + b == a;
    } else {
      RunConcat(s, a, b[..|b| - 1]);
      assert (a + b)[..|a + b| - 1] == a + b[..|b| - 1];
    }
  }

  /** One more step at the end of a run. */
  lemma Extend(s0: State, s: State, e: Event) returns (s': State)
    requires Reaches(s0, s) && LockOnly([e])
    ensures Reaches(s0, s') && s' == Step(s, e)
  {
    hide Step;
    s' := Step(s, e);
    var a :| LockOnly(a) && Run(s0, a) == s;
    RunConcat(s0, a, [e]);
    assert [e][..0] == [] && Run(s, []) == s;
    assert Run(s, [e]) == s' && LockOnly(a + [e]);
  }

  // ----- a thread that only uses its cache follows the machine of the lock

  /** What a thread does in the service while its place in the lock is `pc`. */
  function Client(pc: G.Pc): Thread {
    match pc
    case Idle => Thread(LockStart(A, 1, false), A, 1, {})
    case Critical(_, _) => Thread(Out, A, 1, {A})
    case Release(_, _, Finish) => Thread(UnlockRun(A, 1), A, 1, {})
    case _ => Thread(LockRun(A, 1, false), A, 1, {})
  }

  ghost predicate Mirrors(s: State, g: G.State) {
    && s.locks == [g] && s.table.m.locks == 1 && |s.table.th| == |s.th| == |g.th|
    && forall t :: 0 <= t < |s.th| ==> s.th[t] == Client(g.th[t]) && O.Locking(g.th[t])
  }

  /** A step that asks nothing of the table. */
  lemma CachedStep(s: State, g: G.State, t: nat, choice: Choice, v: View)
    requires s.locks == [g] && s.table.m.locks == 1 && t < |s.th| == |s.table.th|
    requires v == StepThread(s.th[t], s.table.th[t], InLock(s, t), choice)
    requires !v.ask.Table? && (v.ask.Glk? ==> v.ask.lock == 1)
    ensures Step(s, Move(t, choice)) ==
      s.(th := s.th[t := v.own],
         locks := [if v.ask.Glk? then G.Step(g, G.Move(t, v.ask.op, v.ask.len)) else g])
  {
    hide StepThread, G.Step, InLock;
  }

  /** A thread in the lock goes on to another place there. */
  lemma Onward(s0: State, s: State, g: G.State, t: nat, len: nat) returns (s': State)
    requires Reaches(s0, s) && Mirrors(s, g) && t < |s.th| && !g.th[t].Idle? && !g.th[t].Critical?
    ensures Reaches(s0, s')
    ensures s' == s.(locks := [G.Step(g, G.Move(t, G.Op.Lock, len))])
  {
    hide G.Step, Step, Reaches, O.Locking;
    var own := s.th[t];
    assert own == Client(g.th[t]) && InLock(s, t) == g.th[t];
    CachedStep(s, g, t, Continue(0, len), View(own, Glk(1, G.Op.Lock, len)));
    assert s.th[t := own] == s.th;
    s' := Extend(s0, s, Move(t, Continue(0, len)));
  }

  lemma Enter(s0: State, s: State, g: G.State, t: nat, len: nat) returns (s': State)
    requires Reaches(s0, s) && Mirrors(s, g) && t < |s.th| && g.th[t].Idle?
    ensures Reaches(s0, s')
    ensures s' == s.(locks := [G.Step(g, G.Move(t, G.Op.Lock, len))], th := s.th[t := Client(G.ReadType(G.Op.Lock))])
  {
    hide G.Step, Step, Reaches, O.Locking;
    assert s.th[t] == Client(g.th[t]);
    CachedStep(s, g, t, Continue(0, len), View(Client(G.ReadType(G.Op.Lock)), Glk(1, G.Op.Lock, len)));
    s' := Extend(s0, s, Move(t, Continue(0, len)));
  }

  lemma Leave(s0: State, s: State, g: G.State, t: nat, len: nat) returns (s': State)
    requires Reaches(s0, s) && Mirrors(s, g) && t < |s.th| && g.th[t].Critical?
    ensures Reaches(s0, s')
    ensures s' == s.(locks := [G.Step(g, G.Move(t, G.Op.Lock, len))],
                     th := s.th[t := Client(G.Release(G.TICKET, 0, G.Finish))])
  {
    hide G.Step, Step, Reaches, O.Locking;
    var own := s.th[t];
    assert own == Client(g.th[t]);
    CachedStep(s, g, t, Unlock(A), View(own.(pc := UnlockStart(A, 1)), Nothing));
    var s1 := Extend(s0, s, Move(t, Unlock(A)));
    var own' := Client(G.Release(G.TICKET, 0, G.Finish));
    assert {A} - {A} == {};
    CachedStep(s1, g, t, Continue(0, len), View(own', Glk(1, G.Op.Lock, len)));
    s' := Extend(s0, s1, Move(t, Continue(0, len)));
    assert s1.th[t := own'] == s.th[t := own'];
  }

  /** The service notices that the lock operation has ended. */
  lemma Entered(s0: State, s: State, g: G.State, t: nat) returns (s': State)
    requires Reaches(s0, s) && s.locks == [g] && s.table.m.locks == 1 && t < |s.th| == |s.table.th| == |g.th|
    requires s.th[t] == Thread(LockRun(A, 1, false), A, 1, {}) && g.th[t].Critical?
    ensures Reaches(s0, s') && s' == s.(th := s.th[t := Client(g.th[t])])
  {
    hide G.Step, Step, Reaches;
    assert {} + {A} == {A};
    CachedStep(s, g, t, Continue(0, 0), View(Client(g.th[t]), Nothing));
    s' := Extend(s0, s, Move(t, Continue(0, 0)));
  }

  lemma Left(s0: State, s: State, g: G.State, t: nat) returns (s': State)
    requires Reaches(s0, s) && s.locks == [g] && s.table.m.locks == 1 && t < |s.th| == |s.table.th| == |g.th|
    requires s.th[t] == Thread(UnlockRun(A, 1), A, 1, {}) && g.th[t].Idle?
    ensures Reaches(s0, s') && s' == s.(th := s.th[t := Client(g.th[t])])
  {
    hide G.Step, Step, Reaches;
    var own := Thread(Out, A, 1, {});
    CachedStep(s, g, t, Continue(0, 0), View(own, Nothing));
    var s1 := Extend(s0, s, Move(t, Continue(0, 0)));
    CachedStep(s1, g, t, Lock(A, false), View(Client(G.Idle), Nothing));
    s' := Extend(s0, s1, Move(t, Lock(A, false)));
    assert s1.th[t := Client(G.Idle)] == s.th[t := Client(G.Idle)];
  }

  /** Where a step leads, as far as the service sees it. */
  lemma NextPlace(m: G.Mem, t: nat, pc: G.Pc, len: nat)
    requires O.Locking(pc)
    ensures var pc' := G.StepThread(m, t, pc, G.Op.Lock, len).pc;
      && O.Locking(pc')
      && (pc.Idle? ==> pc' == G.ReadType(G.Op.Lock))
      && (pc.Critical? ==> Client(pc') == Client(G.Release(G.TICKET, 0, G.Finish)) && !pc'.Idle? && !pc'.Critical?)
      && (!pc.Idle? && !pc.Critical? ==>
            if pc'.Critical? then !(pc.Release? && pc.next.Finish?)
            else if pc'.Idle? then pc.Release? && pc.next.Finish?
            else Client(pc') == Client(pc))
  {
    hide G.AsInt32, G.ReleaseLow;
    O.LockingStays(m, t, pc, len);
  }

  /** Every step of the lock is some steps of the service. */
  lemma Mirrored(s0: State, s: State, g: G.State, e: G.Event) returns (s': State)
    requires Reaches(s0, s) && Mirrors(s, g) && (e.Move? ==> e.op == G.Op.Lock)
    ensures Reaches(s0, s') && Mirrors(s', G.Step(g, e))
  {
    hide G.StepThread, Step, Reaches, O.Locking;
    match e
    case SetMp(mp) =>
      s' := Extend(s0, s, SetMp(mp));
      MirrorsFlag(s, g, mp);
    case Move(t, op, len) =>
      if t >= |s.th| || G.AwaitsLink(g.m, g.th[t], g.th) {
        s' := s;
      } else {
        var g' := G.Step(g, e);
        NextPlace(g.m, t, g.th[t], len);
        hide G.AwaitsLink, G.Step;
        if g.th[t].Idle? {
          s' := Enter(s0, s, g, t, len);
        } else if g.th[t].Critical? {
          s' := Leave(s0, s, g, t, len);
        } else {
          s' := Onward(s0, s, g, t, len);
          if g'.th[t].Critical? {
            s' := Entered(s0, s', g', t);
          } else if g'.th[t].Idle? {
            s' := Left(s0, s', g', t);
          }
        }
      }
  }

  lemma MirrorsFlag(s: State, g: G.State, mp: bool)
    requires Mirrors(s, g)
    ensures Mirrors(Step(s, SetMp(mp)), G.Step(g, G.SetMp(mp)))
  {
    assert Step(s, SetMp(mp)).locks == [G.Step(g, G.SetMp(mp))];
    hide O.Locking;
  }

  lemma {:induction false} MirroredRun(s0: State, s: State, g: G.State, sched: seq<G.Event>) returns (s': State)
    requires Reaches(s0, s) && Mirrors(s, g) && O.LockOnly(sched)
    ensures Reaches(s0, s') && Mirrors(s', G.Run(g, sched))
  {
    hide Reaches, Mirrors, G.Step;
    if sched == [] {
      s' := s;
    } else {
      s' := MirroredRun(s0, s, g, sched[..|sched| - 1]);
      s' := Mirrored(s0, s', G.Run(g, sched[..|sched| - 1]), sched[|sched| - 1]);
    }
  }

  // ----- the first calls of gls_lock, which find no cache entry

  /** `k` steps of one thread alone in the table, as long as its put lasts. */
  function Alone(v: T.View, k: nat): T.View
    decreases k
  {
    if k == 0 then v
    else Alone(if v.pc.PutDone? then v else T.StepThread(v.m, v.pc, T.Advance(0)), k - 1)
  }

  lemma First(v: T.View, k: nat, w: T.View)
    requires k > 0 && !v.pc.PutDone? && T.StepThread(v.m, v.pc, T.Advance(0)) == w
    ensures Alone(v, k) == Alone(w, k - 1)
  {
  }

  /** The table of one bucket, in one of the states between the first two steps on it. */
  function Memory(lock: T.Lock, slot: Tables.Slot, locks: nat): T.Mem {
    T.Mem([T.Version([T.Bin(lock, [slot, Tables.Slot(0, 0), Tables.Slot(0, 0)])], 0, 1, false)], 0, false, locks)
  }

  lemma InMemory(m: T.Mem, lock: T.Lock, slot: Tables.Slot, locks: nat)
    requires m == Memory(lock, slot, locks)
    ensures T.BinOf(m, 0, A) == T.Bin(lock, [slot, Tables.Slot(0, 0), Tables.Slot(0, 0)])
    ensures forall l :: T.Locked(m, 0, A, l) == Memory(l, slot, locks)
    ensures forall c: Tables.Slot ::
      T.Filled(m, 0, A, T.BinOf(m, 0, A).slots[0 := c]) == Memory(lock, c, locks)
  {
    assert Tables.Hash(1, A) == 0;
    hide Tables.Hash;
    forall bin
      ensures T.WithBin(m, 0, 0, bin) == m.(versions := [m.versions[0].(bins := [bin])])
    {
      assert m.versions[0].bins[0 := bin] == [bin];
      assert T.WithBin(m, 0, 0, bin).versions == [m.versions[0].(bins := [bin])];
    }
    forall c: Tables.Slot
      ensures T.Filled(m, 0, A, T.BinOf(m, 0, A).slots[0 := c]) == Memory(lock, c, locks)
    {
      assert T.BinOf(m, 0, A).slots[0 := c] == [c, Tables.Slot(0, 0), Tables.Slot(0, 0)];
    }
  }

  lemma PutScans(m: T.Mem)
    requires m == Memory(T.Free, Tables.Slot(0, 0), 0)
    ensures Alone(T.View(m, T.PutRead(A)), 14) ==
      Alone(T.View(Memory(T.Update, Tables.Slot(0, 0), 0), T.Scan(A, 0, 0, 0, -1)), 7)
  {
    hide Alone, T.BinOf, T.Locked, Tables.Hash, T.Filled;
    InMemory(m, T.Free, Tables.Slot(0, 0), 0);
    First(T.View(m, T.PutRead(A)), 14, T.View(m, T.PutScan(A, 0, 0)));
    First(T.View(m, T.PutScan(A, 0, 0)), 13, T.View(m, T.PutScan(A, 0, 1)));
    First(T.View(m, T.PutScan(A, 0, 1)), 12, T.View(m, T.PutScan(A, 0, 2)));
    First(T.View(m, T.PutScan(A, 0, 2)), 11, T.View(m, T.PutScan(A, 0, 3)));
    First(T.View(m, T.PutScan(A, 0, 3)), 10, T.View(m, T.ImplRead(A, 0)));
    First(T.View(m, T.ImplRead(A, 0)), 9, T.View(m, T.Acquire(A, 0, 0)));
    First(T.View(m, T.Acquire(A, 0, 0)), 8, T.View(Memory(T.Update, Tables.Slot(0, 0), 0), T.Scan(A, 0, 0, 0, -1)));
  }

  lemma PutStores(m: T.Mem)
    requires m == Memory(T.Update, Tables.Slot(0, 0), 0)
    ensures Alone(T.View(m, T.Scan(A, 0, 0, 0, -1)), 7) ==
      Alone(T.View(Memory(T.Update, Tables.Slot(0, 0), 1), T.StoreVal(A, 0, 0, 0, 1)), 3)
  {
    hide Alone, T.BinOf, T.Locked, Tables.Hash, T.Filled;
    InMemory(m, T.Update, Tables.Slot(0, 0), 0);
    First(T.View(m, T.Scan(A, 0, 0, 0, -1)), 7, T.View(m, T.Scan(A, 0, 0, 1, 0)));
    First(T.View(m, T.Scan(A, 0, 0, 1, 0)), 6, T.View(m, T.Scan(A, 0, 0, 2, 0)));
    First(T.View(m, T.Scan(A, 0, 0, 2, 0)), 5, T.View(m, T.Scan(A, 0, 0, 3, 0)));
    First(T.View(m, T.Scan(A, 0, 0, 3, 0)), 4,
      T.View(Memory(T.Update, Tables.Slot(0, 0), 1), T.StoreVal(A, 0, 0, 0, 1)));
  }

  lemma PutEnds(m: T.Mem)
    requires m == Memory(T.Update, Tables.Slot(0, 0), 1)
    ensures Alone(T.View(m, T.StoreVal(A, 0, 0, 0, 1)), 3) ==
      T.View(Memory(T.Free, Tables.Slot(A, 1), 1), T.PutDone(A, 1))
  {
    hide T.BinOf, T.Locked, Tables.Hash, T.Filled;
    var m1, m2 := Memory(T.Update, Tables.Slot(0, 1), 1), Memory(T.Update, Tables.Slot(A, 1), 1);
    InMemory(m, T.Update, Tables.Slot(0, 0), 1);
    InMemory(m1, T.Update, Tables.Slot(0, 1), 1);
    InMemory(m2, T.Update, Tables.Slot(A, 1), 1);
    First(T.View(m, T.StoreVal(A, 0, 0, 0, 1)), 3, T.View(m1, T.StoreKey(A, 0, 0, 0, 1)));
    First(T.View(m1, T.StoreKey(A, 0, 0, 0, 1)), 2, T.View(m2, T.Release(A, 0, 0, 1, false)));
    First(T.View(m2, T.Release(A, 0, 0, 1, false)), 1, T.View(Memory(T.Free, Tables.Slot(A, 1), 1), T.PutDone(A, 1)));
  }

  lemma PutFinds(m: T.Mem)
    requires m == Memory(T.Free, Tables.Slot(A, 1), 1)
    ensures Alone(T.View(m, T.PutRead(A)), 3) == T.View(m, T.PutDone(A, 1))
  {
    hide T.BinOf, T.Locked, Tables.Hash, T.Filled;
    InMemory(m, T.Free, Tables.Slot(A, 1), 1);
    First(T.View(m, T.PutRead(A)), 3, T.View(m, T.PutScan(A, 0, 0)));
    First(T.View(m, T.PutScan(A, 0, 0)), 2, T.View(m, T.PutVal(A, 0, 0)));
    First(T.View(m, T.PutVal(A, 0, 0)), 1, T.View(m, T.PutDone(A, 1)));
  }

  /** glk_init on the first lock. */
  function Locks(count: nat, n: nat): seq<G.State> {
    if count == 0 then [] else [G.Init(n, false)]
  }

  lemma {:induction false} AloneRises(v: T.View, k: nat)
    decreases k
    ensures v.m.locks <= Alone(v, k).m.locks
  {
    hide T.StepThread;
    if k > 0 && !v.pc.PutDone? {
      var s := T.State(v.m, [v.pc]);
      LocksRise(s, T.Move(0, T.Advance(0)));
      AloneRises(T.StepThread(v.m, v.pc, T.Advance(0)), k - 1);
    } else if k > 0 {
      AloneRises(v, k - 1);
    }
  }

  /** A put of one thread alone, inside gls_lock. */
  lemma {:induction false} PutAlone(s0: State, s: State, t: nat, k: nat) returns (s': State)
    requires Reaches(s0, s) && t < |s.th| == |s.table.th| && s.th[t].pc == LockLookup(A, false) && !s.mp
    requires s.locks == Locks(s.table.m.locks, |s.th|)
    requires Alone(T.View(s.table.m, s.table.th[t]), k).m.locks <= 1
    decreases k
    ensures var v := Alone(T.View(s.table.m, s.table.th[t]), k);
      && Reaches(s0, s')
      && s' == s.(table := T.State(v.m, s.table.th[t := v.pc]), locks := Locks(v.m.locks, |s.th|))
  {
    hide T.StepThread, Step, Reaches;
    var v := T.View(s.table.m, s.table.th[t]);
    if k == 0 {
      s' := s;
      assert s.table.th[t := v.pc] == s.table.th;
    } else if v.pc.PutDone? {
      s' := PutAlone(s0, s, t, k - 1);
    } else {
      var w := T.StepThread(v.m, v.pc, T.Advance(0));
      AloneRises(w, k - 1);
      LookupStep(s, t, w);
      var s1 := Extend(s0, s, Move(t, Continue(0, 0)));
      s' := PutAlone(s0, s1, t, k - 1);
      assert s1.table.th[t := Alone(w, k - 1).pc] == s.table.th[t := Alone(w, k - 1).pc];
    }
  }

  lemma LookupStep(s: State, t: nat, w: T.View)
    requires t < |s.th| == |s.table.th| && s.th[t].pc == LockLookup(A, false) && !s.mp
    requires s.locks == Locks(s.table.m.locks, |s.th|) && !s.table.th[t].PutDone?
    requires w == T.StepThread(s.table.m, s.table.th[t], T.Advance(0)) && w.m.locks <= 1
    ensures Step(s, Move(t, Continue(0, 0))) ==
      s.(table := T.State(w.m, s.table.th[t := w.pc]), locks := Locks(w.m.locks, |s.th|))
  {
    LocksRise(s.table, T.Move(t, T.Advance(0)));
    hide T.StepThread;
    assert s.th[t := s.th[t]] == s.th;
  }

  /** The table's memory before the first put and after it. */
  function Stored(k: nat): T.Mem {
    if k == 0 then Memory(T.Free, Tables.Slot(0, 0), 0) else Memory(T.Free, Tables.Slot(A, 1), 1)
  }

  /** The first `k` threads have looked the lock up and are about to take it. */
  ghost predicate Ready(s: State, k: nat, n: nat) {
    && k <= n
    && s == State(T.State(Stored(k), seq(n, i => T.Idle)), Locks(k, n), false,
                  seq(n, i => if i < k then Client(G.Idle) else Thread(Out, 0, 0, {})))
  }

  lemma InitReady(n: nat)
    ensures Ready(Init(n, 1, false), 0, n)
  {
    var s := Init(n, 1, false);
    assert s.table.m.versions[0].bins == Stored(0).versions[0].bins;
    assert s.table.m.versions == Stored(0).versions;
  }

  lemma FirstPut(m: T.Mem, k: nat)
    requires m == Stored(k)
    ensures Alone(T.View(m, T.PutRead(A)), if k == 0 then 14 else 3) == T.View(Stored(1), T.PutDone(A, 1))
  {
    hide Alone, T.StepThread;
    if k == 0 {
      PutScans(m);
      PutStores(Memory(T.Update, Tables.Slot(0, 0), 0));
      PutEnds(Memory(T.Update, Tables.Slot(0, 0), 1));
    } else {
      PutFinds(m);
    }
  }

  lemma PutBegins(s: State, t: nat)
    requires t < |s.th| == |s.table.th| && s.th[t] == Thread(Out, 0, 0, {}) && s.table.th[t].Idle?
    requires s.table.m.locks <= 1 && s.locks == Locks(s.table.m.locks, |s.th|)
    ensures Step(s, Move(t, Lock(A, false))) ==
      s.(th := s.th[t := Thread(LockLookup(A, false), 0, 0, {})],
         table := s.table.(th := s.table.th[t := T.PutRead(A)]))
  {
    hide T.StepHolder, T.StepResize;
    SimpleAsk(s.table.m, T.Idle, T.Put(A));
    LookupAt(s.table.m, T.Put(A), T.Idle);
  }

  /** Starting and ending a put leave the table's memory alone. */
  lemma LookupAt(m: T.Mem, choice: T.Choice, pc: T.Pc)
    requires pc.Idle? || pc.PutDone?
    ensures T.StepThread(m, pc, choice).m == m
  {
    hide T.StepHolder, T.StepResize, T.BinOf;
  }

  lemma PutReturns(s: State, t: nat)
    requires t < |s.th| == |s.table.th| && s.th[t] == Thread(LockLookup(A, false), 0, 0, {})
    requires s.table.th[t] == T.PutDone(A, 1) && s.table.m.locks == 1 && s.locks == Locks(1, |s.th|)
    ensures Step(s, Move(t, Continue(0, 0))) ==
      s.(th := s.th[t := Client(G.Idle)], table := s.table.(th := s.table.th[t := T.Idle]))
  {
    hide T.StepHolder, T.StepResize;
    SimpleAsk(s.table.m, T.PutDone(A, 1), T.Return);
    LookupAt(s.table.m, T.Return, T.PutDone(A, 1));
  }

  lemma ReadyNext(s: State, s': State, k: nat, n: nat)
    requires Ready(s, k, n) && k < n
    requires s' == s.(th := s.th[k := Client(G.Idle)], locks := Locks(1, n),
                      table := T.State(Stored(1), s.table.th[k := T.Idle]))
    ensures Ready(s', k + 1, n)
  {
  }

  lemma Prepare(s0: State, s: State, k: nat, n: nat) returns (s': State)
    requires Reaches(s0, s) && Ready(s, k, n)
    ensures Reaches(s0, s') && Ready(s', n, n)
    decreases n - k
  {
    if k == n {
      s' := s;
    } else {
      hide Step, Reaches, Alone, Client, StepThread, T.StepThread;
      FirstPut(s.table.m, k);
      PutBegins(s, k);
      var s1 := Extend(s0, s, Move(k, Lock(A, false)));
      var s2 := PutAlone(s0, s1, k, if k == 0 then 14 else 3);
      PutReturns(s2, k);
      var s3 := Extend(s0, s2, Move(k, Continue(0, 0)));
      assert s3.th == s.th[k := Client(G.Idle)] && s3.table.th == s.table.th[k := T.Idle];
      ReadyNext(s, s3, k, n);
      s' := Prepare(s0, s3, k + 1, n);
    }
  }

  // ----- runs without trylock are timely

  /** Nobody is in trylock, in any lock or in the service. */
  ghost predicate Calm(s: State) {
    && (forall l, t :: 0 <= l < |s.locks| && 0 <= t < |s.locks[l].th| ==> O.Locking(s.locks[l].th[t]))
    && forall t :: 0 <= t < |s.th| && (s.th[t].pc.LockLookup? || s.th[t].pc.LockStart? || s.th[t].pc.LockRun?) ==>
         !s.th[t].pc.try_
  }

  lemma CalmTimely(s: State)
    requires Calm(s)
    ensures LocksTimely(s.locks)
  {
  }

  lemma CalmLock(g: G.State, e: G.Event)
    requires forall t :: 0 <= t < |g.th| ==> O.Locking(g.th[t])
    requires e.Move? ==> e.op == G.Op.Lock
    ensures forall t :: 0 <= t < |G.Step(g, e).th| ==> O.Locking(G.Step(g, e).th[t])
  {
    hide G.StepThread, G.AwaitsLink, O.Locking;
    if e.Move? && e.t < |g.th| { O.LockingStays(g.m, e.t, g.th[e.t], e.len); }
  }

  lemma CalmStays(s: State, e: Event)
    requires Calm(s) && LockOnly([e])
    ensures Calm(Step(s, e))
  {
    hide G.Step, O.Locking, T.Step, InLock;
    assert [e][0] == e;
    match e
    case SetMp(mp) =>
      forall l | 0 <= l < |s.locks|
        ensures forall t :: 0 <= t < |G.Step(s.locks[l], G.SetMp(mp)).th| ==>
          O.Locking(G.Step(s.locks[l], G.SetMp(mp)).th[t])
      {
        CalmLock(s.locks[l], G.SetMp(mp));
      }
    case Move(t, choice) =>
      if t < |s.th| && t < |s.table.th| {
        var ask := StepThread(s.th[t], s.table.th[t], InLock(s, t), choice).ask;
        if ask.Glk? && 1 <= ask.lock <= |s.locks| {
          CalmLock(s.locks[ask.lock - 1], G.Move(t, ask.op, ask.len));
        }
        assert forall i :: 0 <= i < |s.th| ==> O.Locking(G.Init(|s.th|, s.mp).th[i]) by { CalmInit(|s.th|, s.mp); }
      }
  }

  lemma CalmInit(n: nat, mp: bool)
    ensures forall i :: 0 <= i < n ==> O.Locking(G.Init(n, mp).th[i])
  {
  }

  lemma {:induction false} LockOnlyTimely(s: State, sched: seq<Event>)
    requires Calm(s) && LockOnly(sched)
    ensures Calm(Run(s, sched)) && TimelyRun(s, sched)
  {
    hide Calm, Step, LocksTimely;
    if sched == [] {
      CalmTimely(s);
    } else {
      LockOnlyTimely(s, sched[..|sched| - 1]);
      CalmStays(Run(s, sched[..|sched| - 1]), sched[|sched| - 1]);
      CalmTimely(Run(s, sched));
    }
  }

  // ----- result

  /** Any number of threads beyond the bound can be two in the critical section of one address. */
  lemma Overflow(n: nat) returns (sched: seq<Event>)
    requires n > G.MAX_THREADS
    ensures LockOnly(sched) && TimelyRun(Init(n, 1, false), sched)
    ensures !Exclusive(Run(Init(n, 1, false), sched))
  {
    var s0 := Init(n, 1, false);
    assert LockOnly([]) && Run(s0, []) == s0;
    InitReady(n);
    var s := Prepare(s0, s0, 0, n);
    CalmInit(n, false);
    assert Mirrors(s, G.Init(n, false));
    var inLock := O.Overflow(n);
    s := MirroredRun(s0, s, G.Init(n, false), inLock);
    assert !Exclusive(s) by { BothHold(s, G.Run(G.Init(n, false), inLock)); }
    sched :| LockOnly(sched) && Run(s0, sched) == s;
    LockOnlyTimely(s0, sched);
  }

  lemma BothHold(s: State, g: G.State)
    requires Mirrors(s, g) && !G.Exclusive(g)
    ensures !Exclusive(s)
  {
    var t, u :| 0 <= t < |g.th| && 0 <= u < |g.th| && g.th[t].Critical? && g.th[u].Critical? && t != u;
    assert s.th[t] == Client(g.th[t]) && s.th[u] == Client(g.th[u]);
    assert A in s.th[t].held && A in s.th[u].held;
  }

  /** End to end, the service is exclusive per address in every run whose trylocks are timely
      exactly when the threads number at most 2048. */
  lemma ExclusiveIffBounded(n: nat)
    ensures (forall numBuckets: nat, mp, sched ::
        numBuckets >= 1 && TimelyRun(Init(n, numBuckets, mp), sched) ==>
          Exclusive(Run(Init(n, numBuckets, mp), sched)))
      <==> n <= G.MAX_THREADS
  {
    hide Exclusive, Init, Run, TimelyRun;
    if n <= G.MAX_THREADS {
      forall numBuckets: nat, mp, sched | numBuckets >= 1 && TimelyRun(Init(n, numBuckets, mp), sched)
        ensures Exclusive(Run(Init(n, numBuckets, mp), sched))
      {
        ExclusivePerAddress(n, numBuckets, mp, sched);
      }
    } else {
      var sched := Overflow(n);
    }
  }
}
