/** src/gls.c on top of the shared lock table and the adaptive locks it hands out: gls_lock,
    gls_trylock and gls_unlock with the one-entry thread-local cache. The table is the machine
    of module ConcurrentTable and every lock is a machine of module Glk, both step by step.

    Any threads may lock and unlock any addresses in any order, except that a thread only
    unlocks what it holds, and does not lock what it holds already. */
module Gls {
  import T = ConcurrentTable
  import S = ConcurrentTableSafety
  import G = Glk
  import K = GlkSafety
  import Tables

  datatype Pc =
    | Out
    | LockLookup(addr: nat, try_: bool)
    | LockStart(addr: nat, lock: nat, try_: bool)
    | LockRun(addr: nat, lock: nat, try_: bool)
    | UnlockLookup(addr: nat)
    | UnlockStart(addr: nat, lock: nat)
    | UnlockRun(addr: nat, lock: nat)

  /** `cacheAddr` is 0 while __thread_lock_cache is empty; `held` are the addresses between
      the return of gls_lock or gls_trylock and the release in gls_unlock. */
  datatype Thread = Thread(pc: Pc, cacheAddr: nat, cacheLock: nat, held: set<nat>)

  /** `locks` are the locks allocated so far: a lock pointer `p` of the table is locks[p - 1].
      `mp` is the multiprogramming flag, which all of them read. */
  datatype State = State(table: T.State, locks: seq<G.State>, mp: bool, th: seq<Thread>)

  /** `buckets` is for a resize, `len` for a walk over an MCS queue. */
  datatype Choice = Lock(addr: nat, try_: bool) | Unlock(addr: nat) | Continue(buckets: nat, len: nat)
  datatype Event = Move(t: nat, choice: Choice) | SetMp(mp: bool)

  function Init(n: nat, numBuckets: nat, mp: bool): State {
    State(T.Init(n, numBuckets), [], mp, seq(n, i => Thread(Out, 0, 0, {})))
  }

  /** What a thread does to its own fields, and the step it takes in the table or in a lock. */
  datatype View = View(own: Thread, ask: Ask)
  datatype Ask = Nothing | Table(choice: T.Choice) | Glk(lock: nat, op: G.Op, len: nat)

  function StepThread(own: Thread, inTable: T.Pc, inLock: G.Pc, choice: Choice): View {
    var len := if choice.Continue? then choice.len else 1;
    match own.pc
    case Out =>
      (match choice
       case Lock(addr, try_) =>
         if addr == 0 || addr in own.held then View(own, Nothing)
         else if own.cacheAddr == addr then View(own.(pc := LockStart(addr, own.cacheLock, try_)), Nothing)
         else View(own.(pc := LockLookup(addr, try_)), Table(T.Put(addr)))
       case Unlock(addr) =>
         if addr !in own.held then View(own, Nothing)
         else if own.cacheAddr == addr then View(own.(pc := UnlockStart(addr, own.cacheLock)), Nothing)
         else View(own.(pc := UnlockLookup(addr)), Table(T.Get(addr)))
       case Continue(_, _) => View(own, Nothing))
    case LockLookup(addr, try_) =>
      if inTable.PutDone? then
        View(Thread(LockStart(addr, inTable.lock, try_), addr, inTable.lock, own.held), Table(T.Return))
      else View(own, Table(T.Advance(if choice.Continue? then choice.buckets else 0)))
    case LockStart(addr, lock, try_) =>
      View(own.(pc := LockRun(addr, lock, try_)), Glk(lock, LockOp(try_), len))
    case LockRun(addr, lock, try_) =>
      if inLock.Critical? then View(own.(pc := Out, held := own.held + {addr}), Nothing)
      else if inLock.Idle? && try_ then View(own.(pc := Out), Nothing)
      else View(own, Glk(lock, LockOp(try_), len))
    case UnlockLookup(addr) =>
      if inTable.GetDone? then View(own.(pc := UnlockStart(addr, inTable.lock)), Table(T.Return))
      else View(own, Table(T.Advance(0)))
    case UnlockStart(addr, lock) =>
      View(own.(pc := UnlockRun(addr, lock), held := own.held - {addr}), Glk(lock, G.Op.Lock, len))
    case UnlockRun(addr, lock) =>
      if inLock.Idle? then View(own.(pc := Out), Nothing) else View(own, Glk(lock, G.Op.Lock, len))
  }

  function LockOp(try_: bool): G.Op {
    if try_ then G.Op.TryLock else G.Op.Lock
  }

  /** Where thread `t` is in the lock it is working on. */
  function InLock(s: State, t: nat): G.Pc
    requires t < |s.th|
  {
    if (s.th[t].pc.LockRun? || s.th[t].pc.UnlockRun?) && 1 <= s.th[t].pc.lock <= |s.locks| &&
       t < |s.locks[s.th[t].pc.lock - 1].th|
    then s.locks[s.th[t].pc.lock - 1].th[t] else G.Idle
  }

  function StepTable(table: T.State, t: nat, ask: Ask): T.State {
    if ask.Table? then T.Step(table, T.Move(t, ask.choice)) else table
  }

  function StepLocks(locks: seq<G.State>, t: nat, ask: Ask): seq<G.State> {
    if ask.Glk? && 1 <= ask.lock <= |locks|
    then locks[ask.lock - 1 := G.Step(locks[ask.lock - 1], G.Move(t, ask.op, ask.len))]
    else locks
  }

  /** glk_init on a lock that the table has just allocated. */
  function Allocated(locks: seq<G.State>, count: nat, n: nat, mp: bool): seq<G.State> {
    if count > |locks| then locks + [G.Init(n, mp)] else locks
  }

  function Step(s: State, e: Event): State {
    match e
    case SetMp(mp) =>
      s.(mp := mp, locks := seq(|s.locks|, l requires 0 <= l < |s.locks| => G.Step(s.locks[l], G.SetMp(mp))))
    case Move(t, choice) =>
      if t < |s.th| && t < |s.table.th| then
        var v := StepThread(s.th[t], s.table.th[t], InLock(s, t), choice);
        var table := StepTable(s.table, t, v.ask);
        State(table, Allocated(StepLocks(s.locks, t, v.ask), table.m.locks, |s.th|, s.mp), s.mp, s.th[t := v.own])
      else s
  }

  function Run(s: State, sched: seq<Event>): State {
    if sched == [] then s else Step(Run(s, sched[..|sched| - 1]), sched[|sched| - 1])
  }

  /** Every trylock on every lock is timely, as module Glk has it. */
  predicate LocksTimely(locks: seq<G.State>) {
    forall l :: 0 <= l < |locks| ==> G.AllTimely(locks[l])
  }

  predicate TimelyRun(s: State, sched: seq<Event>) {
    LocksTimely(Run(s, sched).locks) && (sched == [] || TimelyRun(s, sched[..|sched| - 1]))
  }

  // ----- what holds in every state

  predicate Binds(map_: map<nat, nat>, addr: nat, lock: nat) {
    addr in map_ && map_[addr] == lock
  }

  /** The thread is inside clht_lp_put_type for this address. */
  predicate Putting(pc: T.Pc, addr: nat) {
    !pc.Idle? && !pc.GetRead? && !pc.GetScan? && !pc.GetVal? && !pc.GetDone? && pc.key == addr
  }

  /** The thread is inside clht_lp_get for this address, which is in the table. */
  predicate Getting(pc: T.Pc, addr: nat) {
    || (pc.GetRead? && pc.key == addr)
    || ((pc.GetScan? || pc.GetVal? || pc.GetDone?) && pc.key == addr && pc.known)
  }

  /** One thread's place in every lock. */
  function Places(locks: seq<G.State>, t: nat): (r: seq<G.Pc>)
    requires forall l :: 0 <= l < |locks| ==> t < |locks[l].th|
    ensures |r| == |locks|
  {
    seq(|locks|, l requires 0 <= l < |locks| => locks[l].th[t])
  }

  predicate Inside(places: seq<G.Pc>, lock: nat) {
    1 <= lock <= |places| && places[lock - 1].Critical?
  }

  predicate Holding(map_: map<nat, nat>, held: set<nat>, lock: nat) {
    exists a :: a in held && Binds(map_, a, lock)
  }

  /** The thread is inside an operation on this lock. */
  predicate Working(pc: Pc, lock: nat) {
    (pc.LockRun? || pc.UnlockRun?) && pc.lock == lock
  }

  predicate ThreadOk(map_: map<nat, nat>, places: seq<G.Pc>, own: Thread, inTable: T.Pc) {
    && (own.cacheAddr != 0 ==> Binds(map_, own.cacheAddr, own.cacheLock))
    && (forall a :: a in own.held ==> a != 0 && a in map_ && Inside(places, map_[a]))
    && (forall l :: 0 <= l < |places| ==>
          places[l].Idle? || Holding(map_, own.held, l + 1) || Working(own.pc, l + 1))
    && match own.pc
      case Out => inTable.Idle?
      case LockLookup(addr, _) => addr != 0 && addr !in own.held && Putting(inTable, addr)
      case LockStart(addr, lock, _) => addr != 0 && addr !in own.held && inTable.Idle? && Binds(map_, addr, lock)
      case LockRun(addr, lock, _) => addr != 0 && addr !in own.held && inTable.Idle? && Binds(map_, addr, lock)
      case UnlockLookup(addr) => addr in own.held && Getting(inTable, addr)
      case UnlockStart(addr, lock) => addr in own.held && inTable.Idle? && Binds(map_, addr, lock)
      case UnlockRun(addr, lock) => addr !in own.held && inTable.Idle? && Binds(map_, addr, lock)
  }

  ghost predicate Injective(map_: map<nat, nat>) {
    forall k, k' :: k in map_ && k' in map_ && k != k' ==> map_[k] != map_[k']
  }

  /** Every lock that was allocated is a well-behaved adaptive lock of all threads. */
  ghost predicate LocksOk(locks: seq<G.State>, n: nat) {
    forall l :: 0 <= l < |locks| ==> |locks[l].th| == n && K.Inv(locks[l])
  }

  ghost predicate Inv(s: State) {
    && S.Inv(s.table) && |s.th| == |s.table.th| <= G.MAX_THREADS
    && Injective(T.Map(s.table.m)) && |s.locks| == s.table.m.locks
    && LocksOk(s.locks, |s.th|)
    && forall t :: 0 <= t < |s.th| ==>
         ThreadOk(T.Map(s.table.m), Places(s.locks, t), s.th[t], s.table.th[t])
  }

  // ----- the table's part of a step

  lemma PutKeeps(m: T.Mem, pc: T.Pc, choice: T.Choice, addr: nat)
    requires Putting(pc, addr) && !choice.Return?
    ensures Putting(T.StepThread(m, pc, choice).pc, addr)
  {
    hide T.BinOf, T.Filled, T.Locked, T.WithBin, T.PutSeq, T.Map;
  }

  lemma GetKeeps(m: T.Mem, pc: T.Pc, choice: T.Choice, addr: nat)
    requires Getting(pc, addr) && !choice.Return? && addr in T.Map(m)
    ensures Getting(T.StepThread(m, pc, choice).pc, addr)
  {
    hide T.BinOf, T.Filled, T.Locked, T.WithBin, T.PutSeq, T.Map;
  }

  lemma Found(s: T.State, t: nat)
    requires S.Inv(s) && t < |s.th| && (s.th[t].PutDone? || (s.th[t].GetDone? && s.th[t].known))
    ensures Binds(T.Map(s.m), s.th[t].key, s.th[t].lock)
  {
    assert S.ThreadOk(s.m, s.th[t]);
    S.AgreedMap(s.m, s.th[t].key, s.th[t].lock);
    hide T.Map, S.Agreed;
  }

  lemma MapStep(s: T.State, e: T.Event)
    requires S.Inv(s) && e.t < |s.th| && Injective(T.Map(s.m))
    ensures var s' := T.Step(s, e); S.Kept(s.m, s'.m) && Injective(T.Map(s'.m)) && |s'.th| == |s.th|
  {
    hide S.Inv, T.Map, T.StepThread;
    S.RefinesMap(s, e);
  }

  /** The table only grows. */
  lemma TableStep(s: T.State, e: T.Event)
    requires S.Inv(s) && e.t < |s.th| && Injective(T.Map(s.m))
    ensures var s' := T.Step(s, e);
      S.Inv(s') && S.Kept(s.m, s'.m) && Injective(T.Map(s'.m)) && |s'.th| == |s.th|
  {
    S.StepKeepsInv(s, e);
    S.RefinesMap(s, e);
    hide *;
    MapStep(s, e);
  }

  lemma SimpleAsk(m: T.Mem, pc: T.Pc, choice: T.Choice)
    requires pc.Idle? || pc.PutDone? || pc.GetDone?
    ensures var pc' := T.StepThread(m, pc, choice).pc;
      && (!pc.Idle? && choice.Return? ==> pc' == T.Idle)
      && (pc.Idle? && choice.Put? && choice.key != 0 ==> pc' == T.PutRead(choice.key))
      && (pc.Idle? && choice.Get? && choice.key != 0 ==> pc' == T.GetRead(choice.key))
  {
    hide T.BinOf, T.Filled, T.Locked, T.WithBin, T.PutSeq, T.Map;
  }

  lemma LocksRange(s: T.State, addr: nat)
    requires S.Inv(s) && addr in T.Map(s.m)
    ensures 1 <= T.Map(s.m)[addr] <= s.m.locks
  {
    S.AgreedMap(s.m, addr, T.Map(s.m)[addr]);
    hide T.Map, S.Agreed;
  }

  /** At most one lock is allocated at a time. */
  lemma LocksRise(s: T.State, e: T.Event)
    ensures s.m.locks <= T.Step(s, e).m.locks <= s.m.locks + 1
  {
    hide T.BinOf, Tables.IndexOf, T.NewVersion, T.Map;
    if e.t < |s.th| {
      if T.InResize(s.th[e.t]) { hide T.StepHolder, T.StepFree; }
    }
  }

  // ----- the locks' part of a step

  /** Only the moving thread's place changes. */
  lemma LockStep(s: G.State, e: G.Event, t: nat)
    requires t < |s.th| && (e.Move? ==> e.t != t)
    ensures |G.Step(s, e).th| == |s.th| && G.Step(s, e).th[t] == s.th[t]
  {
    hide G.StepThread, G.AwaitsLink;
  }

  lemma LocksStep(locks: seq<G.State>, n: nat, t: nat, ask: Ask)
    requires LocksOk(locks, n) && t < n && LocksTimely(locks)
    requires ask.Glk? ==> 1 <= ask.lock <= |locks|
    ensures var locks' := StepLocks(locks, t, ask);
      && LocksOk(locks', n) && |locks'| == |locks|
      && (forall u :: 0 <= u < n && u != t ==> Places(locks', u) == Places(locks, u))
      && Places(locks', t) ==
           if ask.Glk? then Places(locks, t)[ask.lock - 1 := locks'[ask.lock - 1].th[t]] else Places(locks, t)
  {
    hide G.Step, K.Inv, G.AllTimely;
    if ask.Glk? {
      var s, e := locks[ask.lock - 1], G.Move(t, ask.op, ask.len);
      K.StepKeepsInv(s, e);
      K.StepSize(s, e);
      forall u | 0 <= u < n && u != t
        ensures G.Step(s, e).th[u] == s.th[u]
      {
        LockStep(s, e, u);
      }
    }
  }

  /** A new lock, in which nobody is yet. */
  predicate Extends(places: seq<G.Pc>, places': seq<G.Pc>) {
    places' == places || places' == places + [G.Idle]
  }

  lemma LocksGrow(locks: seq<G.State>, count: nat, n: nat, mp: bool)
    requires LocksOk(locks, n) && n <= G.MAX_THREADS && |locks| <= count <= |locks| + 1
    ensures var locks' := Allocated(locks, count, n, mp);
      LocksOk(locks', n) && |locks'| == count && forall u :: 0 <= u < n ==> Extends(Places(locks, u), Places(locks', u))
  {
    K.InitInv(n, mp);
    hide K.Inv;
    var locks' := Allocated(locks, count, n, mp);
    forall u | 0 <= u < n
      ensures Extends(Places(locks, u), Places(locks', u))
    {
      if count > |locks| { assert Places(locks', u) == Places(locks, u) + [G.Idle]; }
    }
  }

  // ----- the thread's part of a step

  lemma ThreadStays(map_: map<nat, nat>, map': map<nat, nat>, places: seq<G.Pc>, places': seq<G.Pc>,
    own: Thread, inTable: T.Pc)
    requires ThreadOk(map_, places, own, inTable) && Extends(places, places')
    requires forall k :: k in map_ ==> Binds(map', k, map_[k])
    ensures ThreadOk(map', places', own, inTable)
  {
    hide Putting, Getting;
    forall l | 0 <= l < |places'|
      ensures places'[l].Idle? || Holding(map', own.held, l + 1) || Working(own.pc, l + 1)
    {
      if l < |places| && Holding(map_, own.held, l + 1) {
        var a :| a in own.held && Binds(map_, a, l + 1);
        assert Binds(map', a, l + 1);
      }
    }
  }

  /** The thread that moves knows its place in the lock it is working on. */
  predicate Fits(places: seq<G.Pc>, own: Thread, inLock: G.Pc) {
    own.pc.LockRun? || own.pc.UnlockRun? ==> 1 <= own.pc.lock <= |places| && inLock == places[own.pc.lock - 1]
  }

  /** The thread moves by itself. */
  lemma OwnStep(map_: map<nat, nat>, places: seq<G.Pc>, own: Thread, inTable: T.Pc, inLock: G.Pc, choice: Choice)
    requires ThreadOk(map_, places, own, inTable) && Fits(places, own, inLock)
    requires StepThread(own, inTable, inLock, choice).ask.Nothing?
    ensures ThreadOk(map_, places, StepThread(own, inTable, inLock, choice).own, inTable)
  {
    hide Putting, Getting;
    var own' := StepThread(own, inTable, inLock, choice).own;
    if own.pc.LockRun? || own.pc.UnlockRun? {
      forall l | 0 <= l < |places|
        ensures places[l].Idle? || Holding(map_, own'.held, l + 1)
      {
        if Holding(map_, own.held, l + 1) {
          var a :| a in own.held && Binds(map_, a, l + 1);
          assert a in own'.held;
        } else if l + 1 == own.pc.lock && own.pc.LockRun? && !places[l].Idle? {
          assert own.pc.addr in own'.held && Binds(map_, own.pc.addr, l + 1);
        }
      }
    }
  }

  /** A thread that moves in a lock is in no other lock operation, so what it holds is elsewhere. */
  lemma GlkHeld(map_: map<nat, nat>, places: seq<G.Pc>, own: Thread, inTable: T.Pc, inLock: G.Pc, choice: Choice,
    pc': G.Pc)
    requires ThreadOk(map_, places, own, inTable) && Injective(map_)
    requires forall a :: a in map_ ==> 1 <= map_[a] <= |places|
    requires StepThread(own, inTable, inLock, choice).ask.Glk?
    ensures var v := StepThread(own, inTable, inLock, choice);
      && 1 <= v.ask.lock <= |places| && Binds(map_, own.pc.addr, v.ask.lock) && own.pc.addr !in v.own.held
      && forall a :: a in v.own.held ==> a != 0 && a in map_ && Inside(places[v.ask.lock - 1 := pc'], map_[a])
  {
    hide Putting, Getting, Holding, Working;
    var v := StepThread(own, inTable, inLock, choice);
    assert Binds(map_, own.pc.addr, v.ask.lock) && own.pc.addr !in v.own.held;
    forall a | a in v.own.held
      ensures Inside(places[v.ask.lock - 1 := pc'], map_[a])
    {
      assert map_[a] != map_[own.pc.addr];
    }
  }

  lemma GlkPlaces(map_: map<nat, nat>, places: seq<G.Pc>, own: Thread, inTable: T.Pc, inLock: G.Pc, choice: Choice)
    requires ThreadOk(map_, places, own, inTable)
    requires StepThread(own, inTable, inLock, choice).ask.Glk?
    ensures var v := StepThread(own, inTable, inLock, choice);
      Working(v.own.pc, v.ask.lock) &&
      forall l :: 0 <= l < |places| && l + 1 != v.ask.lock ==> places[l].Idle? || Holding(map_, v.own.held, l + 1)
  {
    hide Putting, Getting, Inside;
    var v := StepThread(own, inTable, inLock, choice);
    forall l | 0 <= l < |places| && l + 1 != v.ask.lock
      ensures places[l].Idle? || Holding(map_, v.own.held, l + 1)
    {
      if Holding(map_, own.held, l + 1) {
        var a :| a in own.held && Binds(map_, a, l + 1);
        assert a in v.own.held;
      }
    }
  }

  /** The thread moves in a lock, to a place `pc'` there. */
  lemma GlkStep(map_: map<nat, nat>, places: seq<G.Pc>, own: Thread, inTable: T.Pc, inLock: G.Pc, choice: Choice,
    pc': G.Pc)
    requires ThreadOk(map_, places, own, inTable) && Injective(map_)
    requires forall a :: a in map_ ==> 1 <= map_[a] <= |places|
    requires StepThread(own, inTable, inLock, choice).ask.Glk?
    ensures var v := StepThread(own, inTable, inLock, choice);
      && 1 <= v.ask.lock <= |places|
      && ThreadOk(map_, places[v.ask.lock - 1 := pc'], v.own, inTable)
  {
    hide Putting, Getting, Holding, Inside, Injective;
    GlkHeld(map_, places, own, inTable, inLock, choice, pc');
    GlkPlaces(map_, places, own, inTable, inLock, choice);
  }

  /** The thread moves in the table, from `pc` to `pc'` there. */
  lemma TableAsk(map_: map<nat, nat>, places: seq<G.Pc>, own: Thread, pc: T.Pc, pc': T.Pc, inLock: G.Pc, choice: Choice)
    requires ThreadOk(map_, places, own, pc) && StepThread(own, pc, inLock, choice).ask.Table?
    requires pc.PutDone? || (pc.GetDone? && pc.known) ==> Binds(map_, pc.key, pc.lock)
    requires own.pc.LockLookup? && !pc.PutDone? ==> Putting(pc', own.pc.addr)
    requires own.pc.UnlockLookup? && !pc.GetDone? ==> Getting(pc', own.pc.addr)
    requires var ask := StepThread(own, pc, inLock, choice).ask.choice;
      && (ask.Return? ==> pc' == T.Idle)
      && (ask.Put? ==> pc' == T.PutRead(ask.key))
      && (ask.Get? ==> pc' == T.GetRead(ask.key))
    ensures ThreadOk(map_, places, StepThread(own, pc, inLock, choice).own, pc')
  {
    hide Holding, Inside;
  }

  lemma TableStepOk(s: State, t: nat, choice: Choice)
    requires Inv(s) && t < |s.th| && StepThread(s.th[t], s.table.th[t], InLock(s, t), choice).ask.Table?
    ensures var v := StepThread(s.th[t], s.table.th[t], InLock(s, t), choice);
      ThreadOk(T.Map(s.table.m), Places(s.locks, t), v.own, T.StepThread(s.table.m, s.table.th[t], v.ask.choice).pc)
  {
    hide Inv, S.Inv, T.Map, T.StepThread, InLock, Holding, Inside, Fits;
    InvAt(s, t);
    var own, pc, inLock := s.th[t], s.table.th[t], InLock(s, t);
    var ask := StepThread(own, pc, inLock, choice).ask.choice;
    if pc.PutDone? || (pc.GetDone? && pc.known) { Found(s.table, t); }
    if own.pc.LockLookup? && !pc.PutDone? {
      PutKeeps(s.table.m, pc, ask, own.pc.addr);
    } else if own.pc.UnlockLookup? && !pc.GetDone? {
      GetKeeps(s.table.m, pc, ask, own.pc.addr);
    } else {
      SimpleAsk(s.table.m, pc, ask);
    }
    hide Getting, Putting;
    TableAsk(T.Map(s.table.m), Places(s.locks, t), own, pc, T.StepThread(s.table.m, pc, ask).pc, inLock, choice);
  }

  lemma InvAt(s: State, t: nat)
    requires Inv(s) && t < |s.th|
    ensures |s.table.th| == |s.th| && S.Inv(s.table) && LocksOk(s.locks, |s.th|)
    ensures ThreadOk(T.Map(s.table.m), Places(s.locks, t), s.th[t], s.table.th[t])
    ensures Fits(Places(s.locks, t), s.th[t], InLock(s, t))
  {
    hide S.Inv, K.Inv, T.Map, Holding, Inside, Putting, Getting, Injective, T.Step;
    var own := s.th[t];
    assert ThreadOk(T.Map(s.table.m), Places(s.locks, t), own, s.table.th[t]);
    if own.pc.LockRun? || own.pc.UnlockRun? { LocksRange(s.table, own.pc.addr); }
    hide ThreadOk;
  }

  /** The table's lock pointers lead to locks, different keys to different ones. */
  lemma MapOk(s: State)
    requires Inv(s)
    ensures var map_ := T.Map(s.table.m);
      Injective(map_) && forall a :: a in map_ ==> 1 <= map_[a] <= |s.locks|
  {
    hide S.Inv, K.Inv, T.Map, ThreadOk;
    var map_ := T.Map(s.table.m);
    forall a | a in map_
      ensures 1 <= map_[a] <= |s.locks|
    {
      LocksRange(s.table, a);
    }
  }

  /** The moving thread, before a new lock is added. */
  ghost predicate MoverOk(s: State, t: nat, v: View)
    requires t < |s.th|
  {
    && |s.table.th| == |s.th| && LocksOk(s.locks, |s.th|)
    && (v.ask.Glk? ==> 1 <= v.ask.lock <= |s.locks|)
    && LocksOk(StepLocks(s.locks, t, v.ask), |s.th|)
    && t < |StepTable(s.table, t, v.ask).th|
    && ThreadOk(T.Map(s.table.m), Places(StepLocks(s.locks, t, v.ask), t), v.own, StepTable(s.table, t, v.ask).th[t])
  }

  lemma GlkMover(s: State, t: nat, choice: Choice)
    requires Inv(s) && t < |s.th| && LocksTimely(s.locks)
    requires StepThread(s.th[t], s.table.th[t], InLock(s, t), choice).ask.Glk?
    ensures MoverOk(s, t, StepThread(s.th[t], s.table.th[t], InLock(s, t), choice))
  {
    hide Inv, ThreadOk, StepThread, T.Map, LocksTimely, Fits, InLock, Injective, StepLocks, Places;
    InvAt(s, t);
    MapOk(s);
    var own, pc, inLock := s.th[t], s.table.th[t], InLock(s, t);
    var map_, places := T.Map(s.table.m), Places(s.locks, t);
    var v := StepThread(own, pc, inLock, choice);
    GlkStep(map_, places, own, pc, inLock, choice, G.Idle);
    LocksStep(s.locks, |s.th|, t, v.ask);
    var pc' := StepLocks(s.locks, t, v.ask)[v.ask.lock - 1].th[t];
    GlkStep(map_, places, own, pc, inLock, choice, pc');
  }

  lemma OtherMover(s: State, t: nat, choice: Choice)
    requires Inv(s) && t < |s.th|
    requires !StepThread(s.th[t], s.table.th[t], InLock(s, t), choice).ask.Glk?
    ensures MoverOk(s, t, StepThread(s.th[t], s.table.th[t], InLock(s, t), choice))
  {
    var own, pc, inLock := s.th[t], s.table.th[t], InLock(s, t);
    var map_, places := T.Map(s.table.m), Places(s.locks, t);
    hide ThreadOk, StepThread, S.Inv, K.Inv, T.Map, T.StepThread, G.AllTimely, Fits, InLock, Injective, Places;
    InvAt(s, t);
    if StepThread(own, pc, inLock, choice).ask.Table? {
      TableStepOk(s, t, choice);
    } else {
      OwnStep(map_, places, own, pc, inLock, choice);
    }
  }

  lemma MoveKeepsInv(s: State, t: nat, choice: Choice)
    requires Inv(s) && LocksTimely(s.locks) && t < |s.th|
    ensures Inv(Step(s, Move(t, choice)))
  {
    hide StepThread, T.StepThread, T.Map, S.Inv, ThreadOk, K.Inv, InLock, Injective;
    var s' := Step(s, Move(t, choice));
    var v := StepThread(s.th[t], s.table.th[t], InLock(s, t), choice);
    var locks1 := StepLocks(s.locks, t, v.ask);
    var map_, map' := T.Map(s.table.m), T.Map(s'.table.m);
    if v.ask.Glk? { GlkMover(s, t, choice); } else { OtherMover(s, t, choice); }
    LocksStep(s.locks, |s.th|, t, v.ask);
    hide StepLocks;
    if v.ask.Table? {
      TableStep(s.table, T.Move(t, v.ask.choice));
      LocksRise(s.table, T.Move(t, v.ask.choice));
    }
    assert S.Kept(s.table.m, s'.table.m);
    LocksGrow(locks1, s'.table.m.locks, |s.th|, s.mp);
    forall u | 0 <= u < |s'.th|
      ensures ThreadOk(map', Places(s'.locks, u), s'.th[u], s'.table.th[u])
    {
      if u != t { assert s'.th[u] == s.th[u] && s'.table.th[u] == s.table.th[u]; }
      ThreadStays(map_, map', Places(locks1, u), Places(s'.locks, u), s'.th[u], s'.table.th[u]);
    }
  }

  lemma SetMpKeepsInv(s: State, mp: bool)
    requires Inv(s) && LocksTimely(s.locks)
    ensures Inv(Step(s, SetMp(mp)))
  {
    hide G.Step, K.Inv, G.AllTimely, T.Map, S.Inv, ThreadOk;
    var s' := Step(s, SetMp(mp));
    forall l | 0 <= l < |s.locks|
      ensures |s'.locks[l].th| == |s.th| && K.Inv(s'.locks[l])
      ensures forall u :: 0 <= u < |s.th| ==> s'.locks[l].th[u] == s.locks[l].th[u]
    {
      K.StepKeepsInv(s.locks[l], G.SetMp(mp));
      K.StepSize(s.locks[l], G.SetMp(mp));
      forall u | 0 <= u < |s.th|
        ensures s'.locks[l].th[u] == s.locks[l].th[u]
      {
        LockStep(s.locks[l], G.SetMp(mp), u);
      }
    }
    forall u | 0 <= u < |s.th|
      ensures Places(s'.locks, u) == Places(s.locks, u)
    {
    }
  }

  lemma StepKeepsInv(s: State, e: Event)
    requires Inv(s) && LocksTimely(s.locks)
    ensures Inv(Step(s, e))
  {
    hide Inv;
    match e
    case SetMp(mp) => SetMpKeepsInv(s, mp);
    case Move(t, choice) => if t < |s.th| { MoveKeepsInv(s, t, choice); }
  }

  lemma StepSize(s: State, e: Event)
    ensures |Step(s, e).th| == |s.th|
  {
    hide StepThread, StepTable, StepLocks, Allocated, InLock;
  }

  lemma InitInv(n: nat, numBuckets: nat, mp: bool)
    requires n <= G.MAX_THREADS && numBuckets >= 1
    ensures Inv(Init(n, numBuckets, mp))
  {
    S.InitInv(n, numBuckets);
    var s := Init(n, numBuckets, mp);
    forall k
      ensures k !in T.Map(s.table.m)
    {
      if k in T.Map(s.table.m) { S.KnownKey(s.table.m, k); }
    }
    hide S.Inv, T.Map;
  }

  lemma {:induction false} Reachable(n: nat, numBuckets: nat, mp: bool, sched: seq<Event>)
    requires n <= G.MAX_THREADS && numBuckets >= 1 && TimelyRun(Init(n, numBuckets, mp), sched)
    ensures Inv(Run(Init(n, numBuckets, mp), sched)) && |Run(Init(n, numBuckets, mp), sched).th| == n
  {
    hide Inv, Step;
    if sched == [] {
      InitInv(n, numBuckets, mp);
    } else {
      var s := Run(Init(n, numBuckets, mp), sched[..|sched| - 1]);
      Reachable(n, numBuckets, mp, sched[..|sched| - 1]);
      StepKeepsInv(s, sched[|sched| - 1]);
      StepSize(s, sched[|sched| - 1]);
    }
  }

  lemma UnlockInside(map_: map<nat, nat>, places: seq<G.Pc>, own: Thread, inTable: T.Pc)
    requires ThreadOk(map_, places, own, inTable) && own.pc.UnlockStart?
    ensures Binds(map_, own.pc.addr, own.pc.lock) && Inside(places, own.pc.lock)
  {
    hide Holding;
  }

  lemma LockOutside(map_: map<nat, nat>, places: seq<G.Pc>, own: Thread, inTable: T.Pc)
    requires ThreadOk(map_, places, own, inTable) && own.pc.LockStart? && Injective(map_)
    requires forall a :: a in map_ ==> 1 <= map_[a] <= |places|
    ensures Binds(map_, own.pc.addr, own.pc.lock)
    ensures 1 <= own.pc.lock <= |places| && places[own.pc.lock - 1].Idle?
  {
    assert Binds(map_, own.pc.addr, own.pc.lock);
  }

  /** `lock` leads to a lock of `n` threads, one of which is `t`. */
  predicate Leads(locks: seq<G.State>, n: nat, lock: nat, t: nat) {
    1 <= lock <= |locks| && |locks[lock - 1].th| == n && t < n
  }

  lemma PlaceOf(s: State, t: nat, lock: nat)
    requires Inv(s) && t < |s.th| && 1 <= lock <= |s.locks|
    ensures Leads(s.locks, |s.th|, lock, t) && s.locks[lock - 1].th[t] == Places(s.locks, t)[lock - 1]
  {
    hide K.Inv, S.Inv, ThreadOk, Injective;
  }

  lemma UnlockAt(s: State, t: nat)
    requires Inv(s) && t < |s.th| && s.th[t].pc.UnlockStart?
    ensures Binds(T.Map(s.table.m), s.th[t].pc.addr, s.th[t].pc.lock)
    ensures Leads(s.locks, |s.th|, s.th[t].pc.lock, t) && s.locks[s.th[t].pc.lock - 1].th[t].Critical?
  {
    hide Inv, T.Map, InLock, ThreadOk, StepThread, Places, Fits, S.Inv, Injective, Binds;
    InvAt(s, t);
    UnlockInside(T.Map(s.table.m), Places(s.locks, t), s.th[t], s.table.th[t]);
    PlaceOf(s, t, s.th[t].pc.lock);
  }

  lemma LockAt(s: State, t: nat)
    requires Inv(s) && t < |s.th| && s.th[t].pc.LockStart?
    ensures Binds(T.Map(s.table.m), s.th[t].pc.addr, s.th[t].pc.lock)
    ensures Leads(s.locks, |s.th|, s.th[t].pc.lock, t) && s.locks[s.th[t].pc.lock - 1].th[t].Idle?
  {
    hide Inv, T.Map, InLock, ThreadOk, StepThread, Places, Fits, S.Inv, Injective, Binds;
    InvAt(s, t);
    MapOk(s);
    LockOutside(T.Map(s.table.m), Places(s.locks, t), s.th[t], s.table.th[t]);
    PlaceOf(s, t, s.th[t].pc.lock);
  }

  // ----- results

  /** At most one thread is between gls_lock(addr) and gls_unlock(addr), for every address. */
  ghost predicate Exclusive(s: State) {
    forall t, u, addr :: 0 <= t < |s.th| && 0 <= u < |s.th| && addr in s.th[t].held && addr in s.th[u].held ==> t == u
  }

  lemma HeldInside(s: State, t: nat, addr: nat)
    requires Inv(s) && t < |s.th| && addr in s.th[t].held
    ensures addr in T.Map(s.table.m)
    ensures var lock := T.Map(s.table.m)[addr];
      Leads(s.locks, |s.th|, lock, t) && s.locks[lock - 1].th[t].Critical? && K.Inv(s.locks[lock - 1])
  {
    hide Inv, T.Map, K.Inv, Holding, Binds, Putting, Getting;
    InvAt(s, t);
  }

  lemma InvExclusive(s: State)
    requires Inv(s)
    ensures Exclusive(s)
  {
    hide Inv, T.Map, K.Inv;
    forall t, u, addr | 0 <= t < |s.th| && 0 <= u < |s.th| && addr in s.th[t].held && addr in s.th[u].held
      ensures t == u
    {
      HeldInside(s, t, addr);
      HeldInside(s, u, addr);
      K.InvExclusive(s.locks[T.Map(s.table.m)[addr] - 1]);
    }
  }

  /** End to end: the cache, the table through all its resizes, and the adaptive locks through
      all their switches. */
  lemma ExclusivePerAddress(n: nat, numBuckets: nat, mp: bool, sched: seq<Event>)
    requires n <= G.MAX_THREADS && numBuckets >= 1 && TimelyRun(Init(n, numBuckets, mp), sched)
    ensures Exclusive(Run(Init(n, numBuckets, mp), sched))
  {
    hide Inv;
    Reachable(n, numBuckets, mp, sched);
    InvExclusive(Run(Init(n, numBuckets, mp), sched));
  }

  /** gls_unlock, through the cache or the table, old or new, always releases the lock that
      gls_lock took for this address; the thread is still in that lock's critical section. */
  lemma UnlockFindsLock(n: nat, numBuckets: nat, mp: bool, sched: seq<Event>, t: nat)
    requires n <= G.MAX_THREADS && numBuckets >= 1 && t < n && TimelyRun(Init(n, numBuckets, mp), sched)
    ensures var s := Run(Init(n, numBuckets, mp), sched);
      |s.th| == n && (s.th[t].pc.UnlockStart? ==>
        && Binds(T.Map(s.table.m), s.th[t].pc.addr, s.th[t].pc.lock)
        && Leads(s.locks, n, s.th[t].pc.lock, t) && s.locks[s.th[t].pc.lock - 1].th[t].Critical?)
  {
    hide Run, Inv, T.Map, Init, TimelyRun, Leads;
    Reachable(n, numBuckets, mp, sched);
    var s := Run(Init(n, numBuckets, mp), sched);
    if s.th[t].pc.UnlockStart? { UnlockAt(s, t); }
  }

  /** A call of gls_lock or gls_trylock finds its thread outside the lock of this address, so it
      never starts a lock operation in the middle of another one. */
  lemma LockStartsOutside(n: nat, numBuckets: nat, mp: bool, sched: seq<Event>, t: nat)
    requires n <= G.MAX_THREADS && numBuckets >= 1 && t < n && TimelyRun(Init(n, numBuckets, mp), sched)
    ensures var s := Run(Init(n, numBuckets, mp), sched);
      |s.th| == n && (s.th[t].pc.LockStart? ==>
        && Binds(T.Map(s.table.m), s.th[t].pc.addr, s.th[t].pc.lock)
        && Leads(s.locks, n, s.th[t].pc.lock, t) && s.locks[s.th[t].pc.lock - 1].th[t].Idle?)
  {
    hide Run, Inv, T.Map, Init, TimelyRun, Leads;
    Reachable(n, numBuckets, mp, sched);
    var s := Run(Init(n, numBuckets, mp), sched);
    if s.th[t].pc.LockStart? { LockAt(s, t); }
  }

  /** The cache never disagrees with the table. */
  lemma CacheAgrees(n: nat, numBuckets: nat, mp: bool, sched: seq<Event>, t: nat)
    requires n <= G.MAX_THREADS && numBuckets >= 1 && t < n && TimelyRun(Init(n, numBuckets, mp), sched)
    ensures var s := Run(Init(n, numBuckets, mp), sched);
      |s.th| == n && (s.th[t].cacheAddr != 0 ==> Binds(T.Map(s.table.m), s.th[t].cacheAddr, s.th[t].cacheLock))
  {
    Reachable(n, numBuckets, mp, sched);
    var s := Run(Init(n, numBuckets, mp), sched);
    assert ThreadOk(T.Map(s.table.m), Places(s.locks, t), s.th[t], s.table.th[t]);
    hide Inv, T.Map, Run;
  }
}
