/** The spin-then-futex mutex of include/mutexee_in.h, and the one in src/glk.c.

    The lock word consists of two bytes, `locked` and `contended`, which are accessed
    separately (xchg_8, byte stores) and together (xchg_32 with 257, compare-and-swap
    of 1, futex comparison with 257). */
module Mutexee {

  datatype Pc =
    | Idle
      // mutexee_lock
    | Xchg8
    | Xchg32
    | FutexWait
    | Sleeping
    | Critical
      // mutexee_lock_trylock
    | TryXchg8
      // mutexee_unlock
    | ReadWord
    | CasWord
    | StoreFree
    | Recheck(left: nat)
    | ClearContended
    | WakeOne

  /** `rechecks` is how often an unlocker re-reads `locked` before it wakes somebody:
      1 in src/glk.c, 2 in include/mutexee_in.h. */
  datatype State = State(locked: bool, contended: bool, rechecks: nat, th: seq<Pc>)

  /** `again`: keep spinning (or, in the fair variant, do not sleep any more). */
  datatype Event =
    | Move(t: nat, try: bool, again: bool, wakee: nat)
    | Spurious(t: nat)

  function Init(n: nat, rechecks: nat): State {
    State(false, false, rechecks, seq(n, i => Idle))
  }

  /** The word read as a 32-bit integer. */
  function Word(s: State): nat {
    (if s.locked then 1 else 0) + (if s.contended then 256 else 0)
  }

  function Go(s: State, t: nat, pc: Pc): State
    requires t < |s.th|
  {
    s.(th := s.th[t := pc])
  }

  function Step(s: State, e: Event): State {
    if e.t >= |s.th| then s
    else if e.Spurious? then (if s.th[e.t].Sleeping? then Go(s, e.t, Xchg32) else s)
    else StepThread(s, e.t, e.try, e.again, e.wakee)
  }

  function StepThread(s: State, t: nat, try: bool, again: bool, wakee: nat): State
    requires t < |s.th|
  {
    match s.th[t]
    case Idle => Go(s, t, if try then TryXchg8 else Xchg8)
    case TryXchg8 => Go(s.(locked := true), t, if s.locked then Idle else Critical)
    case Xchg8 =>
      Go(s.(locked := true), t, if !s.locked then Critical else if again then Xchg8 else Xchg32)
    case Xchg32 =>
      Go(s.(locked := true, contended := true), t,
         if !s.locked then Critical else if again then Xchg32 else FutexWait)
    case FutexWait => Go(s, t, if Word(s) == 257 then Sleeping else Xchg32)
    case Sleeping => s
    case Critical => Go(s, t, ReadWord)
    case ReadWord => Go(s, t, if Word(s) == 1 then CasWord else StoreFree)
    case CasWord => if Word(s) == 1 then Go(s.(locked := false), t, Idle) else Go(s, t, StoreFree)
    case StoreFree => Go(s.(locked := false), t, if s.rechecks == 0 then ClearContended else Recheck(s.rechecks))
    case Recheck(left) => Go(s, t, if s.locked then Idle else if left <= 1 then ClearContended else Recheck(left - 1))
    case ClearContended => Go(s.(contended := false), t, WakeOne)
    case WakeOne => WakeSleeper(Go(s, t, Idle), wakee)
  }

  /** FUTEX_WAKE of one waiter: the kernel picks any sleeper, if there is one. */
  function WakeSleeper(s: State, wakee: nat): State {
    if wakee < |s.th| && s.th[wakee].Sleeping? then Go(s, wakee, Xchg32)
    else
      var w := FirstSleeper(s.th, 0);
      if w < |s.th| then Go(s, w, Xchg32) else s
  }

  function FirstSleeper(th: seq<Pc>, from: nat): (w: nat)
    requires from <= |th|
    ensures from <= w <= |th| && (w < |th| ==> th[w].Sleeping?)
    ensures forall i :: from <= i < w ==> !th[i].Sleeping?
    decreases |th| - from
  {
    if from == |th| || th[from].Sleeping? then from else FirstSleeper(th, from + 1)
  }

  function Run(s: State, sched: seq<Event>): State {
    if sched == [] then s else Step(Run(s, sched[..|sched| - 1]), sched[|sched| - 1])
  }

  // ----- the invariant

  predicate Holds(pc: Pc) {
    pc.Critical? || pc.ReadWord? || pc.CasWord? || pc.StoreFree?
  }

  ghost predicate Owned(s: State) {
    && (forall t :: 0 <= t < |s.th| && Holds(s.th[t]) ==> s.locked)
    && (forall t, u :: 0 <= t < u < |s.th| ==> !(Holds(s.th[t]) && Holds(s.th[u])))
    && (s.locked ==> exists t :: 0 <= t < |s.th| && Holds(s.th[t]))
  }

  ghost predicate SomeRechecks(s: State) {
    exists t :: 0 <= t < |s.th| && s.th[t].Recheck?
  }

  ghost predicate SomeWakes(s: State) {
    exists t :: 0 <= t < |s.th| && (s.th[t].ClearContended? || s.th[t].WakeOne?)
  }

  ghost predicate SomeRetries(s: State) {
    exists t :: 0 <= t < |s.th| && s.th[t].Xchg32?
  }

  /** Somebody is responsible for the sleepers: the holder, which will find the word at
      257; an unlocker still rechecking; one about to wake; or an awake waiter about to
      announce itself. */
  ghost predicate Covered(s: State) {
    || (s.contended && (s.locked || SomeRechecks(s)))
    || SomeWakes(s)
    || SomeRetries(s)
  }

  ghost predicate SomeSleeps(s: State) {
    exists t :: 0 <= t < |s.th| && s.th[t].Sleeping?
  }

  ghost predicate Counting(s: State) {
    forall t :: 0 <= t < |s.th| && s.th[t].Recheck? ==> s.th[t].left <= s.rechecks
  }

  ghost predicate Inv(s: State) {
    Owned(s) && (SomeSleeps(s) ==> Covered(s)) && Counting(s)
  }

  /** What a step by `t` does to ownership. */
  ghost predicate OwnerMove(s: State, s': State, t: nat) {
    && t < |s.th| == |s'.th|
    && (forall u :: 0 <= u < |s.th| && u != t ==> Holds(s'.th[u]) == Holds(s.th[u]))
    && ( || (s'.locked == s.locked && Holds(s'.th[t]) == Holds(s.th[t]))
         || (!s.locked && s'.locked && Holds(s'.th[t]))
         || (Holds(s.th[t]) && !s'.locked && !Holds(s'.th[t])))
  }

  lemma StepIsOwnerMove(s: State, e: Event)
    requires e.t < |s.th|
    requires Holds(s.th[e.t]) ==> s.locked
    ensures OwnerMove(s, Step(s, e), e.t)
  {
    forall u | 0 <= u < |s.th| && u != e.t
      ensures Holds(Step(s, e).th[u]) == Holds(s.th[u])
    {
      OthersStay(s, e, u);
    }
    MoverOwnership(s, e);
    hide Step, Holds;
  }

  lemma MoverOwnership(s: State, e: Event)
    requires e.t < |s.th|
    requires Holds(s.th[e.t]) ==> s.locked
    ensures var s' := Step(s, e);
      && |s'.th| == |s.th|
      && ( || (s'.locked == s.locked && Holds(s'.th[e.t]) == Holds(s.th[e.t]))
           || (!s.locked && s'.locked && Holds(s'.th[e.t]))
           || (Holds(s.th[e.t]) && !s'.locked && !Holds(s'.th[e.t])))
  {
  }

  lemma OwnedKept(s: State, s': State, t: nat)
    requires Owned(s) && OwnerMove(s, s', t)
    ensures Owned(s')
  {
    if s'.locked {
      if s.locked {
        var u :| 0 <= u < |s.th| && Holds(s.th[u]);
        assert Holds(s'.th[u]);
      } else {
        assert Holds(s'.th[t]);
      }
    }
  }

  /** Threads other than `t` stay where they are, except that a sleeper may be woken. */
  lemma OthersStay(s: State, e: Event, u: nat)
    requires e.t < |s.th| && u < |s.th| && u != e.t
    ensures |Step(s, e).th| == |s.th|
    ensures Step(s, e).th[u] == s.th[u] || (s.th[u].Sleeping? && Step(s, e).th[u].Xchg32?)
  {
  }

  /** A thread that wakes leaves no sleeper behind uncovered: it makes one retry. */
  lemma WakingCovers(s: State, e: Event)
    requires e.t < |s.th| && e.Move? && s.th[e.t].WakeOne?
    ensures SomeSleeps(s) ==> SomeRetries(Step(s, e))
  {
    if SomeSleeps(s) {
      var s1 := Go(s, e.t, Idle);
      var w0 :| 0 <= w0 < |s.th| && s.th[w0].Sleeping?;
      assert s1.th[w0].Sleeping?;
      var w := if e.wakee < |s1.th| && s1.th[e.wakee].Sleeping? then e.wakee else FirstSleeper(s1.th, 0);
      assert Step(s, e).th[w].Xchg32?;
    }
  }

  lemma CoveredKept(s: State, e: Event)
    requires Inv(s) && e.t < |s.th|
    ensures SomeSleeps(Step(s, e)) ==> Covered(Step(s, e))
  {
    var s' := Step(s, e);
    var t := e.t;
    if SomeSleeps(s') {
      SleepersFrom(s, e);
      if e.Spurious? {
        assert s.th[t].Sleeping? ==> s'.th[t].Xchg32?;
      } else if && s.th[t].WakeOne? {
        WakingCovers(s, e);
      } else if s.th[t].Xchg32? || s.th[t].FutexWait? {
        assert s'.th[t].Sleeping? ==> s'.locked && s'.contended;
        if s.th[t].FutexWait? && !s'.th[t].Sleeping? { assert s'.th[t].Xchg32?; }
      } else {
        CoverMoves(s, e);
      }
    }
  }

  lemma SleepersFrom(s: State, e: Event)
    requires e.t < |s.th| && SomeSleeps(Step(s, e))
    ensures SomeSleeps(s) || (s.th[e.t].FutexWait? && Word(s) == 257)
  {
    var u :| 0 <= u < |Step(s, e).th| && Step(s, e).th[u].Sleeping?;
    if u != e.t { OthersStay(s, e, u); }
  }

  /** Every other step hands the responsibility on. */
  lemma CoverMoves(s: State, e: Event)
    requires Inv(s) && e.t < |s.th| && Covered(s) && e.Move?
    requires var pc := s.th[e.t]; !pc.WakeOne? && !pc.Xchg32? && !pc.FutexWait?
    ensures Covered(Step(s, e))
  {
    var s' := Step(s, e);
    var t := e.t;
    if SomeWakes(s) {
      var u :| 0 <= u < |s.th| && (s.th[u].ClearContended? || s.th[u].WakeOne?);
      assert s'.th[u].ClearContended? || s'.th[u].WakeOne?;
    } else if SomeRetries(s) {
      var u :| 0 <= u < |s.th| && s.th[u].Xchg32?;
      assert s'.th[u].Xchg32?;
    } else if s.th[t].StoreFree? {
      assert s'.th[t].Recheck? || s'.th[t].ClearContended?;
    } else if s.th[t].Recheck? {
      assert s'.th[t].Recheck? || s'.th[t].ClearContended? || s'.locked;
    } else if !s'.locked {
      var u :| 0 <= u < |s.th| && s.th[u].Recheck?;
      assert s'.th[u].Recheck?;
    }
  }

  lemma CountingKept(s: State, e: Event)
    requires Counting(s) && e.t < |s.th|
    ensures Counting(Step(s, e))
  {
    MoverCounts(s, e);
    forall u | 0 <= u < |s.th| && u != e.t
      ensures Step(s, e).th[u] == s.th[u] || Step(s, e).th[u].Xchg32?
    {
      OthersStay(s, e, u);
    }
    hide Step;
  }

  lemma MoverCounts(s: State, e: Event)
    requires e.t < |s.th| && (s.th[e.t].Recheck? ==> s.th[e.t].left <= s.rechecks)
    ensures var s' := Step(s, e);
      |s'.th| == |s.th| && s'.rechecks == s.rechecks && (s'.th[e.t].Recheck? ==> s'.th[e.t].left <= s.rechecks)
  {
  }

  lemma StepKeepsInv(s: State, e: Event)
    requires Inv(s)
    ensures Inv(Step(s, e)) && |Step(s, e).th| == |s.th| && Step(s, e).rechecks == s.rechecks
  {
    if e.t < |s.th| {
      StepIsOwnerMove(s, e);
      OwnedKept(s, Step(s, e), e.t);
      CoveredKept(s, e);
      CountingKept(s, e);
      MoverCounts(s, e);
      hide Step, Owned, Covered, SomeSleeps, Counting;
    }
  }

  lemma {:induction false} Reachable(n: nat, rechecks: nat, sched: seq<Event>)
    ensures var s := Run(Init(n, rechecks), sched); Inv(s) && |s.th| == n && s.rechecks == rechecks
  {
    hide Inv, Step;
    if sched == [] {
      assert Inv(Init(n, rechecks)) by { InitInv(n, rechecks); }
    } else {
      Reachable(n, rechecks, sched[..|sched| - 1]);
      StepKeepsInv(Run(Init(n, rechecks), sched[..|sched| - 1]), sched[|sched| - 1]);
    }
  }

  lemma InitInv(n: nat, rechecks: nat)
    ensures Inv(Init(n, rechecks))
  {
  }

  // ----- results, for every number of threads and every schedule

  lemma MutualExclusion(n: nat, rechecks: nat, sched: seq<Event>, t: nat, u: nat)
    requires t < n && u < n
    ensures var s := Run(Init(n, rechecks), sched);
      && |s.th| == n
      && (Holds(s.th[t]) && Holds(s.th[u]) ==> t == u)
      && (s.locked <==> exists w :: 0 <= w < n && Holds(s.th[w]))
  {
    Reachable(n, rechecks, sched);
  }

  /** No lost wake-up, as an invariant: while a thread sleeps, somebody is responsible. */
  lemma NoLostWakeup(n: nat, rechecks: nat, sched: seq<Event>)
    ensures var s := Run(Init(n, rechecks), sched); SomeSleeps(s) ==> Covered(s)
  {
    Reachable(n, rechecks, sched);
  }

  /** A free lock, a sleeper, and nobody else under way: never. */
  lemma NeverStranded(n: nat, rechecks: nat, sched: seq<Event>)
    ensures var s := Run(Init(n, rechecks), sched);
      !(!s.locked && SomeSleeps(s) && forall t :: 0 <= t < |s.th| ==> s.th[t].Idle? || s.th[t].Sleeping?)
  {
    Reachable(n, rechecks, sched);
  }

  // ----- the responsibility is discharged: sleepers wake without outside help

  /** `k` steps of thread `t` alone. */
  function Solo(s: State, t: nat, k: nat): State
    decreases k
  {
    if k == 0 then s else Solo(Step(s, Move(t, false, false, 0)), t, k - 1)
  }

  ghost predicate Awakens(s: State, t: nat, k: nat) {
    exists w :: 0 <= w < |s.th| && s.th[w].Sleeping? && w < |Solo(s, t, k).th| && !Solo(s, t, k).th[w].Sleeping?
  }

  /** `t` is on its way to a wake-up. */
  ghost predicate Responsible(s: State, t: nat) {
    && t < |s.th|
    && var pc := s.th[t];
      pc.WakeOne? || pc.ClearContended? || (pc.Recheck? && !s.locked) || (Holds(pc) && s.locked && s.contended)
  }

  function Rank(pc: Pc, rechecks: nat): nat {
    match pc
    case WakeOne => 1
    case ClearContended => 2
    case Recheck(left) => 2 + if left == 0 then 1 else left
    case StoreFree => 4 + rechecks
    case CasWord => 5 + rechecks
    case ReadWord => 6 + rechecks
    case Critical => 7 + rechecks
    case _ => 0
  }

  lemma DriveStep(s: State, t: nat)
    requires Responsible(s, t) && !s.th[t].WakeOne?
    ensures var s1 := Step(s, Move(t, false, false, 0));
      && Responsible(s1, t) && s1.rechecks == s.rechecks
      && Rank(s1.th[t], s.rechecks) < Rank(s.th[t], s.rechecks)
      && s1.th == s.th[t := s1.th[t]]
  {
  }

  lemma {:induction false} Drive(s: State, t: nat) returns (k: nat)
    requires Responsible(s, t) && SomeSleeps(s)
    ensures k <= Rank(s.th[t], s.rechecks) && Awakens(s, t, k)
    decreases Rank(s.th[t], s.rechecks)
  {
    var s1 := Step(s, Move(t, false, false, 0));
    var w0 :| 0 <= w0 < |s.th| && s.th[w0].Sleeping?;
    if s.th[t].WakeOne? {
      k := 1;
      var s0 := Go(s, t, Idle);
      assert s0.th[w0].Sleeping?;
      var w := if s0.th[0].Sleeping? then 0 else FirstSleeper(s0.th, 0);
      assert Solo(s1, t, 0) == s1;
      assert s.th[w].Sleeping? && Solo(s, t, 1).th[w].Xchg32?;
    } else {
      DriveStep(s, t);
      hide Step, Responsible, Rank;
      assert s1.th[w0].Sleeping?;
      var j := Drive(s1, t);
      k := j + 1;
      var w :| 0 <= w < |s1.th| && s1.th[w].Sleeping? && w < |Solo(s1, t, j).th| && !Solo(s1, t, j).th[w].Sleeping?;
      assert s.th[w].Sleeping? && !Solo(s, t, k).th[w].Sleeping?;
    }
  }

  predicate Active(s: State, t: nat) {
    t < |s.th| && !s.th[t].Idle? && !s.th[t].Sleeping?
  }

  lemma SomebodyRetries(s: State)
    requires Inv(s) && SomeSleeps(s)
    requires forall w :: 0 <= w < |s.th| ==> !Responsible(s, w)
    ensures SomeRetries(s)
  {
    if SomeWakes(s) {
      var u :| 0 <= u < |s.th| && (s.th[u].ClearContended? || s.th[u].WakeOne?);
      assert Responsible(s, u);
    } else if s.contended && s.locked {
      var u :| 0 <= u < |s.th| && Holds(s.th[u]);
      assert Responsible(s, u);
    } else if s.contended && SomeRechecks(s) {
      var u :| 0 <= u < |s.th| && s.th[u].Recheck?;
      assert Responsible(s, u);
    }
  }

  /** The retry either takes the lock or announces itself to the holder. */
  lemma RetryCovers(s: State) returns (a: nat)
    requires Inv(s) && SomeRetries(s) && SomeSleeps(s)
    ensures a < |s.th| && s.th[a].Xchg32?
    ensures var s1 := Solo(s, a, 1);
      Inv(s1) && |s1.th| == |s.th| && s1.rechecks == s.rechecks && SomeSleeps(s1) &&
      exists t :: 0 <= t < |s1.th| && Responsible(s1, t)
  {
    a :| 0 <= a < |s.th| && s.th[a].Xchg32?;
    var e := Move(a, false, false, 0);
    var s1 := Step(s, e);
    assert Solo(s, a, 1) == Solo(s1, a, 0) == s1;
    StepKeepsInv(s, e);
    var w :| 0 <= w < |s.th| && s.th[w].Sleeping?;
    assert s1.th[w].Sleeping?;
    if s.locked {
      var h :| 0 <= h < |s.th| && Holds(s.th[h]);
      assert Responsible(s1, h);
    } else {
      assert Responsible(s1, a);
    }
  }

  /** In every reachable state with a sleeper, two threads that are already under way
      suffice to wake one: `a` takes at most one step, then `t` at most rechecks + 7,
      with no new arrival and no spurious wake-up. */
  lemma WakeupWithinReach(n: nat, rechecks: nat, sched: seq<Event>) returns (a: nat, j: nat, t: nat, k: nat)
    requires SomeSleeps(Run(Init(n, rechecks), sched))
    ensures j <= 1 && k <= rechecks + 7
    ensures var s := Run(Init(n, rechecks), sched);
      (j == 1 ==> Active(s, a)) && Active(Solo(s, a, j), t) && Awakens(Solo(s, a, j), t, k)
  {
    Reachable(n, rechecks, sched);
    var s := Run(Init(n, rechecks), sched);
    a, j, t := 0, 0, 0;
    if w :| 0 <= w < |s.th| && Responsible(s, w) {
      t := w;
    } else {
      SomebodyRetries(s);
      a := RetryCovers(s);
      j := 1;
      var s1 := Solo(s, a, 1);
      t :| 0 <= t < |s1.th| && Responsible(s1, t);
    }
    var s2 := Solo(s, a, j);
    assert Rank(s2.th[t], rechecks) <= rechecks + 7;
    k := Drive(s2, t);
  }

  // ----- what a call comes to when it runs alone

  /** Each exchange obtains the lock exactly when nobody holds it; that of trylock gives up
      otherwise, and the last one of lock leads to sleep. */
  lemma TakenIffFree(n: nat, rechecks: nat, sched: seq<Event>, t: nat, try: bool, again: bool, wakee: nat)
    requires t < n
    ensures var s := Run(Init(n, rechecks), sched);
      |s.th| == n && (s.th[t].TryXchg8? || s.th[t].Xchg8? || s.th[t].Xchg32? ==>
        var s' := Step(s, Move(t, try, again, wakee));
        && |s'.th| == n
        && (s'.th[t].Critical? <==> forall u :: 0 <= u < n ==> !Holds(s.th[u]))
        && (s.th[t].TryXchg8? && !s'.th[t].Critical? ==> s'.th[t].Idle? && s'.locked && s'.contended == s.contended)
        && (s.th[t].Xchg32? && !s'.th[t].Critical? && !again ==> Solo(s', t, 1).th[t].Sleeping?))
  {
    Reachable(n, rechecks, sched);
    var s := Run(Init(n, rechecks), sched);
    hide Run, Covered, Counting;
    var s' := Step(s, Move(t, try, again, wakee));
    if s.locked {
      var u :| 0 <= u < |s.th| && Holds(s.th[u]);
      assert Solo(s', t, 1) == Solo(Step(s', Move(t, false, false, 0)), t, 0);
    }
  }

  /** mutexee_lock and mutexee_lock_trylock on a free lock take two steps. */
  lemma CallAlone(n: nat, rechecks: nat, sched: seq<Event>, t: nat, try: bool, again: bool, wakee: nat)
    requires t < n
    ensures var s := Run(Init(n, rechecks), sched);
      |s.th| == n && (s.th[t].Idle? ==>
        var e := Move(t, try, again, wakee);
        var s2 := Step(Step(s, e), e);
        && |s2.th| == n
        && (s2.th[t].Critical? <==> forall u :: 0 <= u < n ==> !Holds(s.th[u]))
        && (try && !s2.th[t].Critical? ==> s2 == s))
  {
    Reachable(n, rechecks, sched);
    var s := Run(Init(n, rechecks), sched);
    hide Run, Covered, Counting;
    var e := Move(t, try, again, wakee);
    if s.th[t].Idle? {
      var s1 := Step(s, e);
      assert s1 == Go(s, t, if try then TryXchg8 else Xchg8);
      if s.locked { assert s.th[t := TryXchg8][t := Idle] == s.th; }
    }
  }

  /** Owns the lock or has just freed it. */
  ghost predicate Unlocking(s: State, t: nat) {
    && t < |s.th|
    && var pc := s.th[t];
      (Holds(pc) && s.locked) || ((pc.Recheck? || pc.ClearContended?) && !s.locked) || (pc.WakeOne? && Word(s) == 0)
  }

  ghost predicate Freed(s: State, t: nat) {
    t < |s.th| && s.th[t].Idle? && Word(s) == 0
  }

  lemma UnlockStep(s: State, t: nat)
    requires Unlocking(s, t)
    ensures var s1 := Step(s, Move(t, false, false, 0));
      && s1.rechecks == s.rechecks
      && (Freed(s1, t) || (Unlocking(s1, t) && Rank(s1.th[t], s.rechecks) < Rank(s.th[t], s.rechecks)))
      && Rank(s.th[t], s.rechecks) >= 1
  {
  }

  lemma {:induction false} UnlockRuns(s: State, t: nat) returns (k: nat)
    requires Unlocking(s, t)
    ensures k <= Rank(s.th[t], s.rechecks) && Freed(Solo(s, t, k), t)
    decreases Rank(s.th[t], s.rechecks)
  {
    hide Step, Rank, Unlocking, Freed;
    var s1 := Step(s, Move(t, false, false, 0));
    UnlockStep(s, t);
    if Freed(s1, t) {
      k := 1;
      assert Solo(s1, t, 0) == s1;
    } else {
      var j := UnlockRuns(s1, t);
      k := j + 1;
    }
  }

  /** mutexee_unlock that nobody disturbs returns and leaves both bytes clear. */
  lemma UnlockAlone(n: nat, rechecks: nat, sched: seq<Event>, t: nat) returns (k: nat)
    requires var s := Run(Init(n, rechecks), sched); t < |s.th| && Holds(s.th[t])
    ensures k <= rechecks + 7
    ensures Freed(Solo(Run(Init(n, rechecks), sched), t, k), t)
  {
    Reachable(n, rechecks, sched);
    var s := Run(Init(n, rechecks), sched);
    k := UnlockRuns(s, t);
  }
}
