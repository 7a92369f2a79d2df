/** The sense-reversing barrier of src/sbarrier.c, used for any number of rounds.

    `rounds` counts the flips of sense_global, and each thread knows how many calls of
    barrier_wait it has completed; no step depends on either. */
module Barrier {
  import opened Sums

  datatype Pc =
    | Outside
    | ReadSense
    | Decrement(sense: bool)
    | Refill(sense: bool)
    | Flip(sense: bool)
    | Spin(sense: bool)

  /** `done` is the number of barrier_wait calls the thread has returned from. */
  datatype Thread = Thread(pc: Pc, done: nat)
  datatype Mem = Mem(crossed: int, sense: bool, rounds: nat)
  datatype State = State(m: Mem, th: seq<Thread>)
  datatype View = View(m: Mem, own: Thread)

  /** barrier_wait of one of `n` participants. */
  function StepThread(n: nat, m: Mem, own: Thread): View {
    match own.pc
    case Outside => View(m, own.(pc := ReadSense))
    case ReadSense => View(m, own.(pc := Decrement(!m.sense)))
    case Decrement(sense) =>
      View(m.(crossed := m.crossed - 1), own.(pc := if m.crossed == 1 then Refill(sense) else Spin(sense)))
    case Refill(sense) => View(m.(crossed := n), own.(pc := Flip(sense)))
    case Flip(sense) => View(m.(sense := sense, rounds := m.rounds + 1), Thread(Outside, own.done + 1))
    case Spin(sense) => View(m, if sense != m.sense then own else Thread(Outside, own.done + 1))
  }

  /** Every event is one step of one thread. */
  function Step(s: State, t: nat): State {
    if t < |s.th| then
      var v := StepThread(|s.th|, s.m, s.th[t]);
      State(v.m, s.th[t := v.own])
    else s
  }

  /** barrier_init */
  function Init(n: nat): State {
    State(Mem(n, true, 0), seq(n, i => Thread(Outside, 0)))
  }

  function Run(s: State, sched: seq<nat>): State {
    if sched == [] then s else Step(Run(s, sched[..|sched| - 1]), sched[|sched| - 1])
  }

  // ----- what holds in every state

  /** The thread has entered the round that is not yet complete. */
  predicate Arrived(m: Mem, own: Thread) {
    own.pc.Refill? || own.pc.Flip? || (own.pc.Spin? && own.done == m.rounds)
  }

  /** The thread is still spinning although its round is complete. */
  predicate Released(m: Mem, own: Thread) {
    own.pc.Spin? && own.done + 1 == m.rounds
  }

  /** The rounds that the thread has entered, as its decrement counts. */
  function Entered(own: Thread): nat {
    own.done + if own.pc.Refill? || own.pc.Flip? || own.pc.Spin? then 1 else 0
  }

  function Arrivals(m: Mem, th: seq<Thread>): seq<nat> {
    seq(|th|, t requires 0 <= t < |th| => if Arrived(m, th[t]) then 1 else 0)
  }

  predicate ThreadOk(m: Mem, own: Thread) {
    && (if Released(m, own) then own.pc.sense == m.sense else own.done == m.rounds)
    && (own.pc.Decrement? || own.pc.Refill? || own.pc.Flip? ==> own.pc.sense != m.sense)
    && (own.pc.Spin? && own.done == m.rounds ==> own.pc.sense != m.sense)
  }

  predicate Last(own: Thread) {
    own.pc.Refill? || own.pc.Flip?
  }

  predicate Inv(s: State) {
    && (forall t :: 0 <= t < |s.th| ==> ThreadOk(s.m, s.th[t]))
    && (forall t :: 0 <= t < |s.th| && Last(s.th[t]) ==> Sum(Arrivals(s.m, s.th)) == |s.th|)
    && (forall t, u :: 0 <= t < |s.th| && 0 <= u < |s.th| && t != u ==> !(Last(s.th[t]) && Last(s.th[u])))
    && (if exists t :: 0 <= t < |s.th| && s.th[t].pc.Flip? then s.m.crossed == |s.th|
        else s.m.crossed == |s.th| - Sum(Arrivals(s.m, s.th)))
    && ((forall t :: 0 <= t < |s.th| ==> !Last(s.th[t])) ==> Sum(Arrivals(s.m, s.th)) < |s.th| || |s.th| == 0)
  }

  // ----- proofs

  /** All have arrived when the count says so. */
  lemma {:induction false} AllArrived(a: seq<nat>, t: nat)
    requires (forall i :: 0 <= i < |a| ==> a[i] <= 1) && Sum(a) == |a| && t < |a|
    ensures a[t] == 1
  {
    var n := |a| - 1;
    SumAtMost(a[..n], 1);
    if t < n { AllArrived(a[..n], t); }
  }

  lemma EverybodyArrived(s: State, t: nat)
    requires Sum(Arrivals(s.m, s.th)) == |s.th| && t < |s.th|
    ensures Arrived(s.m, s.th[t])
  {
    AllArrived(Arrivals(s.m, s.th), t);
  }

  /** The decrement: the thread arrives, and is the last if the count was 1. */
  lemma DecrementStep(s: State, t: nat)
    requires Inv(s) && t < |s.th| && s.th[t].pc.Decrement?
    ensures Inv(Step(s, t))
  {
    var s' := Step(s, t);
    var a, a' := Arrivals(s.m, s.th), Arrivals(s'.m, s'.th);
    assert forall u :: 0 <= u < |s.th| && u != t ==> s'.th[u] == s.th[u];
    SumUpdate(a, a', t);
    SumAtMost(a', 1);
    forall u | 0 <= u < |s.th|
      ensures !Last(s.th[u])
    {
      if Last(s.th[u]) { EverybodyArrived(s, t); }
    }
  }

  /** A step that changes neither the rounds nor the arrivals. */
  lemma QuietStep(s: State, t: nat)
    requires Inv(s) && t < |s.th| && !s.th[t].pc.Flip? && !s.th[t].pc.Decrement?
    ensures Inv(Step(s, t))
  {
    var s' := Step(s, t);
    assert s'.m.rounds == s.m.rounds && s'.m.sense == s.m.sense;
    forall u | 0 <= u < |s.th|
      ensures Last(s'.th[u]) == Last(s.th[u]) && Arrived(s'.m, s'.th[u]) == Arrived(s.m, s.th[u])
      ensures u != t ==> s'.th[u] == s.th[u]
    {
    }
    assert Arrivals(s'.m, s'.th) == Arrivals(s.m, s.th);
    assert ThreadOk(s'.m, s'.th[t]);
    if s.th[t].pc.Refill? {
      assert s'.th[t].pc.Flip?;
    } else if u :| 0 <= u < |s.th| && s.th[u].pc.Flip? {
      assert s'.th[u].pc.Flip?;
    }
    hide Arrived, Released;
  }

  /** The flip: everybody has arrived, and everybody is released. */
  lemma FlipStep(s: State, t: nat)
    requires Inv(s) && t < |s.th| && s.th[t].pc.Flip?
    ensures Inv(Step(s, t))
  {
    var s' := Step(s, t);
    forall u | 0 <= u < |s.th|
      ensures Arrived(s.m, s.th[u]) && !Arrived(s'.m, s'.th[u]) && ThreadOk(s'.m, s'.th[u]) && !Last(s'.th[u])
    {
      EverybodyArrived(s, u);
      assert u != t ==> s.th[u].pc.Spin?;
    }
    SumZero(Arrivals(s'.m, s'.th));
  }

  lemma {:induction false} Reachable(n: nat, sched: seq<nat>)
    ensures Inv(Run(Init(n), sched)) && |Run(Init(n), sched).th| == n
  {
    if sched == [] {
      SumZero(Arrivals(Init(n).m, Init(n).th));
    } else {
      Reachable(n, sched[..|sched| - 1]);
      var s := Run(Init(n), sched[..|sched| - 1]);
      var t := sched[|sched| - 1];
      if t < |s.th| {
        if s.th[t].pc.Flip? {
          FlipStep(s, t);
        } else if s.th[t].pc.Decrement? {
          DecrementStep(s, t);
        } else {
          QuietStep(s, t);
        }
      }
    }
  }

  // ----- results

  /** Nobody leaves a round that somebody has not entered: when thread `t` has returned from
      its k-th call, thread `u` has made its k-th decrement, in every round. */
  lemma NobodyLeavesEarly(n: nat, sched: seq<nat>, t: nat, u: nat)
    requires t < n && u < n
    ensures var th := Run(Init(n), sched).th; |th| == n && th[t].done <= Entered(th[u])
  {
    Reachable(n, sched);
    var s := Run(Init(n), sched);
    assert ThreadOk(s.m, s.th[t]) && ThreadOk(s.m, s.th[u]);
  }

  /** Two threads are never more than one round apart. */
  lemma OneRoundApart(n: nat, sched: seq<nat>, t: nat, u: nat)
    requires t < n && u < n
    ensures var th := Run(Init(n), sched).th; |th| == n && th[t].done <= th[u].done + 1
  {
    Reachable(n, sched);
    var s := Run(Init(n), sched);
    assert ThreadOk(s.m, s.th[t]) && ThreadOk(s.m, s.th[u]);
  }

  /** While crossed_n is being refilled no thread can decrement it, and whoever is about to
      decrement it finds it full but for the threads already in the same round. */
  lemma RefilledInTime(n: nat, sched: seq<nat>, t: nat)
    requires var th := Run(Init(n), sched).th; t < |th| && th[t].pc.Decrement?
    ensures var s := Run(Init(n), sched);
      && s.m.crossed == n - Sum(Arrivals(s.m, s.th)) && 1 <= s.m.crossed <= n
      && forall u :: 0 <= u < |s.th| ==> !Last(s.th[u])
  {
    Reachable(n, sched);
    var s := Run(Init(n), sched);
    forall u | 0 <= u < |s.th|
      ensures !Last(s.th[u])
    {
      if Last(s.th[u]) { EverybodyArrived(s, t); }
    }
  }

  /** A round that everybody has entered ends: the thread that came last flips within two
      steps, and then every other thread leaves at its next step. */
  lemma LastOneReleases(n: nat, sched: seq<nat>, t: nat, u: nat)
    requires var th := Run(Init(n), sched).th; t < |th| && u < |th| && t != u && th[t].pc.Refill?
    ensures var s := Run(Init(n), sched);
      var s2 := Step(Step(s, t), t);
      |s.th| == n && s.th[u].pc.Spin? && Step(s2, u).th[u] == Thread(Outside, s.th[u].done + 1)
  {
    Reachable(n, sched);
    var s := Run(Init(n), sched);
    assert Last(s.th[t]);
    EverybodyArrived(s, u);
    assert ThreadOk(s.m, s.th[u]) && ThreadOk(s.m, s.th[t]);
  }

  // ----- rounds end

  /** How far the thread is from its decrement in the round that is not yet complete. */
  function Distance(m: Mem, own: Thread): nat {
    match own.pc
    case Outside => 3
    case ReadSense => 2
    case Decrement(_) => 1
    case _ => if Released(m, own) then 4 else 0
  }

  function Distances(m: Mem, th: seq<Thread>): seq<nat> {
    seq(|th|, t requires 0 <= t < |th| => Distance(m, th[t]))
  }

  /** A thread that has not arrived comes nearer with every step, and nobody else moves. */
  lemma ComesNearer(s: State, t: nat)
    requires Inv(s) && t < |s.th| && Distance(s.m, s.th[t]) > 0
    ensures var s' := Step(s, t);
      && |s'.th| == |s.th| && s'.m.rounds == s.m.rounds
      && Sum(Distances(s'.m, s'.th)) < Sum(Distances(s.m, s.th))
  {
    var s' := Step(s, t);
    assert ThreadOk(s.m, s.th[t]);
    assert s'.m.rounds == s.m.rounds && s'.m.sense == s.m.sense;
    SumUpdate(Distances(s.m, s.th), Distances(s'.m, s'.th), t);
  }

  lemma StepKeepsInv(s: State, t: nat)
    requires Inv(s) && t < |s.th|
    ensures Inv(Step(s, t))
  {
    hide Inv, Step;
    if s.th[t].pc.Flip? {
      FlipStep(s, t);
    } else if s.th[t].pc.Decrement? {
      DecrementStep(s, t);
    } else {
      QuietStep(s, t);
    }
  }

  lemma {:induction false} RunMore(s: State, t: nat, more: seq<nat>)
    ensures Run(s, [t] + more) == Run(Step(s, t), more)
  {
    if more == [] {
      assert [t] + more == [t] && [t][..0] == [];
      assert Run(s, []) == s;
    } else {
      RunMore(s, t, more[..|more| - 1]);
      assert ([t] + more)[..|more|] == [t] + more[..|more| - 1];
    }
  }

  /** When everybody has arrived, the last one to come completes the round. */
  lemma AllIn(s: State) returns (more: seq<nat>)
    requires Inv(s) && |s.th| > 0 && forall t :: 0 <= t < |s.th| ==> Distance(s.m, s.th[t]) == 0
    ensures Run(s, more).m.rounds == s.m.rounds + 1
  {
    forall t | 0 <= t < |s.th|
      ensures Arrived(s.m, s.th[t])
    {
      assert ThreadOk(s.m, s.th[t]);
    }
    SumAllOnes(Arrivals(s.m, s.th));
    var t :| 0 <= t < |s.th| && Last(s.th[t]);
    var s1 := Step(s, t);
    assert Run(s1, []) == s1 && Run(Step(s1, t), []) == Step(s1, t);
    RunMore(s, t, []);
    assert [t] + [] == [t];
    if s.th[t].pc.Refill? {
      RunMore(s1, t, []);
      RunMore(s, t, [t]);
      assert [t] + [t] == [t, t];
      more := [t, t];
    } else {
      more := [t];
    }
  }

  lemma {:induction false} SumAllOnes(a: seq<nat>)
    requires forall i :: 0 <= i < |a| ==> a[i] == 1
    ensures Sum(a) == |a|
  {
    if a != [] { SumAllOnes(a[..|a| - 1]); }
  }

  lemma {:induction false} RoundEnds(s: State) returns (more: seq<nat>)
    requires Inv(s) && |s.th| > 0
    ensures Run(s, more).m.rounds == s.m.rounds + 1
    decreases Sum(Distances(s.m, s.th))
  {
    hide Step, Inv, Distance;
    if t :| 0 <= t < |s.th| && Distance(s.m, s.th[t]) > 0 {
      ComesNearer(s, t);
      StepKeepsInv(s, t);
      var rest := RoundEnds(Step(s, t));
      more := [t] + rest;
      RunMore(s, t, rest);
    } else {
      more := AllIn(s);
    }
  }

  /** The barrier never blocks for good: from every reachable state of one or more threads, some
      schedule completes the round. */
  lemma NextRoundComes(n: nat, sched: seq<nat>) returns (more: seq<nat>)
    requires n > 0
    ensures Run(Run(Init(n), sched), more).m.rounds == Run(Init(n), sched).m.rounds + 1
  {
    Reachable(n, sched);
    hide Run, Inv;
    more := RoundEnds(Run(Init(n), sched));
  }
}
