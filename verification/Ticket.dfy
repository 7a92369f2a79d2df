/** The ticket lock of include/ticket_in.h, with its 32-bit counters that wrap around.

    `issued` and `served` are the counts that head and tail would have without wrapping, and
    each waiting or holding thread remembers the number of its ticket among all tickets ever
    issued, a thread in trylock how many had been issued when it read tail. No step depends
    on these numbers except through their residues. */
module Ticket {
  import opened Sums

  const M := 0x1_0000_0000

  datatype Pc =
    | Idle
      // ticket_lock_lock
    | Add
    | Spin(g: nat)
      // ticket_lock_trylock
    | TryTail
    | TryHead(at: nat)
    | TryCas(at: nat)
    | Critical(g: nat)
      // ticket_lock_unlock: head++ is a read and a write
    | UnlockRead(g: nat)
    | UnlockWrite(g: nat, h: nat)

  datatype Mem = Mem(head: nat, tail: nat, issued: nat, served: nat)
  datatype State = State(m: Mem, th: seq<Pc>)
  datatype View = View(m: Mem, pc: Pc)

  datatype Choice = Lock | TryLock | Unlock
  datatype Event = Move(t: nat, choice: Choice)

  /** Subtraction of 32-bit numbers. */
  function Minus(a: int, b: int): int {
    (a - b) % M
  }

  function StepThread(m: Mem, pc: Pc, choice: Choice): View {
    match pc
    case Idle => View(m, match choice case Lock => Add case TryLock => TryTail case Unlock => Idle)
    case Add => View(m.(tail := (m.tail + 1) % M, issued := m.issued + 1), Spin(m.issued + 1))
    case Spin(g) => View(m, if Minus(g % M, m.head) == 0 then Critical(g) else Spin(g))
    case TryTail => View(m, TryHead(m.issued))
    case TryHead(at) => View(m, if Minus(m.head, at % M) == 1 then TryCas(at) else Idle)
    case TryCas(at) =>
      if m.tail == at % M then View(m.(tail := (at % M + 1) % M, issued := m.issued + 1), Critical(m.issued + 1))
      else View(m, Idle)
    case Critical(g) => View(m, if choice.Unlock? then UnlockRead(g) else pc)
    case UnlockRead(g) => View(m, UnlockWrite(g, m.head))
    case UnlockWrite(g, h) => View(m.(head := (h + 1) % M, served := m.served + 1), Idle)
  }

  function Step(s: State, e: Event): State {
    if e.t < |s.th| then
      var v := StepThread(s.m, s.th[e.t], e.choice);
      State(v.m, s.th[e.t := v.pc])
    else s
  }

  function Init(n: nat): State {
    State(Mem(1, 0, 0, 0), seq(n, i => Idle))
  }

  function Run(s: State, sched: seq<Event>): State {
    if sched == [] then s else Step(Run(s, sched[..|sched| - 1]), sched[|sched| - 1])
  }

  // ----- what holds in every state

  predicate HasTicket(pc: Pc) {
    pc.Spin? || pc.Critical? || pc.UnlockRead? || pc.UnlockWrite?
  }

  predicate Holds(pc: Pc) {
    pc.Critical? || pc.UnlockRead? || pc.UnlockWrite?
  }

  predicate Trying(pc: Pc) {
    pc.TryHead? || pc.TryCas?
  }

  /** Fewer than 2^32 tickets since a thread in trylock read tail. */
  predicate Timely(m: Mem, pc: Pc) {
    Trying(pc) ==> m.issued - pc.at < M
  }

  predicate AllTimely(s: State) {
    forall t :: 0 <= t < |s.th| ==> Timely(s.m, s.th[t])
  }

  /** The same in every state of the run. */
  predicate TimelyRun(s: State, sched: seq<Event>) {
    AllTimely(Run(s, sched)) && (sched == [] || TimelyRun(s, sched[..|sched| - 1]))
  }

  function Tickets(th: seq<Pc>): seq<nat> {
    seq(|th|, t requires 0 <= t < |th| => if HasTicket(th[t]) then 1 else 0)
  }

  predicate ThreadOk(m: Mem, pc: Pc) {
    && (HasTicket(pc) ==> m.served < pc.g <= m.issued)
    && (Holds(pc) ==> pc.g == m.served + 1)
    && (pc.UnlockWrite? ==> pc.h == m.head)
    && (Trying(pc) ==> pc.at <= m.issued)
    && (pc.TryCas? ==> pc.at <= m.served)
  }

  predicate MemOk(m: Mem) {
    m.head == (m.served + 1) % M && m.tail == m.issued % M && m.served <= m.issued
  }

  predicate Inv(s: State) {
    && MemOk(s.m)
    && Sum(Tickets(s.th)) == s.m.issued - s.m.served
    && (forall t :: 0 <= t < |s.th| ==> ThreadOk(s.m, s.th[t]))
    && (forall t, u :: 0 <= t < |s.th| && 0 <= u < |s.th| && t != u && HasTicket(s.th[t]) && HasTicket(s.th[u]) ==>
          s.th[t].g != s.th[u].g)
  }

  // ----- modular arithmetic

  /** Numbers less than 2^32 apart are equal when their residues are. */
  lemma SameResidue(a: int, b: int)
    requires -M < a - b < M && a % M == b % M
    ensures a == b
  {
  }

  lemma Residues(a: int, b: int)
    ensures (a % M + 1) % M == (a + 1) % M
    ensures Minus(a % M, b % M) == (a - b) % M
  {
  }

  lemma Outstanding(issued: nat, served: nat)
    requires 0 <= issued - served < M
    ensures Minus(issued % M + 1, (served + 1) % M) == issued - served
  {
    var a, b := issued % M + 1, (served + 1) % M;
    assert issued == M * (issued / M) + a - 1 && served + 1 == M * ((served + 1) / M) + b;
    assert a - b - (issued - served) == M * ((served + 1) / M - issued / M);
    MultipleGone(a - b, issued - served, (served + 1) / M - issued / M);
  }

  lemma MultipleGone(x: int, y: int, k: int)
    requires x - y == M * k && 0 <= y < M
    ensures x % M == y
  {
  }

  // ----- one step

  /** The lock is free when trylock's compare-and-swap succeeds. */
  lemma TryFree(m: Mem, pc: Pc)
    requires MemOk(m) && ThreadOk(m, pc) && Timely(m, pc) && m.issued - m.served < M
    ensures pc.TryHead? && Minus(m.head, pc.at % M) == 1 ==> m.served == pc.at
    ensures pc.TryCas? && m.tail == pc.at % M ==> m.served == m.issued == pc.at
  {
    if pc.TryHead? && Minus(m.head, pc.at % M) == 1 {
      Residues(m.served + 1, pc.at);
      assert (m.served + 1 - pc.at) % M == 1;
      assert m.served % M == pc.at % M;
      SameResidue(m.served, pc.at);
    }
    if pc.TryCas? && m.tail == pc.at % M {
      SameResidue(m.issued, pc.at);
    }
  }

  /** A thread that sees distance 0 has the ticket to be served next. */
  lemma SpinServed(m: Mem, pc: Pc)
    requires MemOk(m) && ThreadOk(m, pc) && pc.Spin? && m.issued - m.served < M && Minus(pc.g % M, m.head) == 0
    ensures pc.g == m.served + 1
  {
    Residues(pc.g, m.served + 1);
    SameResidue(pc.g, m.served + 1);
  }

  lemma ThreadStep(m: Mem, pc: Pc, choice: Choice)
    requires MemOk(m) && ThreadOk(m, pc) && Timely(m, pc) && m.issued - m.served < M
    ensures var v := StepThread(m, pc, choice);
      && MemOk(v.m) && ThreadOk(v.m, v.pc)
      && v.m.issued >= m.issued && v.m.served >= m.served
      && (HasTicket(v.pc) ==> if HasTicket(pc) then v.pc.g == pc.g else v.pc.g == m.issued + 1 == v.m.issued)
      && v.m.issued - v.m.served == m.issued - m.served
           + (if HasTicket(v.pc) then 1 else 0) - (if HasTicket(pc) then 1 else 0)
      && (v.m.served != m.served ==> Holds(pc) && !HasTicket(v.pc) && v.m.served == m.served + 1)
      && (v.m.head != m.head ==> Holds(pc))
  {
    Residues(m.issued, 0);
    Residues(m.served + 1, 0);
    TryFree(m, pc);
    if pc.Spin? && Minus(pc.g % M, m.head) == 0 { SpinServed(m, pc); }
    hide Minus;
  }

  lemma OtherStep(m: Mem, pc: Pc, choice: Choice, q: Pc)
    requires MemOk(m) && ThreadOk(m, pc) && Timely(m, pc) && m.issued - m.served < M && ThreadOk(m, q)
    requires HasTicket(pc) && HasTicket(q) ==> pc.g != q.g
    ensures ThreadOk(StepThread(m, pc, choice).m, q)
  {
    ThreadStep(m, pc, choice);
    hide StepThread;
  }

  lemma StepKeepsInv(s: State, e: Event)
    requires Inv(s) && AllTimely(s) && |s.th| < M
    ensures Inv(Step(s, e))
  {
    if e.t < |s.th| {
      var t, pc := e.t, s.th[e.t];
      var v := StepThread(s.m, pc, e.choice);
      var s' := Step(s, e);
      SumAtMost(Tickets(s.th), 1);
      ThreadStep(s.m, pc, e.choice);
      SumUpdate(Tickets(s.th), Tickets(s'.th), t);
      forall u | 0 <= u < |s.th|
        ensures ThreadOk(s'.m, s'.th[u])
      {
        if u != t { OtherStep(s.m, pc, e.choice, s.th[u]); }
        hide StepThread;
      }
      hide StepThread, MemOk;
    }
  }

  lemma {:induction false} Reachable(n: nat, sched: seq<Event>)
    requires n < M && TimelyRun(Init(n), sched)
    ensures Inv(Run(Init(n), sched)) && |Run(Init(n), sched).th| == n
  {
    if sched == [] {
      SumZero(Tickets(Init(n).th));
    } else {
      Reachable(n, sched[..|sched| - 1]);
      StepKeepsInv(Run(Init(n), sched[..|sched| - 1]), sched[|sched| - 1]);
    }
  }

  // ----- results

  /** Exclusion and order: whoever has the lock is alone, and was issued its ticket before
      everybody who waits, however often the counters have wrapped. */
  lemma ExclusiveAndFifo(n: nat, sched: seq<Event>, t: nat, u: nat)
    requires n < M && TimelyRun(Init(n), sched)
    requires var th := Run(Init(n), sched).th; t < |th| && u < |th| && t != u && Holds(th[t])
    ensures var th := Run(Init(n), sched).th; !Holds(th[u]) && (th[u].Spin? ==> th[t].g < th[u].g)
  {
    Reachable(n, sched);
  }

  /** tail - head + 1, as the code computes it, is the number of outstanding tickets. */
  lemma DistanceIsOutstanding(n: nat, sched: seq<Event>)
    requires n < M && TimelyRun(Init(n), sched)
    ensures var s := Run(Init(n), sched); Minus(s.m.tail + 1, s.m.head) == Sum(Tickets(s.th))
  {
    Reachable(n, sched);
    var s := Run(Init(n), sched);
    SumAtMost(Tickets(s.th), 1);
    Outstanding(s.m.issued, s.m.served);
    hide Minus;
  }

  /** The thread with the next ticket gets the lock at its next look, and nobody else does. */
  lemma NextIsServed(n: nat, sched: seq<Event>, t: nat)
    requires n < M && TimelyRun(Init(n), sched)
    requires var s := Run(Init(n), sched); t < |s.th| && s.th[t].Spin?
    ensures var s := Run(Init(n), sched);
      Step(s, Move(t, Lock)).th[t].Critical? <==> s.th[t].g == s.m.served + 1
  {
    Reachable(n, sched);
    var s := Run(Init(n), sched);
    SumAtMost(Tickets(s.th), 1);
    Residues(s.th[t].g, s.m.served + 1);
    if Minus(s.th[t].g % M, s.m.head) == 0 { SpinServed(s.m, s.th[t]); }
  }

  /** `k` steps of thread `t` alone. */
  function Solo(s: State, t: nat, choice: Choice, k: nat): State
    decreases k
  {
    if k == 0 then s else Solo(Step(s, Move(t, choice)), t, choice, k - 1)
  }

  lemma Several(s: State, t: nat, choice: Choice)
    ensures var e := Move(t, choice);
      var s2 := Step(Step(s, e), e);
      && Solo(s, t, choice, 3) == Step(s2, e)
      && Solo(s, t, choice, 4) == Step(Step(s2, e), e)
  {
    var e := Move(t, choice);
    var s1 := Step(s, e);
    var s2 := Step(s1, e);
    var s3 := Step(s2, e);
    var s4 := Step(s3, e);
    assert Solo(s3, t, choice, 0) == s3 && Solo(s4, t, choice, 0) == s4;
    assert Solo(s2, t, choice, 1) == s3 && Solo(s3, t, choice, 1) == s4;
    assert Solo(s1, t, choice, 2) == Solo(s2, t, choice, 1) && Solo(s2, t, choice, 2) == Solo(s3, t, choice, 1);
    assert Solo(s1, t, choice, 3) == Solo(s2, t, choice, 2);
  }

  predicate SomeTicket(th: seq<Pc>) {
    exists t :: 0 <= t < |th| && HasTicket(th[t])
  }

  lemma NoTicket(s: State)
    requires Inv(s)
    ensures s.m.issued == s.m.served <==> !SomeTicket(s.th)
  {
    if !SomeTicket(s.th) { SumZero(Tickets(s.th)); }
    if t :| 0 <= t < |s.th| && HasTicket(s.th[t]) { SumAtLeast(Tickets(s.th), t); }
  }

  lemma HeadSaysFree(issued: nat, served: nat)
    requires served <= issued < served + M
    ensures Minus((served + 1) % M, issued % M) == 1 <==> issued == served
  {
    Residues(served + 1, issued);
    if (served + 1 - issued) % M == 1 { SameResidue(served, issued); }
  }

  /** ticket_lock_trylock without interruption takes the lock exactly when no ticket is
      outstanding, and otherwise returns without a trace. */
  lemma TryLockAlone(n: nat, sched: seq<Event>, t: nat)
    requires n < M && TimelyRun(Init(n), sched)
    requires var s := Run(Init(n), sched); t < |s.th| && s.th[t].Idle?
    ensures var s := Run(Init(n), sched);
      if SomeTicket(s.th) then Solo(s, t, TryLock, 3) == s
      else t < |Solo(s, t, TryLock, 4).th| && Solo(s, t, TryLock, 4).th[t] == Critical(s.m.issued + 1)
  {
    hide Run, TimelyRun, Solo, SomeTicket;
    Reachable(n, sched);
    var s := Run(Init(n), sched);
    SumAtMost(Tickets(s.th), 1);
    NoTicket(s);
    HeadSaysFree(s.m.issued, s.m.served);
    Several(s, t, TryLock);
    hide Minus;
    var e := Move(t, TryLock);
    var s2 := Step(Step(s, e), e);
    assert s2 == State(s.m, s.th[t := TryHead(s.m.issued)]);
    if SomeTicket(s.th) { assert Step(s2, e).th == s.th; }
  }

  /** ticket_lock_lock on a free lock takes three steps. */
  lemma LockAlone(n: nat, sched: seq<Event>, t: nat)
    requires n < M && TimelyRun(Init(n), sched)
    requires var s := Run(Init(n), sched); t < |s.th| && s.th[t].Idle? && !SomeTicket(s.th)
    ensures var s := Run(Init(n), sched);
      t < |Solo(s, t, Lock, 3).th| && Solo(s, t, Lock, 3).th[t] == Critical(s.m.issued + 1)
  {
    hide Run, TimelyRun, Solo, SomeTicket;
    Reachable(n, sched);
    var s := Run(Init(n), sched);
    NoTicket(s);
    Several(s, t, Lock);
    Residues(s.m.issued + 1, s.m.served + 1);
  }

  /** ticket_lock_unlock takes three steps and passes the lock to the next ticket. */
  lemma UnlockAlone(n: nat, sched: seq<Event>, t: nat)
    requires n < M && TimelyRun(Init(n), sched)
    requires var s := Run(Init(n), sched); t < |s.th| && s.th[t].Critical?
    ensures var s := Run(Init(n), sched);
      var s' := Solo(s, t, Unlock, 3);
      t < |s'.th| && s'.th[t].Idle? && s'.m.served == s.m.served + 1 == s.th[t].g && s'.m.issued == s.m.issued
  {
    hide Run, TimelyRun, Solo;
    Reachable(n, sched);
    var s := Run(Init(n), sched);
    Several(s, t, Unlock);
  }

  // ----- the window of trylock is exact

  /** Thread 0 is about to compare and swap, thread 1 has had the lock `k` times. */
  function AfterRounds(n: nat, k: nat): State {
    State(Mem((k + 1) % M, k % M, k, k), seq(n, i => if i == 0 then TryCas(0) else Idle))
  }

  lemma RunThree(s: State, sched: seq<Event>, a: Event, b: Event, c: Event)
    ensures Run(s, sched + [a, b, c]) == Step(Step(Step(Run(s, sched), a), b), c)
  {
    assert (sched + [a, b, c])[..|sched| + 2] == sched + [a, b];
    assert (sched + [a, b])[..|sched| + 1] == sched + [a];
    assert (sched + [a])[..|sched|] == sched;
    assert Run(s, sched + [a]) == Step(Run(s, sched), a);
    assert Run(s, sched + [a, b]) == Step(Run(s, sched + [a]), b);
  }

  lemma OneRound(n: nat, k: nat)
    requires n >= 2
    ensures var s := AfterRounds(n, k);
      var l, u := Move(1, Lock), Move(1, Unlock);
      var s3 := Step(Step(Step(s, l), l), l);
      && s3 == State(Mem((k + 1) % M, (k + 1) % M, k + 1, k), s.th[1 := Critical(k + 1)])
      && Step(Step(Step(s3, u), u), u) == AfterRounds(n, k + 1)
  {
    var s := AfterRounds(n, k);
    var l, u := Move(1, Lock), Move(1, Unlock);
    Residues(k, 0);
    Residues(k + 1, 0);
    var s3 := Step(Step(Step(s, l), l), l);
    assert s3.th == s.th[1 := Critical(k + 1)];
    var s6 := Step(Step(Step(s3, u), u), u);
    assert s6.th == AfterRounds(n, k + 1).th;
  }

  lemma {:induction false} Rounds(n: nat, k: nat) returns (sched: seq<Event>)
    requires n >= 2
    ensures Run(Init(n), sched) == AfterRounds(n, k)
  {
    if k == 0 {
      sched := [] + [Move(0, TryLock), Move(0, TryLock), Move(0, TryLock)];
      RunThree(Init(n), [], Move(0, TryLock), Move(0, TryLock), Move(0, TryLock));
      assert Run(Init(n), []) == Init(n);
      assert Run(Init(n), sched).th == AfterRounds(n, 0).th;
    } else {
      var before := Rounds(n, k - 1);
      var l, u := Move(1, Lock), Move(1, Unlock);
      sched := before + [l, l, l] + [u, u, u];
      RunThree(Init(n), before, l, l, l);
      RunThree(Init(n), before + [l, l, l], u, u, u);
      OneRound(n, k - 1);
    }
  }

  /** 2^32 tickets between trylock's read of tail and its compare-and-swap are enough for
      two threads to hold the lock: the bound on the window cannot be any larger. */
  lemma WindowExact(n: nat) returns (sched: seq<Event>)
    requires n >= 2
    ensures var s := Run(Init(n), sched); |s.th| == n && Holds(s.th[0]) && Holds(s.th[1]) && s.m.issued == M + 1
  {
    var before := Rounds(n, M - 1);
    var l := Move(1, Lock);
    RunThree(Init(n), before, l, l, l);
    OneRound(n, M - 1);
    sched := before + [l, l, l] + [Move(0, TryLock)];
    assert sched[..|sched| - 1] == before + [l, l, l];
  }
}
