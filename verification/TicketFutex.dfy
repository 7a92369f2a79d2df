/** The ticket lock of include/ticket_fu_in.h: threads far from their turn sleep in a futex
    on `head`, and every unlock wakes all of them.

    As in module Ticket, `issued`, `served` and the ticket numbers of the threads are those
    without wrapping; `seen` is the number served when a thread read head. */
module TicketFutex {
  import opened Sums
  import T = Ticket

  const M := T.M
  const INT_MAX := 0x7FFF_FFFF

  datatype Pc =
    | Idle
      // ticket_fu_lock_lock
    | Add
    | FirstRead(g: nat)
    | FutexWait(g: nat, seen: nat)
    | Sleeping(g: nat, seen: nat)
    | Reread(g: nat)
    | Spin(g: nat)
      // ticket_fu_lock_trylock
    | TryTail
    | TryHead(at: nat)
    | TryCas(at: nat)
    | Critical(g: nat)
      // ticket_fu_lock_unlock
    | UnlockRead(g: nat)
    | UnlockWrite(g: nat, h: nat)
    | WakeAll

  datatype Mem = Mem(head: nat, tail: nat, issued: nat, served: nat)
  datatype State = State(m: Mem, th: seq<Pc>)
  datatype View = View(m: Mem, pc: Pc)

  datatype Choice = Lock | TryLock | Unlock | Spurious
  datatype Event = Move(t: nat, choice: Choice)

  /** The distance as a signed 32-bit number. */
  function Distance(g: nat, head: nat): int {
    var d := T.Minus(g % M, head);
    if d > INT_MAX then d - M else d
  }

  function StepThread(m: Mem, pc: Pc, choice: Choice): View {
    match pc
    case Idle => View(m, match choice case Lock => Add case TryLock => TryTail case _ => Idle)
    case Add => View(m.(tail := (m.tail + 1) % M, issued := m.issued + 1), FirstRead(m.issued + 1))
    case FirstRead(g) =>
      var d := Distance(g, m.head);
      View(m, if d == 0 then Critical(g) else if d > 1 then FutexWait(g, m.served) else Spin(g))
    case FutexWait(g, seen) => View(m, if m.head == (seen + 1) % M then Sleeping(g, seen) else Reread(g))
    case Sleeping(g, seen) => View(m, if choice.Spurious? then Reread(g) else pc)
    case Reread(g) => View(m, if Distance(g, m.head) > 1 then FutexWait(g, m.served) else Spin(g))
    case Spin(g) => View(m, if Distance(g, m.head) == 0 then Critical(g) else Spin(g))
    case TryTail => View(m, TryHead(m.issued))
    case TryHead(at) => View(m, if T.Minus(m.head, at % M) == 1 then TryCas(at) else Idle)
    case TryCas(at) =>
      if m.tail == at % M then View(m.(tail := (at % M + 1) % M, issued := m.issued + 1), Critical(m.issued + 1))
      else View(m, Idle)
    case Critical(g) => View(m, if choice.Unlock? then UnlockRead(g) else pc)
    case UnlockRead(g) => View(m, UnlockWrite(g, m.head))
    case UnlockWrite(g, h) => View(m.(head := (h + 1) % M, served := m.served + 1), WakeAll)
    case WakeAll => View(m, Idle)
  }

  function Woken(pc: Pc): Pc {
    if pc.Sleeping? then Reread(pc.g) else pc
  }

  function Step(s: State, e: Event): State {
    if e.t < |s.th| then
      var v := StepThread(s.m, s.th[e.t], e.choice);
      var th := if s.th[e.t].WakeAll? then seq(|s.th|, t requires 0 <= t < |s.th| => Woken(s.th[t])) else s.th;
      State(v.m, th[e.t := v.pc])
    else s
  }

  function Init(n: nat): State {
    State(Mem(1, 0, 0, 0), seq(n, i => Idle))
  }

  function Run(s: State, sched: seq<Event>): State {
    if sched == [] then s else Step(Run(s, sched[..|sched| - 1]), sched[|sched| - 1])
  }

  // ----- what holds in every state

  predicate Waits(pc: Pc) {
    pc.FirstRead? || pc.FutexWait? || pc.Sleeping? || pc.Reread? || pc.Spin?
  }

  predicate Holds(pc: Pc) {
    pc.Critical? || pc.UnlockRead? || pc.UnlockWrite?
  }

  predicate HasTicket(pc: Pc) {
    Waits(pc) || Holds(pc)
  }

  predicate Trying(pc: Pc) {
    pc.TryHead? || pc.TryCas?
  }

  /** Fewer than 2^32 tickets since a thread in trylock read tail. */
  predicate Timely(m: Mem, pc: Pc) {
    Trying(pc) ==> m.issued - pc.at < M
  }

  predicate AllTimely(s: State) {
    forall t :: 0 <= t < |s.th| ==> Timely(s.m, s.th[t])
  }

  predicate TimelyRun(s: State, sched: seq<Event>) {
    AllTimely(Run(s, sched)) && (sched == [] || TimelyRun(s, sched[..|sched| - 1]))
  }

  function Tickets(th: seq<Pc>): seq<nat> {
    seq(|th|, t requires 0 <= t < |th| => if HasTicket(th[t]) then 1 else 0)
  }

  predicate ThreadOk(m: Mem, pc: Pc) {
    && (HasTicket(pc) ==> m.served < pc.g <= m.issued)
    && (Holds(pc) ==> pc.g == m.served + 1)
    && (pc.UnlockWrite? ==> pc.h == m.head)
    && (pc.FutexWait? || pc.Sleeping? ==> pc.seen <= m.served && pc.seen + 2 < pc.g <= pc.seen + 1 + INT_MAX)
    && (Trying(pc) ==> pc.at <= m.issued)
    && (pc.TryCas? ==> pc.at <= m.served)
  }

  predicate MemOk(m: Mem) {
    m.head == (m.served + 1) % M && m.tail == m.issued % M && m.served <= m.issued
  }

  predicate SomeWakes(s: State) {
    exists t :: 0 <= t < |s.th| && s.th[t].WakeAll?
  }

  /** A sleeper whose recorded head is not the current one has a wake-up coming. */
  predicate NoneStranded(s: State) {
    forall t :: 0 <= t < |s.th| && s.th[t].Sleeping? && s.th[t].seen != s.m.served ==> SomeWakes(s)
  }

  predicate Ticketed(s: State, g: nat) {
    exists t :: 0 <= t < |s.th| && HasTicket(s.th[t]) && s.th[t].g == g
  }

  predicate Inv(s: State) {
    && MemOk(s.m)
    && Sum(Tickets(s.th)) == s.m.issued - s.m.served
    && (forall t :: 0 <= t < |s.th| ==> ThreadOk(s.m, s.th[t]))
    && (forall t, u :: 0 <= t < |s.th| && 0 <= u < |s.th| && t != u && HasTicket(s.th[t]) && HasTicket(s.th[u]) ==>
          s.th[t].g != s.th[u].g)
    && (forall g :: s.m.served < g <= s.m.issued ==> Ticketed(s, g))
    && NoneStranded(s)
  }

  // ----- one step

  /** A distance of 2^31 or more reads as negative, so the thread skips its sleep and spins. */
  lemma DistanceIs(m: Mem, g: nat)
    requires MemOk(m) && m.served < g <= m.issued && m.issued - m.served < M
    ensures var ahead := g - m.served - 1; Distance(g, m.head) == if ahead > INT_MAX then ahead - M else ahead
  {
    T.Residues(g, m.served + 1);
  }

  lemma TryFree(m: Mem, pc: Pc)
    requires MemOk(m) && ThreadOk(m, pc) && Timely(m, pc) && m.issued - m.served < M
    ensures pc.TryHead? && T.Minus(m.head, pc.at % M) == 1 ==> m.served == pc.at
    ensures pc.TryCas? && m.tail == pc.at % M ==> m.served == m.issued == pc.at
  {
    if pc.TryHead? && T.Minus(m.head, pc.at % M) == 1 {
      T.Residues(m.served + 1, pc.at);
      assert (m.served + 1 - pc.at) % M == 1;
      assert m.served % M == pc.at % M;
      T.SameResidue(m.served, pc.at);
    }
    if pc.TryCas? && m.tail == pc.at % M {
      T.SameResidue(m.issued, pc.at);
    }
  }

  /** The futex only lets a thread sleep while its recorded head is current. */
  lemma SleepsOnCurrent(m: Mem, pc: Pc)
    requires MemOk(m) && ThreadOk(m, pc) && pc.FutexWait? && m.head == (pc.seen + 1) % M
    ensures pc.seen == m.served
  {
    T.SameResidue(m.served + 1, pc.seen + 1);
  }

  lemma ThreadStep(m: Mem, pc: Pc, choice: Choice)
    requires MemOk(m) && ThreadOk(m, pc) && Timely(m, pc) && m.issued - m.served < M
    ensures var v := StepThread(m, pc, choice);
      && MemOk(v.m) && ThreadOk(v.m, v.pc)
      && v.m.issued >= m.issued && v.m.served >= m.served
      && (HasTicket(v.pc) ==> if HasTicket(pc) then v.pc.g == pc.g else v.pc.g == m.issued + 1 == v.m.issued)
      && v.m.issued - v.m.served == m.issued - m.served
           + (if HasTicket(v.pc) then 1 else 0) - (if HasTicket(pc) then 1 else 0)
      && (HasTicket(pc) && !HasTicket(v.pc) <==> v.m.served != m.served)
      && (v.m.served != m.served ==> Holds(pc) && v.pc.WakeAll? && v.m.served == m.served + 1)
      && (v.m.issued != m.issued ==> v.m.issued == m.issued + 1 && HasTicket(v.pc) && !HasTicket(pc))
      && (v.m.head != m.head ==> Holds(pc))
      && (v.pc.Sleeping? && !pc.Sleeping? ==> v.pc.seen == m.served)
      && (pc.WakeAll? ==> v.m == m)
  {
    T.Residues(m.issued, 0);
    T.Residues(m.served + 1, 0);
    TryFree(m, pc);
    if Waits(pc) { DistanceIs(m, pc.g); }
    if pc.FutexWait? && m.head == (pc.seen + 1) % M { SleepsOnCurrent(m, pc); }
    hide T.Minus, Distance;
  }

  lemma OtherStep(m: Mem, pc: Pc, choice: Choice, q: Pc)
    requires MemOk(m) && ThreadOk(m, pc) && Timely(m, pc) && m.issued - m.served < M && ThreadOk(m, q)
    requires HasTicket(pc) && HasTicket(q) ==> pc.g != q.g
    ensures ThreadOk(StepThread(m, pc, choice).m, q) && ThreadOk(StepThread(m, pc, choice).m, Woken(q))
  {
    ThreadStep(m, pc, choice);
    hide StepThread;
  }

  lemma StepKeepsTickets(s: State, e: Event)
    requires Inv(s) && AllTimely(s) && e.t < |s.th| && s.m.issued - s.m.served < M
    ensures var s' := Step(s, e); forall g :: s'.m.served < g <= s'.m.issued ==> Ticketed(s', g)
  {
    var t, pc := e.t, s.th[e.t];
    ThreadStep(s.m, pc, e.choice);
    var s' := Step(s, e);
    var v := StepThread(s.m, pc, e.choice);
    hide StepThread;
    forall g | s'.m.served < g <= s'.m.issued
      ensures Ticketed(s', g)
    {
      if g == s.m.issued + 1 {
        assert HasTicket(s'.th[t]) && s'.th[t].g == g;
      } else {
        assert Ticketed(s, g);
        var u :| 0 <= u < |s.th| && HasTicket(s.th[u]) && s.th[u].g == g;
        assert HasTicket(s'.th[u]) && s'.th[u].g == g;
      }
    }
  }

  lemma StepStrandsNone(s: State, e: Event)
    requires Inv(s) && AllTimely(s) && e.t < |s.th| && s.m.issued - s.m.served < M
    ensures NoneStranded(Step(s, e))
  {
    var t, pc := e.t, s.th[e.t];
    ThreadStep(s.m, pc, e.choice);
    var s' := Step(s, e);
    hide StepThread;
    forall u | 0 <= u < |s'.th| && s'.th[u].Sleeping? && s'.th[u].seen != s'.m.served
      ensures SomeWakes(s')
    {
      if s'.m.served != s.m.served {
        assert s'.th[t].WakeAll?;
      } else {
        assert !pc.WakeAll?;
        assert SomeWakes(s);
        var w :| 0 <= w < |s.th| && s.th[w].WakeAll?;
        assert s'.th[w].WakeAll?;
      }
    }
  }

  lemma StepKeepsNumbers(s: State, e: Event)
    requires Inv(s) && AllTimely(s) && e.t < |s.th| && s.m.issued - s.m.served < M
    ensures var th := Step(s, e).th;
      forall t, u :: 0 <= t < |th| && 0 <= u < |th| && t != u && HasTicket(th[t]) && HasTicket(th[u]) ==>
        th[t].g != th[u].g
  {
    ThreadStep(s.m, s.th[e.t], e.choice);
    hide StepThread, NoneStranded, Ticketed, MemOk;
  }

  lemma StepKeepsInv(s: State, e: Event)
    requires Inv(s) && AllTimely(s) && |s.th| < M
    ensures Inv(Step(s, e))
  {
    if e.t < |s.th| {
      var t, pc := e.t, s.th[e.t];
      var v := StepThread(s.m, pc, e.choice);
      var s' := Step(s, e);
      hide StepThread, NoneStranded, Ticketed, MemOk, ThreadOk;
      SumAtMost(Tickets(s.th), 1);
      ThreadStep(s.m, pc, e.choice);
      StepKeepsTickets(s, e);
      StepStrandsNone(s, e);
      SumUpdate(Tickets(s.th), Tickets(s'.th), t);
      forall u | 0 <= u < |s.th|
        ensures ThreadOk(s'.m, s'.th[u])
      {
        if u != t { OtherStep(s.m, pc, e.choice, s.th[u]); }
      }
      StepKeepsNumbers(s, e);
    }
  }

  lemma {:induction false} Reachable(n: nat, sched: seq<Event>)
    requires n < M && TimelyRun(Init(n), sched)
    ensures Inv(Run(Init(n), sched)) && |Run(Init(n), sched).th| == n
  {
    if sched == [] {
      SumZero(Tickets(Init(n).th));
    } else {
      Reachable(n, sched[..|sched| - 1]);
      StepKeepsInv(Run(Init(n), sched[..|sched| - 1]), sched[|sched| - 1]);
    }
  }

  // ----- results

  /** Exclusion, in the order of the tickets. */
  lemma ExclusiveAndFifo(n: nat, sched: seq<Event>, t: nat, u: nat)
    requires n < M && TimelyRun(Init(n), sched)
    requires var th := Run(Init(n), sched).th; t < |th| && u < |th| && t != u && Holds(th[t])
    ensures var th := Run(Init(n), sched).th; !Holds(th[u]) && (Waits(th[u]) ==> th[t].g < th[u].g)
  {
    Reachable(n, sched);
  }

  /** Once no wake-up is pending, everybody asleep has at least two tickets before it. */
  lemma SleepersAreFar(n: nat, sched: seq<Event>, t: nat)
    requires n < M && TimelyRun(Init(n), sched)
    requires var s := Run(Init(n), sched); t < |s.th| && s.th[t].Sleeping? && !SomeWakes(s)
    ensures var s := Run(Init(n), sched); s.th[t].g >= s.m.served + 3
  {
    Reachable(n, sched);
  }

  /** A thread that looks at its distance is asleep two steps later exactly when at least two and
      at most INT_MAX tickets are to be served before its own. */
  lemma FarSleeps(n: nat, sched: seq<Event>, t: nat, choice: Choice)
    requires n < M && TimelyRun(Init(n), sched)
    requires var s := Run(Init(n), sched); t < |s.th| && (s.th[t].FirstRead? || s.th[t].Reread?)
    ensures var s := Run(Init(n), sched);
      var e := Move(t, choice);
      var s2 := Step(Step(s, e), e);
      && |s2.th| == |s.th|
      && (s2.th[t].Sleeping? <==> 2 <= s.th[t].g - s.m.served - 1 <= INT_MAX)
  {
    hide Run, TimelyRun;
    Reachable(n, sched);
    var s := Run(Init(n), sched);
    SumAtMost(Tickets(s.th), 1);
    DistanceIs(s.m, s.th[t].g);
    hide T.Minus, Distance;
  }

  /** `k` steps of thread `t` alone. */
  function Solo(s: State, t: nat, k: nat): State
    decreases k
  {
    if k == 0 then s else Solo(Step(s, Move(t, Lock)), t, k - 1)
  }

  /** A thread whose turn it is and that is awake gets in by itself. */
  lemma Enters(s: State, t: nat) returns (k: nat)
    requires Inv(s) && s.m.issued - s.m.served < M
    requires t < |s.th| && Waits(s.th[t]) && s.th[t].g == s.m.served + 1 && !s.th[t].Sleeping?
    ensures k <= 3 && t < |Solo(s, t, k).th| && Solo(s, t, k).th[t].Critical?
  {
    var s1 := Step(s, Move(t, Lock));
    DistanceIs(s.m, s.th[t].g);
    if s.th[t].FutexWait? && s.m.head == (s.th[t].seen + 1) % M { SleepsOnCurrent(s.m, s.th[t]); }
    if s1.th[t].Critical? {
      k := 1;
      assert Solo(s1, t, 0) == s1;
    } else if s1.th[t].Reread? {
      k := 3;
      var s2 := Step(s1, Move(t, Lock));
      assert s2.th[t].Spin? && s2.m == s.m;
      assert Solo(s2, t, 1) == Solo(Step(s2, Move(t, Lock)), t, 0);
      assert Solo(s1, t, 2) == Solo(s2, t, 1);
    } else {
      k := 2;
      assert s1.th[t].Spin? && s1.m == s.m;
      assert Solo(s1, t, 1) == Solo(Step(s1, Move(t, Lock)), t, 0);
    }
  }

  /** The successor is never stranded: if nobody holds the lock and no wake-up is pending,
      the thread whose turn it is is awake, and gets in with at most three steps of its own. */
  lemma SuccessorAwake(n: nat, sched: seq<Event>) returns (t: nat, k: nat)
    requires n < M && TimelyRun(Init(n), sched)
    requires var s := Run(Init(n), sched);
      !SomeWakes(s) && s.m.issued > s.m.served && forall u :: 0 <= u < |s.th| ==> !Holds(s.th[u])
    ensures var s := Run(Init(n), sched);
      && t < |s.th| && Waits(s.th[t]) && s.th[t].g == s.m.served + 1 && !s.th[t].Sleeping?
      && k <= 3 && t < |Solo(s, t, k).th| && Solo(s, t, k).th[t].Critical?
  {
    Reachable(n, sched);
    var s := Run(Init(n), sched);
    assert Ticketed(s, s.m.served + 1);
    t :| 0 <= t < |s.th| && HasTicket(s.th[t]) && s.th[t].g == s.m.served + 1;
    SumAtMost(Tickets(s.th), 1);
    k := Enters(s, t);
  }

  // ----- calls without interruption

  predicate SomeTicket(th: seq<Pc>) {
    exists t :: 0 <= t < |th| && HasTicket(th[t])
  }

  lemma NoTicket(s: State)
    requires Inv(s)
    ensures s.m.issued == s.m.served <==> !SomeTicket(s.th)
  {
    if !SomeTicket(s.th) { SumZero(Tickets(s.th)); }
    if t :| 0 <= t < |s.th| && HasTicket(s.th[t]) { SumAtLeast(Tickets(s.th), t); }
  }

  /** Three or four steps of a thread alone. */
  function Three(s: State, t: nat, choice: Choice): State {
    var e := Move(t, choice);
    Step(Step(Step(s, e), e), e)
  }

  function Four(s: State, t: nat, choice: Choice): State {
    Step(Three(s, t, choice), Move(t, choice))
  }

  /** ticket_fu_lock_trylock takes the lock exactly when no ticket is outstanding, and
      otherwise returns without a trace. */
  lemma TryLockAlone(n: nat, sched: seq<Event>, t: nat)
    requires n < M && TimelyRun(Init(n), sched)
    requires var s := Run(Init(n), sched); t < |s.th| && s.th[t].Idle?
    ensures var s := Run(Init(n), sched);
      if SomeTicket(s.th) then Three(s, t, TryLock) == s
      else t < |Four(s, t, TryLock).th| && Four(s, t, TryLock).th[t] == Critical(s.m.issued + 1)
  {
    hide Run, TimelyRun, SomeTicket;
    Reachable(n, sched);
    var s := Run(Init(n), sched);
    SumAtMost(Tickets(s.th), 1);
    NoTicket(s);
    T.HeadSaysFree(s.m.issued, s.m.served);
    hide T.Minus, Distance;
    var e := Move(t, TryLock);
    var s2 := Step(Step(s, e), e);
    assert s2 == State(s.m, s.th[t := TryHead(s.m.issued)]);
    if SomeTicket(s.th) { assert Step(s2, e).th == s.th; }
  }

  /** ticket_fu_lock_lock on a free lock takes three steps. */
  lemma LockAlone(n: nat, sched: seq<Event>, t: nat)
    requires n < M && TimelyRun(Init(n), sched)
    requires var s := Run(Init(n), sched); t < |s.th| && s.th[t].Idle? && !SomeTicket(s.th)
    ensures var s := Run(Init(n), sched);
      t < |Three(s, t, Lock).th| && Three(s, t, Lock).th[t] == Critical(s.m.issued + 1)
  {
    hide Run, TimelyRun, SomeTicket;
    Reachable(n, sched);
    var s := Run(Init(n), sched);
    NoTicket(s);
    var e := Move(t, Lock);
    var s2 := Step(Step(s, e), e);
    assert s2.th[t] == FirstRead(s.m.issued + 1) && s2.m.head == s.m.head;
    T.Residues(s.m.issued + 1, s.m.served + 1);
  }

  /** ticket_fu_lock_unlock takes four steps: it passes the lock to the next ticket, and
      leaves nobody asleep. */
  lemma UnlockAlone(n: nat, sched: seq<Event>, t: nat)
    requires n < M && TimelyRun(Init(n), sched)
    requires var s := Run(Init(n), sched); t < |s.th| && s.th[t].Critical?
    ensures var s := Run(Init(n), sched);
      var s' := Four(s, t, Unlock);
      && |s'.th| == |s.th| && s'.th[t].Idle? && s'.m.served == s.m.served + 1 == s.th[t].g
      && s'.m.issued == s.m.issued && forall u :: 0 <= u < |s.th| ==> !s'.th[u].Sleeping?
  {
    hide Run, TimelyRun;
    Reachable(n, sched);
    var s := Run(Init(n), sched);
    var s3 := Three(s, t, Unlock);
    assert s3.th == s.th[t := WakeAll];
  }
}
