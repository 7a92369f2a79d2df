/** The CLH queue lock of src/clh_in.c. A thread spins on its predecessor's node, and a
    release trades the thread's own node for that of its predecessor.

    `queue` is the order of the swaps of lock->head. No step reads it. */
module Clh {
  import opened Sums

  datatype Ref = Null | To(n: nat)
  datatype Node = Node(locked: bool, pred: Ref)

  datatype Pc =
    | Idle
      // clh_lock_lock
    | GetLocal
    | SetLocked(n: nat)
    | Swap(n: nat)
    | AllocPred(n: nat)
    | StoreFirst(n: nat, p: nat)
    | StorePred(n: nat, p: nat)
    | Spin(p: nat)
    | Critical
      // clh_lock_unlock
    | ReadPred
    | ClearLocked(n: nat, p: nat)
    | SetLocal(p: nat)

  /** Node `n` is the n-th one that malloc returned for this lock. */
  datatype Mem = Mem(head: Ref, local: seq<Ref>, nodes: seq<Node>, queue: seq<nat>)
  datatype State = State(m: Mem, th: seq<Pc>)
  datatype View = View(m: Mem, pc: Pc)

  /** `garbage` is what malloc leaves in the `locked` field of a new node. */
  datatype Event = Move(t: nat, garbage: bool)

  function Init(n: nat): State {
    State(Mem(Null, seq(n, i => Null), [], []), seq(n, i => Idle))
  }

  function PutLocked(m: Mem, n: nat, locked: bool): Mem {
    if n < |m.nodes| then m.(nodes := m.nodes[n := m.nodes[n].(locked := locked)]) else m
  }

  function PutPred(m: Mem, n: nat, p: nat): Mem {
    if n < |m.nodes| then m.(nodes := m.nodes[n := m.nodes[n].(pred := To(p))]) else m
  }

  function Locked(m: Mem, n: nat): bool {
    n < |m.nodes| && m.nodes[n].locked
  }

  function Malloc(m: Mem, garbage: bool): Mem {
    m.(nodes := m.nodes + [Node(garbage, Null)])
  }

  function PredField(m: Mem, r: Ref): Ref {
    if r.To? && r.n < |m.nodes| then m.nodes[r.n].pred else Null
  }

  function StepThread(m: Mem, t: nat, pc: Pc, garbage: bool): View
    requires t < |m.local|
  {
    match pc
    case Idle => View(m, GetLocal)
    case GetLocal =>
      if m.local[t].To? then View(m, SetLocked(m.local[t].n))
      else View(Malloc(m, garbage).(local := m.local[t := To(|m.nodes|)]), SetLocked(|m.nodes|))
    case SetLocked(n) => View(PutLocked(m, n, true), Swap(n))
    case Swap(n) =>
      View(m.(head := To(n), queue := m.queue + [t]), if m.head.To? then StorePred(n, m.head.n) else AllocPred(n))
    case AllocPred(n) => View(Malloc(m, garbage), StoreFirst(n, |m.nodes|))
    case StoreFirst(n, p) => View(PutPred(m, n, p), Critical)
    case StorePred(n, p) => View(PutPred(m, n, p), Spin(p))
    case Spin(p) => View(m, if Locked(m, p) then Spin(p) else Critical)
    case Critical => View(m, ReadPred)
    case ReadPred =>
      var r := PredField(m, m.local[t]);
      View(m, if m.local[t].To? && r.To? then ClearLocked(m.local[t].n, r.n) else ReadPred)
    case ClearLocked(n, p) =>
      View(PutLocked(m, n, false).(queue := if m.queue == [] then [] else m.queue[1..]), SetLocal(p))
    case SetLocal(p) => View(m.(local := m.local[t := To(p)]), Idle)
  }

  function After(s: State, t: nat, v: View): State
    requires t < |s.th|
  {
    State(v.m, s.th[t := v.pc])
  }

  function Step(s: State, e: Event): State {
    if e.t < |s.th| && e.t < |s.m.local| then After(s, e.t, StepThread(s.m, e.t, s.th[e.t], e.garbage)) else s
  }

  function Run(s: State, sched: seq<Event>): State {
    if sched == [] then s else Step(Run(s, sched[..|sched| - 1]), sched[|sched| - 1])
  }

  // ----- the invariant

  /** Owns the lock: from acquiring it to the store that frees its node. */
  predicate Holds(pc: Pc) {
    pc.AllocPred? || pc.StoreFirst? || pc.Critical? || pc.ReadPred? || pc.ClearLocked?
  }

  predicate Waits(pc: Pc) {
    pc.StorePred? || pc.Spin?
  }

  /** The node that belongs to thread `t`, in the queue or for its next acquisition. */
  function Mine(s: State, t: nat): Ref
    requires t < |s.th| && t < |s.m.local|
  {
    if s.th[t].SetLocal? then To(s.th[t].p) else s.m.local[t]
  }

  /** The predecessor's node, which thread `t` will take over when it releases. */
  function PredOf(s: State, t: nat): Ref
    requires t < |s.th| && t < |s.m.local|
  {
    match s.th[t]
    case StoreFirst(_, p) => To(p)
    case StorePred(_, p) => To(p)
    case Spin(p) => To(p)
    case Critical => PredField(s.m, s.m.local[t])
    case ReadPred => PredField(s.m, s.m.local[t])
    case ClearLocked(_, p) => To(p)
    case _ => Null
  }

  /** The one node in circulation that belongs to no thread: the predecessor of the
      queue's head, or the last released node. */
  function Spare(s: State): Ref {
    if s.m.queue == [] then s.m.head
    else if s.m.queue[0] < |s.th| && s.m.queue[0] < |s.m.local| then PredOf(s, s.m.queue[0])
    else Null
  }

  /** What thread `t` alone must satisfy. */
  predicate ThreadOk(s: State, t: nat)
    requires t < |s.th| && t < |s.m.local|
  {
    var pc := s.th[t];
    && (s.m.local[t].To? ==> s.m.local[t].n < |s.m.nodes|)
    && (Mine(s, t).To? ==> Mine(s, t).n < |s.m.nodes|)
    && (pc.SetLocked? || pc.Swap? || pc.AllocPred? || pc.StoreFirst? || pc.StorePred? || pc.ClearLocked? ==>
          s.m.local[t] == To(pc.n))
    && (pc.Swap? || Holds(pc) || Waits(pc) ==> s.m.local[t].To? && Locked(s.m, s.m.local[t].n))
    && (Holds(pc) && !pc.AllocPred? ==> PredOf(s, t).To? && PredOf(s, t).n < |s.m.nodes|)
    && (Waits(pc) ==> PredOf(s, t).n < |s.m.nodes|)
    && (pc.Spin? ==> PredField(s.m, s.m.local[t]) == To(pc.p))
    && (pc.ClearLocked? ==> PredField(s.m, s.m.local[t]) == To(pc.p))
  }

  ghost predicate Shape(s: State) {
    var q := s.m.queue;
    && |s.m.local| == |s.th|
    && (forall t :: 0 <= t < |s.th| ==> ThreadOk(s, t))
    && (forall i :: 0 <= i < |q| ==> q[i] < |s.th| && (Holds(s.th[q[i]]) || Waits(s.th[q[i]])))
    && (forall i, j :: 0 <= i < j < |q| ==> q[i] != q[j])
    && (forall t :: 0 <= t < |s.th| && (Holds(s.th[t]) || Waits(s.th[t])) ==> t in q)
    && (s.m.head.To? ==> s.m.head.n < |s.m.nodes|)
  }

  predicate ChainOk(s: State, i: nat)
    requires i + 1 < |s.m.queue|
  {
    var t := s.m.queue[i];
    var u := s.m.queue[i + 1];
    t < |s.th| && t < |s.m.local| && u < |s.th| && u < |s.m.local| && Waits(s.th[u]) && PredOf(s, u) == s.m.local[t]
  }

  ghost predicate Chain(s: State) {
    var q := s.m.queue;
    && |s.m.local| == |s.th|
    && (forall i :: 0 <= i < |q| ==> q[i] < |s.th|)
    && (forall i {:trigger ChainOk(s, i)} :: 0 <= i < |q| - 1 ==> ChainOk(s, i))
    && (q != [] ==> s.m.head == s.m.local[q[|q| - 1]])
    && (q == [] && s.m.head.To? ==> !Locked(s.m, s.m.head.n))
    && (q != [] ==> Holds(s.th[q[0]]) || (Waits(s.th[q[0]]) && PredOf(s, q[0]).To? && !Locked(s.m, PredOf(s, q[0]).n)))
  }

  ghost predicate Apart(s: State) {
    && |s.m.local| == |s.th|
    && (forall t, u :: 0 <= t < u < |s.th| && Mine(s, t).To? ==> Mine(s, t) != Mine(s, u))
    && (forall t :: 0 <= t < |s.th| && Mine(s, t).To? ==> Mine(s, t) != Spare(s))
  }

  function Flag(b: bool): nat { if b then 1 else 0 }

  function Owners(s: State): (r: seq<nat>)
    requires |s.m.local| == |s.th|
    ensures |r| == |s.th|
  {
    seq(|s.th|, i requires 0 <= i < |s.th| => Flag(Mine(s, i).To?))
  }

  /** Every node ever allocated is some thread's own or the spare one. */
  ghost predicate Conserved(s: State) {
    |s.m.local| == |s.th| && |s.m.nodes| == Sum(Owners(s)) + Flag(Spare(s).To?)
  }

  ghost predicate Inv(s: State) {
    Shape(s) && Chain(s) && Apart(s) && Conserved(s)
  }

  // ----- steps that neither allocate, lock, unlock nor move the queue

  ghost predicate SameMap(s: State, s': State) {
    && |s'.th| == |s.th| == |s.m.local| == |s'.m.local|
    && s'.m.queue == s.m.queue && s'.m.head == s.m.head
    && |s'.m.nodes| == |s.m.nodes|
    && (forall u :: 0 <= u < |s.th| ==> Mine(s', u) == Mine(s, u) && PredOf(s', u) == PredOf(s, u))
  }

  ghost predicate Steady(s: State, s': State) {
    && SameMap(s, s')
    && (forall n :: 0 <= n < |s.m.nodes| ==> s'.m.nodes[n].locked == s.m.nodes[n].locked)
    && (forall u :: u in s.m.queue && u < |s.th| ==> s'.m.local[u] == s.m.local[u])
    && (forall u :: 0 <= u < |s.th| ==>
          Holds(s'.th[u]) == Holds(s.th[u]) || (s.m.queue != [] && s.m.queue[0] == u && Holds(s'.th[u])))
    && (forall u :: 0 <= u < |s.th| ==> (Holds(s'.th[u]) || Waits(s'.th[u])) == (Holds(s.th[u]) || Waits(s.th[u])))
    && (forall u :: 0 <= u < |s.th| ==> ThreadOk(s', u))
  }

  lemma SameMapKeeps(s: State, s': State)
    requires Inv(s) && SameMap(s, s')
    ensures Spare(s') == Spare(s) && Apart(s') && Conserved(s')
  {
    hide Chain;
    assert Spare(s') == Spare(s);
    assert Owners(s') == Owners(s);
  }

  lemma SteadyKeepsInv(s: State, s': State)
    requires Inv(s) && Steady(s, s')
    ensures Inv(s')
  {
    SameMapKeeps(s, s');
    var q := s.m.queue;
    forall i {:trigger ChainOk(s', i)} | 0 <= i < |q| - 1
      ensures ChainOk(s', i)
    {
      assert ChainOk(s, i);
      assert q[i + 1] != q[0];
    }
    assert Shape(s');
    assert Chain(s');
  }

  predicate SteadyPc(s: State, t: nat)
    requires t < |s.th| && t < |s.m.local|
  {
    var pc := s.th[t];
    !(pc.GetLocal? && s.m.local[t].Null?) && !pc.SetLocked? && !pc.Swap? && !pc.AllocPred? && !pc.ClearLocked?
  }

  /** A spinner whose predecessor is free heads the queue. */
  lemma FreeSpinnerHeads(s: State, t: nat)
    requires Inv(s) && t < |s.th| && s.th[t].Spin? && !Locked(s.m, s.th[t].p)
    ensures s.m.queue != [] && s.m.queue[0] == t
  {
    var i :| 0 <= i < |s.m.queue| && s.m.queue[i] == t;
    assert i > 0 ==> ChainOk(s, i - 1) && ThreadOk(s, s.m.queue[i - 1]);
  }

  /** The moving thread of a steady step. */
  lemma SteadyMover(s: State, t: nat, garbage: bool)
    requires |s.m.local| == |s.th| && t < |s.th| && SteadyPc(s, t) && ThreadOk(s, t)
    ensures var s' := After(s, t, StepThread(s.m, t, s.th[t], garbage));
      && |s'.m.local| == |s'.th| == |s.th|
      && ThreadOk(s', t) && Mine(s', t) == Mine(s, t) && PredOf(s', t) == PredOf(s, t)
      && |s'.m.nodes| == |s.m.nodes| && s'.m.queue == s.m.queue && s'.m.head == s.m.head
      && (forall n :: 0 <= n < |s.m.nodes| ==> s'.m.nodes[n].locked == s.m.nodes[n].locked)
      && (forall n :: 0 <= n < |s.m.nodes| && To(n) != Mine(s, t) ==> s'.m.nodes[n] == s.m.nodes[n])
      && (s'.m.local == s.m.local || (s.th[t].SetLocal? && s'.m.local == s.m.local[t := s'.m.local[t]]))
      && (Holds(s'.th[t]) || Waits(s'.th[t])) == (Holds(s.th[t]) || Waits(s.th[t]))
      && (Holds(s'.th[t]) == Holds(s.th[t]) || (s.th[t].Spin? && !Locked(s.m, s.th[t].p) && Holds(s'.th[t])))
  {
  }

  /** A thread that does not move, while only node `x`, not its own, is written. */
  lemma OtherOk(s: State, s': State, u: nat, x: Ref)
    requires |s.m.local| == |s.th| && |s'.m.local| == |s'.th| == |s.th| && u < |s.th| && ThreadOk(s, u)
    requires s'.th[u] == s.th[u] && s'.m.local[u] == s.m.local[u] && |s'.m.nodes| >= |s.m.nodes|
    requires forall n :: 0 <= n < |s.m.nodes| && To(n) != x ==> s'.m.nodes[n] == s.m.nodes[n]
    requires Mine(s, u).To? ==> Mine(s, u) != x
    ensures ThreadOk(s', u) && Mine(s', u) == Mine(s, u) && PredOf(s', u) == PredOf(s, u)
  {
  }

  lemma SteadyStep(s: State, t: nat, garbage: bool)
    requires Inv(s) && t < |s.th| && SteadyPc(s, t)
    ensures Steady(s, After(s, t, StepThread(s.m, t, s.th[t], garbage)))
  {
    assert ThreadOk(s, t);
    if s.th[t].Spin? && !Locked(s.m, s.th[t].p) { FreeSpinnerHeads(s, t); }
    assert !(Holds(s.th[t]) || Waits(s.th[t])) ==> t !in s.m.queue;
    MineApart(s, t);
    SteadyMover(s, t, garbage);
    var s' := After(s, t, StepThread(s.m, t, s.th[t], garbage));
    forall u | 0 <= u < |s.th| && u != t
      ensures ThreadOk(s', u) && Mine(s', u) == Mine(s, u) && PredOf(s', u) == PredOf(s, u)
    {
      assert ThreadOk(s, u);
      hide *;
      OtherOk(s, s', u, Mine(s, t));
    }
    hide Shape, Chain, Apart, Conserved, ThreadOk, StepThread, Mine, PredOf;
  }

  lemma MineApart(s: State, t: nat)
    requires Inv(s) && t < |s.th|
    ensures forall u :: 0 <= u < |s.th| && u != t && Mine(s, u).To? ==> Mine(s, u) != Mine(s, t)
    ensures Mine(s, t).To? ==> Mine(s, t) != Spare(s)
  {
  }

  // ----- the steps that allocate, lock, unlock or move the queue

  lemma HolderHeads(s: State, t: nat)
    requires Inv(s) && t < |s.th| && Holds(s.th[t])
    ensures s.m.queue != [] && s.m.queue[0] == t
  {
    forall i | 0 < i < |s.m.queue|
      ensures Waits(s.th[s.m.queue[i]])
    {
      assert ChainOk(s, i - 1);
    }
  }

  lemma ChainSame(s: State, s': State)
    requires Inv(s) && |s'.th| == |s.th| == |s'.m.local| && s'.m.queue == s.m.queue && s'.m.head == s.m.head
    requires forall u :: u in s.m.queue && u < |s.th| ==>
      s'.m.local[u] == s.m.local[u] && Waits(s'.th[u]) == Waits(s.th[u]) && Holds(s'.th[u]) == Holds(s.th[u])
    requires forall u :: u in s.m.queue && u < |s.th| && Waits(s.th[u]) ==> PredOf(s', u) == PredOf(s, u)
    requires forall n :: 0 <= n < |s.m.nodes| && To(n) == Spare(s) ==> Locked(s'.m, n) == Locked(s.m, n)
    ensures Chain(s')
  {
    hide Apart, Conserved;
    var q := s.m.queue;
    forall i {:trigger ChainOk(s', i)} | 0 <= i < |q| - 1
      ensures ChainOk(s', i)
    {
      assert ChainOk(s, i);
      assert q[i] in q && q[i + 1] in q;
    }
    if q != [] { assert q[0] in q && q[|q| - 1] in q && ThreadOk(s, q[0]); }
  }

  /** malloc for thread `t`'s first use of the lock. */
  lemma FreshLocalKeepsInv(s: State, t: nat, garbage: bool)
    requires Inv(s) && t < |s.th| && s.th[t].GetLocal? && s.m.local[t].Null?
    ensures Inv(After(s, t, StepThread(s.m, t, s.th[t], garbage)))
  {
    var s' := After(s, t, StepThread(s.m, t, s.th[t], garbage));
    assert ThreadOk(s, t) && t !in s.m.queue;
    forall u | 0 <= u < |s.th| && u != t
      ensures ThreadOk(s', u) && Mine(s', u) == Mine(s, u) && PredOf(s', u) == PredOf(s, u)
    {
      assert ThreadOk(s, u);
      OtherOk(s, s', u, Null);
    }
    assert ThreadOk(s', t);
    assert Shape(s') by { hide Chain, Apart, Conserved, ThreadOk, Mine, PredOf; }
    ChainSame(s, s');
    FreshNode(s, s', t);
  }

  /** A node that was just allocated belongs to `t` or is the spare one. */
  lemma FreshNode(s: State, s': State, t: nat)
    requires Inv(s) && t < |s.th| == |s'.th| == |s'.m.local| && |s'.m.nodes| == |s.m.nodes| + 1
    requires forall u :: 0 <= u < |s.th| && u != t ==> Mine(s', u) == Mine(s, u)
    requires || (Spare(s') == Spare(s) && Mine(s, t).Null? && Mine(s', t) == To(|s.m.nodes|))
             || (Spare(s).Null? && Spare(s') == To(|s.m.nodes|) && Mine(s', t) == Mine(s, t))
    ensures Apart(s') && Conserved(s')
  {
    SpareInRange(s);
    forall u | 0 <= u < |s.th|
      ensures Mine(s, u).To? ==> Mine(s, u).n < |s.m.nodes|
    {
      assert ThreadOk(s, u);
    }
    hide Chain, Shape, Mine, Spare;
    SumUpdate(Owners(s), Owners(s'), t);
  }

  lemma SpareInRange(s: State)
    requires Inv(s)
    ensures Spare(s).To? ==> Spare(s).n < |s.m.nodes|
  {
    if s.m.queue != [] { assert ThreadOk(s, s.m.queue[0]); }
  }

  lemma SetLockedThreads(s: State, t: nat, garbage: bool)
    requires Inv(s) && t < |s.th| && s.th[t].SetLocked?
    ensures var s' := After(s, t, StepThread(s.m, t, s.th[t], garbage));
      && |s'.m.local| == |s.th| && t !in s.m.queue && Mine(s, t) == To(s.th[t].n) && Mine(s, t) != Spare(s)
      && forall u :: 0 <= u < |s.th| ==>
           ThreadOk(s', u) && Mine(s', u) == Mine(s, u) && PredOf(s', u) == PredOf(s, u)
  {
    var s' := After(s, t, StepThread(s.m, t, s.th[t], garbage));
    assert ThreadOk(s, t) && t !in s.m.queue;
    MineApart(s, t);
    hide Chain, Apart, Conserved;
    forall u | 0 <= u < |s.th| && u != t
      ensures ThreadOk(s', u) && Mine(s', u) == Mine(s, u) && PredOf(s', u) == PredOf(s, u)
    {
      assert ThreadOk(s, u);
      OtherOk(s, s', u, Mine(s, t));
    }
  }

  lemma SetLockedKeepsInv(s: State, t: nat, garbage: bool)
    requires Inv(s) && t < |s.th| && s.th[t].SetLocked?
    ensures Inv(After(s, t, StepThread(s.m, t, s.th[t], garbage)))
  {
    var s' := After(s, t, StepThread(s.m, t, s.th[t], garbage));
    assert t !in s.m.queue;
    SetLockedThreads(s, t, garbage);
    SameMapKeeps(s, s');
    assert Shape(s') by { hide Chain, Apart, Conserved, ThreadOk, Mine, PredOf; }
    ChainSame(s, s');
    hide Chain, Apart, Conserved, ThreadOk, Mine, PredOf, Shape, StepThread;
  }

  lemma AllocPredKeepsInv(s: State, t: nat, garbage: bool)
    requires Inv(s) && t < |s.th| && s.th[t].AllocPred?
    ensures Inv(After(s, t, StepThread(s.m, t, s.th[t], garbage)))
  {
    var s' := After(s, t, StepThread(s.m, t, s.th[t], garbage));
    assert ThreadOk(s, t);
    HolderHeads(s, t);
    forall u | 0 <= u < |s.th| && u != t
      ensures ThreadOk(s', u) && Mine(s', u) == Mine(s, u) && PredOf(s', u) == PredOf(s, u)
    {
      assert ThreadOk(s, u);
      OtherOk(s, s', u, Null);
    }
    assert ThreadOk(s', t);
    assert Shape(s') by { hide Chain, Apart, Conserved, ThreadOk, Mine, PredOf; }
    ChainSame(s, s');
    FreshNode(s, s', t);
  }

  lemma SwapKeepsShape(s: State, t: nat, garbage: bool)
    requires Inv(s) && t < |s.th| && s.th[t].Swap?
    ensures var s' := After(s, t, StepThread(s.m, t, s.th[t], garbage));
      Shape(s') && Apart(s') && Conserved(s') && t !in s.m.queue &&
      forall u :: 0 <= u < |s.th| && u != t ==> PredOf(s', u) == PredOf(s, u)
  {
    var s' := After(s, t, StepThread(s.m, t, s.th[t], garbage));
    assert ThreadOk(s, t) && t !in s.m.queue;
    forall u | 0 <= u < |s.th| && u != t
      ensures ThreadOk(s', u) && Mine(s', u) == Mine(s, u) && PredOf(s', u) == PredOf(s, u)
    {
      assert ThreadOk(s, u);
      OtherOk(s, s', u, Null);
    }
    assert ThreadOk(s', t);
    assert Spare(s') == Spare(s);
    assert Owners(s') == Owners(s);
    assert Shape(s') by {
      hide Chain, Apart, Conserved, ThreadOk, Mine, PredOf;
      assert s'.m.queue[|s.m.queue|] == t;
      forall u | 0 <= u < |s.th| && u != t && (Holds(s.th[u]) || Waits(s.th[u]))
        ensures u in s'.m.queue
      {
        assert u in s.m.queue;
      }
    }
  }

  lemma SwapKeepsInv(s: State, t: nat, garbage: bool)
    requires Inv(s) && t < |s.th| && s.th[t].Swap?
    ensures Inv(After(s, t, StepThread(s.m, t, s.th[t], garbage)))
  {
    var s' := After(s, t, StepThread(s.m, t, s.th[t], garbage));
    SwapKeepsShape(s, t, garbage);
    assert ThreadOk(s, t);
    var q := s.m.queue;
    forall i {:trigger ChainOk(s', i)} | 0 <= i < |q|
      ensures ChainOk(s', i)
    {
      if i < |q| - 1 { assert ChainOk(s, i); } else { assert ThreadOk(s, q[i]) && q[i] != t; }
    }
    hide Shape, Apart, Conserved, ThreadOk;
    if q != [] { assert q[0] != t; }
  }

  /** What the releasing thread knows. */
  lemma ReleaserKnows(s: State, t: nat)
    requires Inv(s) && t < |s.th| && s.th[t].ClearLocked?
    ensures ThreadOk(s, t) && s.m.queue != [] && s.m.queue[0] == t && s.m.local[t] == To(s.th[t].n)
    ensures Spare(s) == To(s.th[t].p) && Mine(s, t) == s.m.local[t]
  {
    HolderHeads(s, t);
    assert ThreadOk(s, t);
  }

  lemma ReleaserOk(s: State, t: nat, garbage: bool)
    requires |s.m.local| == |s.th| && t < |s.th| && s.th[t].ClearLocked? && ThreadOk(s, t)
    ensures var s' := After(s, t, StepThread(s.m, t, s.th[t], garbage));
      && |s'.m.local| == |s'.th| == |s.th| && |s'.m.nodes| == |s.m.nodes|
      && ThreadOk(s', t) && s'.m.local == s.m.local
      && (forall n :: 0 <= n < |s.m.nodes| && n != s.th[t].n ==> s'.m.nodes[n] == s.m.nodes[n])
  {
  }

  lemma ReleaseOthers(s: State, t: nat, garbage: bool)
    requires Inv(s) && t < |s.th| && s.th[t].ClearLocked?
    ensures var s' := After(s, t, StepThread(s.m, t, s.th[t], garbage));
      && |s'.m.local| == |s'.th| == |s.th|
      && ThreadOk(s', t)
      && (forall u :: 0 <= u < |s.th| && u != t ==>
            ThreadOk(s', u) && Mine(s', u) == Mine(s, u) && PredOf(s', u) == PredOf(s, u))
  {
    var s' := After(s, t, StepThread(s.m, t, s.th[t], garbage));
    ReleaserKnows(s, t);
    MineApart(s, t);
    ReleaserOk(s, t, garbage);
    forall u | 0 <= u < |s.th| && u != t
      ensures ThreadOk(s', u) && Mine(s', u) == Mine(s, u) && PredOf(s', u) == PredOf(s, u)
    {
      assert ThreadOk(s, u);
      hide *;
      OtherOk(s, s', u, To(s.th[t].n));
    }
    hide *;
  }

  lemma ReleaseKeepsShape(s: State, t: nat, garbage: bool)
    requires Inv(s) && t < |s.th| && s.th[t].ClearLocked?
    ensures Shape(After(s, t, StepThread(s.m, t, s.th[t], garbage)))
  {
    var s' := After(s, t, StepThread(s.m, t, s.th[t], garbage));
    ReleaseOthers(s, t, garbage);
    ReleaserKnows(s, t);
    hide Chain, Apart, Conserved, ThreadOk, Mine, PredOf;
    var q := s.m.queue;
    assert s'.m.queue == q[1..] && |s'.m.nodes| == |s.m.nodes| && s'.m.head == s.m.head;
    assert forall u :: 0 <= u < |s.th| && u != t ==> s'.th[u] == s.th[u];
    assert !Holds(s'.th[t]) && !Waits(s'.th[t]);
    hide StepThread;
    forall u | 0 <= u < |s.th| && u != t && (Holds(s.th[u]) || Waits(s.th[u]))
      ensures u in s'.m.queue
    {
      var i :| 0 <= i < |q| && q[i] == u;
      assert s'.m.queue[i - 1] == u;
    }
  }

  lemma ReleaseKeepsChain(s: State, t: nat, garbage: bool)
    requires Inv(s) && t < |s.th| && s.th[t].ClearLocked?
    ensures var s' := After(s, t, StepThread(s.m, t, s.th[t], garbage));
      Chain(s') && Spare(s') == To(s.th[t].n)
  {
    var s' := After(s, t, StepThread(s.m, t, s.th[t], garbage));
    ReleaseOthers(s, t, garbage);
    ReleaserKnows(s, t);
    hide Apart, Conserved, ThreadOk;
    var q := s.m.queue;
    if |q| > 1 { assert ChainOk(s, 0) && q[1] != t; }
    forall i {:trigger ChainOk(s', i)} | 0 <= i < |q| - 2
      ensures ChainOk(s', i)
    {
      assert ChainOk(s, i + 1);
      assert q[i + 1] != t && q[i + 2] != t;
    }
    hide Shape, PredOf, Mine;
  }

  /** The releasing thread's node and the spare one change places. */
  lemma NodesSwap(s: State, s': State, t: nat)
    requires Apart(s) && Conserved(s) && t < |s.th| == |s'.th| && |s'.m.local| == |s'.th| && |s'.m.nodes| == |s.m.nodes|
    requires forall u :: 0 <= u < |s.th| && u != t ==> Mine(s', u) == Mine(s, u)
    requires Mine(s', t) == Spare(s) && Spare(s') == Mine(s, t) && Mine(s, t).To? && Spare(s).To?
    ensures Apart(s') && Conserved(s')
  {
    hide Mine, Spare;
    assert Owners(s') == Owners(s);
  }

  lemma ReleaseKeepsInv(s: State, t: nat, garbage: bool)
    requires Inv(s) && t < |s.th| && s.th[t].ClearLocked?
    ensures Inv(After(s, t, StepThread(s.m, t, s.th[t], garbage)))
  {
    var s' := After(s, t, StepThread(s.m, t, s.th[t], garbage));
    ReleaseOthers(s, t, garbage);
    ReleaseKeepsShape(s, t, garbage);
    ReleaseKeepsChain(s, t, garbage);
    ReleaserKnows(s, t);
    assert Mine(s', t) == To(s.th[t].p);
    assert |s'.m.nodes| == |s.m.nodes|;
    hide Shape, Chain, Spare, ThreadOk, PredOf, Apart, Conserved, StepThread;
    NodesSwap(s, s', t);
  }

  lemma StepKeepsInv(s: State, e: Event)
    requires Inv(s)
    ensures Inv(Step(s, e)) && |Step(s, e).th| == |s.th|
  {
    if e.t < |s.th| {
      assert |s.m.local| == |s.th|;
      if SteadyPc(s, e.t) {
        SteadyStep(s, e.t, e.garbage);
        SteadyKeepsInv(s, Step(s, e));
      } else {
        hide Inv, Steady, StepThread;
        match s.th[e.t]
        case GetLocal => FreshLocalKeepsInv(s, e.t, e.garbage);
        case SetLocked(_) => SetLockedKeepsInv(s, e.t, e.garbage);
        case Swap(_) => SwapKeepsInv(s, e.t, e.garbage);
        case AllocPred(_) => AllocPredKeepsInv(s, e.t, e.garbage);
        case ClearLocked(_, _) => ReleaseKeepsInv(s, e.t, e.garbage);
      }
    }
  }

  lemma {:induction false} Reachable(n: nat, sched: seq<Event>)
    ensures Inv(Run(Init(n), sched)) && |Run(Init(n), sched).th| == n
  {
    hide Inv, Step;
    if sched == [] {
      assert Inv(Init(n)) by { InitInv(n); }
    } else {
      Reachable(n, sched[..|sched| - 1]);
      StepKeepsInv(Run(Init(n), sched[..|sched| - 1]), sched[|sched| - 1]);
    }
  }

  lemma InitInv(n: nat)
    ensures Inv(Init(n))
  {
    SumZero(Owners(Init(n)));
  }

  // ----- results, for every number of threads and every schedule

  /** One holder at most, and it is the oldest entry in swap order. */
  lemma ExclusiveAndFifo(n: nat, sched: seq<Event>, t: nat, u: nat)
    requires t < n && u < n
    ensures var s := Run(Init(n), sched);
      && |s.th| == n
      && (Holds(s.th[t]) ==> s.m.queue != [] && s.m.queue[0] == t)
      && (Holds(s.th[t]) && Holds(s.th[u]) ==> t == u)
  {
    Reachable(n, sched);
    var s := Run(Init(n), sched);
    if Holds(s.th[t]) { HolderHeads(s, t); }
    if Holds(s.th[u]) { HolderHeads(s, u); }
  }

  /** The nodes of any two threads, and the spare node, are pairwise different, although
      every release makes two of them change owner. */
  lemma NodesApart(n: nat, sched: seq<Event>, t: nat, u: nat)
    requires t < n && u < n && t != u
    ensures var s := Run(Init(n), sched);
      && |s.th| == |s.m.local| == n
      && (Mine(s, t).To? ==> Mine(s, t) != Mine(s, u) && Mine(s, t) != Spare(s))
  {
    Reachable(n, sched);
    MineApart(Run(Init(n), sched), t);
  }

  /** No node is lost and none is invented: those ever allocated are the threads' own and
      the spare one, so `n` threads never need more than `n + 1`. */
  lemma NodesConserved(n: nat, sched: seq<Event>)
    ensures var s := Run(Init(n), sched);
      && |s.m.local| == |s.th| == n
      && |s.m.nodes| == Sum(Owners(s)) + Flag(Spare(s).To?)
      && |s.m.nodes| <= n + 1
  {
    Reachable(n, sched);
    SumAtMost(Owners(Run(Init(n), sched)), 1);
  }

  /** A thread about to set locked = 1 in its node is the only one to know that node. */
  lemma NeverRelocksWatchedNode(n: nat, sched: seq<Event>, t: nat, u: nat)
    requires t < n && u < n
    ensures var s := Run(Init(n), sched);
      && |s.th| == |s.m.local| == n
      && (s.th[t].SetLocked? && Waits(s.th[u]) ==> PredOf(s, u) != To(s.th[t].n))
  {
    Reachable(n, sched);
    var s := Run(Init(n), sched);
    if s.th[t].SetLocked? && Waits(s.th[u]) {
      assert ThreadOk(s, t);
      MineApart(s, t);
      var i :| 0 <= i < |s.m.queue| && s.m.queue[i] == u;
      if i > 0 {
        assert ChainOk(s, i - 1);
        assert ThreadOk(s, s.m.queue[i - 1]);
      }
    }
  }

  /** A spinning thread leaves its loop at its next look exactly when it is the head of the
      queue, so exactly when its predecessor has gone. */
  lemma SpinnerLeaves(n: nat, sched: seq<Event>, t: nat, garbage: bool)
    requires t < n
    ensures var s := Run(Init(n), sched);
      |s.th| == |s.m.local| == n && (s.th[t].Spin? ==>
        t in s.m.queue && (Step(s, Move(t, garbage)).th[t].Critical? <==> s.m.queue[0] == t))
  {
    hide Run, Apart, Conserved;
    Reachable(n, sched);
    var s := Run(Init(n), sched);
    if s.th[t].Spin? && !Locked(s.m, s.th[t].p) { FreeSpinnerHeads(s, t); }
  }

  /** `k` steps of thread `t` alone. */
  function Solo(s: State, t: nat, garbage: bool, k: nat): State
    decreases k
  {
    if k == 0 then s else Solo(Step(s, Move(t, garbage)), t, garbage, k - 1)
  }

  /** In clh_lock_lock, with nobody ahead. */
  predicate NobodyAhead(s: State, t: nat) {
    && t < |s.th|
    && var pc := s.th[t];
      if s.m.queue == [] then pc.Idle? || pc.GetLocal? || pc.SetLocked? || pc.Swap?
      else s.m.queue[0] == t && (pc.AllocPred? || pc.StoreFirst? || pc.StorePred? || pc.Spin?)
  }

  function LockRank(pc: Pc): nat {
    match pc
    case Idle => 6
    case GetLocal => 5
    case SetLocked(_) => 4
    case Swap(_) => 3
    case AllocPred(_) => 2
    case StorePred(_, _) => 2
    case StoreFirst(_, _) => 1
    case Spin(_) => 1
    case _ => 0
  }

  lemma LockStep(s: State, t: nat, garbage: bool)
    requires Inv(s) && NobodyAhead(s, t)
    ensures var s1 := Step(s, Move(t, garbage));
      && t < |s1.th| && LockRank(s1.th[t]) < LockRank(s.th[t])
      && (s1.th[t].Critical? || NobodyAhead(s1, t))
  {
    hide Apart, Conserved;
    if s.th[t].Spin? { assert ThreadOk(s, t); }
  }

  lemma {:induction false} LockRuns(s: State, t: nat, garbage: bool) returns (k: nat)
    requires Inv(s) && NobodyAhead(s, t)
    ensures k <= LockRank(s.th[t])
    ensures t < |Solo(s, t, garbage, k).th| && Solo(s, t, garbage, k).th[t].Critical?
    decreases LockRank(s.th[t])
  {
    hide Inv, Step, NobodyAhead, LockRank;
    var s1 := Step(s, Move(t, garbage));
    LockStep(s, t, garbage);
    StepKeepsInv(s, Move(t, garbage));
    if s1.th[t].Critical? {
      k := 1;
      assert Solo(s1, t, garbage, 0) == s1;
    } else {
      var j := LockRuns(s1, t, garbage);
      k := j + 1;
    }
  }

  /** The grant is never lost: the head of the queue holds the lock, or has it after at most
      two steps of its own. */
  lemma HeadCanProceed(n: nat, sched: seq<Event>, garbage: bool) returns (k: nat)
    requires Run(Init(n), sched).m.queue != []
    ensures var s := Run(Init(n), sched);
      var t := s.m.queue[0];
      && k <= 2 && t < |s.th|
      && (Holds(s.th[t]) || (t < |Solo(s, t, garbage, k).th| && Solo(s, t, garbage, k).th[t].Critical?))
  {
    hide Run, Apart, Conserved, Shape, Solo;
    Reachable(n, sched);
    var s := Run(Init(n), sched);
    k := 0;
    if !Holds(s.th[s.m.queue[0]]) { k := LockRuns(s, s.m.queue[0], garbage); }
  }

  /** clh_lock_lock on a free lock takes at most six steps. */
  lemma LockAlone(n: nat, sched: seq<Event>, t: nat, garbage: bool) returns (k: nat)
    requires var s := Run(Init(n), sched); t < |s.th| && s.th[t].Idle? && s.m.queue == []
    ensures var s := Run(Init(n), sched);
      k <= 6 && t < |Solo(s, t, garbage, k).th| && Solo(s, t, garbage, k).th[t].Critical?
  {
    Reachable(n, sched);
    hide Run, Inv, Solo;
    k := LockRuns(Run(Init(n), sched), t, garbage);
  }

  /** clh_lock_unlock takes four steps, and the queue then starts with the next thread. */
  lemma UnlockAlone(n: nat, sched: seq<Event>, t: nat, garbage: bool)
    requires var s := Run(Init(n), sched); t < |s.th| && s.th[t].Critical?
    ensures var s := Run(Init(n), sched);
      var s4 := Solo(s, t, garbage, 4);
      && s.m.queue != [] && s.m.queue[0] == t
      && t < |s4.th| && s4.th[t].Idle? && s4.m.queue == s.m.queue[1..]
  {
    hide Run, Apart, Conserved;
    Reachable(n, sched);
    var s := Run(Init(n), sched);
    HolderHeads(s, t);
    assert ThreadOk(s, t);
    var e := Move(t, garbage);
    var s1 := Step(s, e);
    var s2 := Step(s1, e);
    var s3 := Step(s2, e);
    hide Inv, Shape, Chain;
    assert s1.m == s.m && s2.m == s.m && s2.th[t].ClearLocked?;
    assert s3.th[t].SetLocal? && s3.m.queue == s.m.queue[1..];
    assert Solo(s, t, garbage, 4) == Solo(s1, t, garbage, 3) == Solo(s2, t, garbage, 2) == Solo(s3, t, garbage, 1);
    assert Solo(s3, t, garbage, 1) == Solo(Step(s3, e), t, garbage, 0);
  }
}
