/** The MCS queue lock of src/mcs_in.c (the same code serves src/glk.c), down to the
    accesses to its node fields: swap the tail pointer, then link, with a window in
    which the list is broken. Each thread has one node per lock, so a node is named
    by its thread.

    `queue` is the order of the swaps. No step reads it. */
module Mcs {
  import opened Sums

  datatype Link = Null | To(t: nat)
  datatype Node = Node(next: Link, waiting: bool)

  datatype Pc =
    | Idle
      // mcs_lock_lock
    | ClearNext
    | Swap
    | SetWaiting(pred: nat)
    | LinkPred(pred: nat)
    | Spin
      // mcs_lock_trylock
    | TryRead
    | TryClear
    | TryCas
    | Critical
      // the holder's walk over the queue
    | Walk(curr: Link, res: nat)
      // mcs_lock_unlock
    | ReadSucc
    | CasTail
    | AwaitSucc
    | Wake(succ: nat)

  datatype Mem = Mem(tail: Link, nodes: seq<Node>, queue: seq<nat>)
  datatype State = State(m: Mem, th: seq<Pc>)
  datatype View = View(m: Mem, pc: Pc)

  datatype Choice = Lock | TryLock | Unlock | CountQueue
  datatype Event = Move(t: nat, choice: Choice)

  function Init(n: nat): State {
    State(Mem(Null, seq(n, i => Node(Null, false)), []), seq(n, i => Idle))
  }

  function SetNext(m: Mem, t: nat, next: Link): Mem {
    if t < |m.nodes| then m.(nodes := m.nodes[t := m.nodes[t].(next := next)]) else m
  }

  function PutWaiting(m: Mem, t: nat, waiting: bool): Mem {
    if t < |m.nodes| then m.(nodes := m.nodes[t := m.nodes[t].(waiting := waiting)]) else m
  }

  function NextOf(m: Mem, t: nat): Link {
    if t < |m.nodes| then m.nodes[t].next else Null
  }

  function StepThread(m: Mem, t: nat, pc: Pc, choice: Choice): View
    requires t < |m.nodes|
  {
    match pc
    case Idle => View(m, match choice case Lock => ClearNext case TryLock => TryRead case _ => Idle)
    case ClearNext => View(SetNext(m, t, Null), Swap)
    case Swap =>
      View(m.(tail := To(t), queue := m.queue + [t]), if m.tail.Null? then Critical else SetWaiting(m.tail.t))
    case SetWaiting(pred) => View(PutWaiting(m, t, true), LinkPred(pred))
    case LinkPred(pred) => View(SetNext(m, pred, To(t)), Spin)
    case Spin => View(m, if m.nodes[t].waiting then Spin else Critical)
    case TryRead => View(m, if m.tail.Null? then TryClear else Idle)
    case TryClear => View(SetNext(m, t, Null), TryCas)
    case TryCas =>
      if m.tail.Null? then View(m.(tail := To(t), queue := m.queue + [t]), Critical) else View(m, Idle)
    case Critical =>
      View(m, match choice case Unlock => ReadSucc case CountQueue => Walk(NextOf(m, t), 1) case _ => Critical)
    case Walk(curr, res) => View(m, if curr.Null? then Critical else Walk(NextOf(m, curr.t), res + 1))
    case ReadSucc => View(m, if NextOf(m, t).To? then Wake(NextOf(m, t).t) else CasTail)
    case CasTail =>
      if m.tail == To(t) then View(m.(tail := Null, queue := Pop(m.queue)), Idle) else View(m, AwaitSucc)
    case AwaitSucc => View(m, if NextOf(m, t).To? then Wake(NextOf(m, t).t) else AwaitSucc)
    case Wake(succ) => View(PutWaiting(m, succ, false).(queue := Pop(m.queue)), Idle)
  }

  function Pop(q: seq<nat>): seq<nat> {
    if q == [] then [] else q[1..]
  }

  function Step(s: State, e: Event): State {
    if e.t < |s.th| && e.t < |s.m.nodes| then
      After(s, e.t, StepThread(s.m, e.t, s.th[e.t], e.choice))
    else s
  }

  function After(s: State, t: nat, v: View): State
    requires t < |s.th|
  {
    State(v.m, s.th[t := v.pc])
  }

  function Run(s: State, sched: seq<Event>): State {
    if sched == [] then s else Step(Run(s, sched[..|sched| - 1]), sched[|sched| - 1])
  }

  // ----- the invariant

  /** Owns the lock: between acquiring it and the last access of its release. */
  predicate Holds(pc: Pc) {
    pc.Critical? || pc.Walk? || pc.ReadSucc? || pc.CasTail? || pc.AwaitSucc? || pc.Wake?
  }

  predicate Unlinked(pc: Pc) {
    pc.SetWaiting? || pc.LinkPred?
  }

  predicate Queues(pc: Pc) {
    Holds(pc) || Unlinked(pc) || pc.Spin?
  }

  ghost predicate Shape(s: State) {
    var q := s.m.queue;
    && |s.m.nodes| == |s.th|
    && (forall i :: 0 <= i < |q| ==> q[i] < |s.th| && Queues(s.th[q[i]]))
    && (forall i, j :: 0 <= i < j < |q| ==> q[i] != q[j])
    && (forall t :: 0 <= t < |s.th| && Queues(s.th[t]) ==> t in q)
    && (forall t :: 0 <= t < |s.th| && (s.th[t].Swap? || s.th[t].TryCas?) ==> s.m.nodes[t].next == Null)
    && s.m.tail == if q == [] then Null else To(q[|q| - 1])
  }

  /** The link from the queue's entry `i` to its successor: present once the successor
      has linked itself. */
  predicate LinkOk(s: State, i: nat)
    requires i + 1 < |s.m.queue|
  {
    var t := s.m.queue[i];
    var u := s.m.queue[i + 1];
    && t < |s.m.nodes| && u < |s.m.nodes| && u < |s.th|
    && (Unlinked(s.th[u]) ==> s.m.nodes[t].next == Null && s.th[u].pred == t)
    && (!Unlinked(s.th[u]) ==> s.m.nodes[t].next == To(u) && s.th[u].Spin?)
    && (s.th[u].LinkPred? || s.th[u].Spin? ==> s.m.nodes[u].waiting)
  }

  ghost predicate Links(s: State) {
    var q := s.m.queue;
    && |s.m.nodes| == |s.th|
    && (forall i :: 0 <= i < |q| ==> q[i] < |s.th|)
    && (forall i {:trigger LinkOk(s, i)} :: 0 <= i < |q| - 1 ==> LinkOk(s, i))
    && (q != [] ==> s.m.nodes[q[|q| - 1]].next == Null)
    && (q != [] ==> Holds(s.th[q[0]]) || (s.th[q[0]].Spin? && !s.m.nodes[q[0]].waiting))
    && (forall i :: 0 < i < |q| ==> !Holds(s.th[q[i]]))
  }

  /** What the holder `pc` at the head of queue `q` knows about its successors. */
  predicate HeadOk(q: seq<nat>, pc: Pc) {
    && (pc.AwaitSucc? ==> |q| >= 2)
    && (pc.Wake? ==> |q| >= 2 && q[1] == pc.succ)
    && (pc.Walk? ==> 1 <= pc.res <= |q| && (pc.curr.To? ==> pc.res < |q| && q[pc.res] == pc.curr.t))
  }

  ghost predicate Heads(s: State) {
    forall t :: 0 <= t < |s.th| ==>
      HeadOk(s.m.queue, s.th[t]) && (s.th[t].Wake? ==> s.th[t].succ < |s.th| && s.th[s.th[t].succ].Spin?)
  }

  ghost predicate Inv(s: State) {
    Shape(s) && Links(s) && Heads(s)
  }

  /** The holder is the head of the queue; its link, if set, names the second entry. */
  lemma HolderIsHead(s: State, t: nat)
    requires Inv(s) && t < |s.th| && Holds(s.th[t])
    ensures s.m.queue != [] && s.m.queue[0] == t
    ensures s.m.nodes[t].next.To? ==>
      |s.m.queue| >= 2 && s.m.queue[1] == s.m.nodes[t].next.t && s.th[s.m.queue[1]].Spin?
  {
    var i :| 0 <= i < |s.m.queue| && s.m.queue[i] == t;
    assert i == 0;
    if |s.m.queue| >= 2 { assert LinkOk(s, 0); }
  }

  lemma SpinnerKnows(s: State, t: nat)
    requires Inv(s) && t < |s.th| && s.th[t].Spin? && !s.m.nodes[t].waiting
    ensures s.m.queue != [] && s.m.queue[0] == t
  {
    var i :| 0 <= i < |s.m.queue| && s.m.queue[i] == t;
    assert i > 0 ==> LinkOk(s, i - 1);
  }

  /** A step that only moves a program counter. */
  ghost predicate Quiet(s: State, t: nat, pc: Pc)
    requires t < |s.th| == |s.m.nodes|
  {
    && (Holds(pc) == Holds(s.th[t]) || (s.th[t].Spin? && pc.Critical? && !s.m.nodes[t].waiting))
    && Queues(pc) == Queues(s.th[t]) && (pc.Spin? ==> s.th[t].Spin?)
    && !Unlinked(pc) && !Unlinked(s.th[t])
    && !(pc.Swap? || pc.TryCas?)
    && HeadOk(s.m.queue, pc) && (pc.Wake? ==> pc.succ < |s.th| && s.th[pc.succ].Spin?)
  }

  lemma QuietKeepsInv(s: State, t: nat, pc: Pc)
    requires Inv(s) && t < |s.th| && Quiet(s, t, pc)
    ensures Inv(After(s, t, View(s.m, pc)))
  {
    var s' := After(s, t, View(s.m, pc));
    assert Shape(s') by { hide Links, Heads, HeadOk; }
    assert Links(s') by { QuietLinks(s, t, pc); }
    assert Heads(s') by {
      if s.th[t].Spin? && pc.Critical? { SpinnerKnows(s, t); }
      NobodyWakes(s, t, pc);
    }
  }

  /** Only a spinner already released stops spinning, and nobody is waking it any more. */
  lemma NobodyWakes(s: State, t: nat, pc: Pc)
    requires Inv(s) && t < |s.th| && Quiet(s, t, pc)
    ensures forall u :: 0 <= u < |s.th| && u != t && s.th[u].Wake? && s.th[u].succ == t ==> pc.Spin?
  {
    forall u | 0 <= u < |s.th| && u != t && s.th[u].Wake? && s.th[u].succ == t
      ensures pc.Spin?
    {
      HolderIsHead(s, u);
      assert HeadOk(s.m.queue, s.th[u]);
      assert LinkOk(s, 0);
    }
  }

  lemma QuietLinks(s: State, t: nat, pc: Pc)
    requires Inv(s) && t < |s.th| && Quiet(s, t, pc)
    ensures Links(After(s, t, View(s.m, pc)))
  {
    hide Heads, HeadOk;
    var s' := After(s, t, View(s.m, pc));
    if s.th[t].Spin? && pc.Critical? { SpinnerKnows(s, t); }
    forall i {:trigger LinkOk(s', i)} | 0 <= i < |s.m.queue| - 1
      ensures LinkOk(s', i)
    {
      assert LinkOk(s, i);
    }
    forall i | 0 < i < |s.m.queue|
      ensures !Holds(s'.th[s.m.queue[i]])
    {
      assert s.m.queue[i] != s.m.queue[0];
    }
  }

  // Each remaining kind of step, one part of the invariant at a time.

  function Cleared(s: State, t: nat, pc: Pc): State
    requires t < |s.th|
  {
    After(s, t, View(SetNext(s.m, t, Null), pc))
  }

  lemma ClearKeepsShape(s: State, t: nat, pc: Pc)
    requires Inv(s) && t < |s.th| && !Queues(s.th[t]) && (pc.Swap? || pc.TryCas?)
    ensures Shape(Cleared(s, t, pc)) && t !in s.m.queue
  {
    hide Links, Heads;
  }

  lemma ClearKeepsInv(s: State, t: nat, pc: Pc)
    requires Inv(s) && t < |s.th| && !Queues(s.th[t]) && (pc.Swap? || pc.TryCas?)
    ensures Inv(Cleared(s, t, pc))
  {
    var s' := Cleared(s, t, pc);
    ClearKeepsShape(s, t, pc);
    forall i {:trigger LinkOk(s', i)} | 0 <= i < |s.m.queue| - 1
      ensures LinkOk(s', i)
    {
      hide Heads;
      assert LinkOk(s, i);
    }
    assert Links(s') by { hide Heads, HeadOk, LinkOk; }
    assert Heads(s') by { hide Links, LinkOk; }
  }

  /** The swap: the new entry is the tail, and the list is broken in front of it. */
  function Joined(s: State, t: nat): State
    requires t < |s.th|
  {
    After(s, t, View(s.m.(tail := To(t), queue := s.m.queue + [t]),
                     if s.m.tail.Null? then Critical else SetWaiting(s.m.tail.t)))
  }

  lemma JoinKeepsShape(s: State, t: nat)
    requires Inv(s) && t < |s.th| && (s.th[t].Swap? || s.th[t].TryCas?)
    ensures Shape(Joined(s, t)) && t !in s.m.queue
  {
    hide Links, Heads;
    var q := s.m.queue + [t];
    assert q[|s.m.queue|] == t;
    forall u | 0 <= u < |s.th| && (Queues(s.th[u]) || u == t)
      ensures u in q
    {
      if u != t { assert u in s.m.queue; }
    }
  }

  lemma JoinKeepsLinks(s: State, t: nat)
    requires Inv(s) && t < |s.th| && (s.th[t].Swap? || s.th[t].TryCas?) && t !in s.m.queue
    ensures Links(Joined(s, t))
  {
    hide Heads, HeadOk;
    var s' := Joined(s, t);
    var n := |s.m.queue|;
    forall i {:trigger LinkOk(s', i)} | 0 <= i < n
      ensures LinkOk(s', i)
    {
      if i < n - 1 { assert LinkOk(s, i); }
    }
    hide LinkOk;
  }

  lemma JoinKeepsInv(s: State, t: nat)
    requires Inv(s) && t < |s.th| && (s.th[t].Swap? || s.th[t].TryCas?)
    ensures Inv(Joined(s, t))
  {
    hide Links, LinkOk, Shape;
    JoinKeepsShape(s, t);
    JoinKeepsLinks(s, t);
  }

  lemma SetWaitingKeepsInv(s: State, t: nat)
    requires Inv(s) && t < |s.th| && s.th[t].SetWaiting?
    ensures Inv(After(s, t, View(PutWaiting(s.m, t, true), LinkPred(s.th[t].pred))))
  {
    var s' := After(s, t, View(PutWaiting(s.m, t, true), LinkPred(s.th[t].pred)));
    assert Shape(s') by { hide Links, Heads; }
    forall i {:trigger LinkOk(s', i)} | 0 <= i < |s.m.queue| - 1
      ensures LinkOk(s', i)
    {
      assert LinkOk(s, i);
    }
    assert Links(s') by { hide Heads, HeadOk; }
    assert Heads(s') by { hide LinkOk; }
  }

  /** The store that mends the list. */
  function Linked(s: State, t: nat): State
    requires t < |s.th| && s.th[t].LinkPred?
  {
    After(s, t, View(SetNext(s.m, s.th[t].pred, To(t)), Spin))
  }

  lemma LinkKeepsLinks(s: State, t: nat) returns (k: nat)
    requires Inv(s) && t < |s.th| && s.th[t].LinkPred?
    ensures Links(Linked(s, t))
    ensures k + 1 < |s.m.queue| && s.m.queue[k] == s.th[t].pred && s.m.queue[k + 1] == t
  {
    hide Heads, HeadOk;
    var s' := Linked(s, t);
    var j :| 0 <= j < |s.m.queue| && s.m.queue[j] == t;
    k := j - 1;
    assert LinkOk(s, k);
    forall i {:trigger LinkOk(s', i)} | 0 <= i < |s.m.queue| - 1
      ensures LinkOk(s', i)
    {
      assert LinkOk(s, i);
    }
    hide LinkOk;
  }

  lemma LinkKeepsInv(s: State, t: nat)
    requires Inv(s) && t < |s.th| && s.th[t].LinkPred?
    ensures Inv(Linked(s, t))
  {
    var s' := Linked(s, t);
    var k := LinkKeepsLinks(s, t);
    assert Shape(s') by { hide Heads, Links; }
    assert Heads(s') by { hide Links, LinkOk; }
  }

  /** The last access of a release: the tail is cleared, or the successor is woken. */
  ghost predicate Leaves(s: State, t: nat, m: Mem) {
    && t < |s.th| && Holds(s.th[t])
    && if s.th[t].Wake? then m == PutWaiting(s.m, s.th[t].succ, false).(queue := Pop(s.m.queue))
       else s.m.tail == To(t) && m == s.m.(tail := Null, queue := Pop(s.m.queue))
  }

  /** What the leaving holder knows: it heads the queue, and `succ` comes next. */
  lemma LeaverKnows(s: State, t: nat, m: Mem)
    requires Inv(s) && Leaves(s, t, m)
    ensures s.m.queue != [] && s.m.queue[0] == t && m.queue == s.m.queue[1..]
    ensures s.th[t].Wake? ==> |s.m.queue| >= 2 && s.m.queue[1] == s.th[t].succ
    ensures !s.th[t].Wake? ==> |s.m.queue| == 1
  {
    HolderIsHead(s, t);
    assert HeadOk(s.m.queue, s.th[t]);
  }

  lemma LeaveKeepsShape(s: State, t: nat, m: Mem)
    requires Inv(s) && Leaves(s, t, m)
    ensures Shape(After(s, t, View(m, Idle)))
  {
    LeaverKnows(s, t, m);
    hide Links, Heads, HeadOk;
    var q := s.m.queue;
    forall u | 0 <= u < |s.th| && u != t && Queues(s.th[u])
      ensures u in m.queue
    {
      var i :| 0 <= i < |q| && q[i] == u;
      assert m.queue[i - 1] == u;
    }
  }

  lemma LeaveKeepsLinks(s: State, t: nat, m: Mem)
    requires Inv(s) && Leaves(s, t, m)
    ensures Links(After(s, t, View(m, Idle)))
  {
    LeaverKnows(s, t, m);
    hide Heads, HeadOk;
    var s' := After(s, t, View(m, Idle));
    if |m.queue| > 0 { assert LinkOk(s, 0); }
    forall i {:trigger LinkOk(s', i)} | 0 <= i < |m.queue| - 1
      ensures LinkOk(s', i)
    {
      assert LinkOk(s, i + 1);
    }
    assert |m.queue| > 0 ==> m.nodes[m.queue[|m.queue| - 1]].next == s.m.nodes[s.m.queue[|s.m.queue| - 1]].next;
    hide LinkOk;
  }

  lemma LeaveKeepsInv(s: State, t: nat, m: Mem)
    requires Inv(s) && Leaves(s, t, m)
    ensures Inv(After(s, t, View(m, Idle)))
  {
    LeaveKeepsShape(s, t, m);
    LeaveKeepsLinks(s, t, m);
    OneHolder(s, t);
    hide Links, LinkOk, Shape;
  }

  lemma OneHolder(s: State, t: nat)
    requires Inv(s) && t < |s.th| && Holds(s.th[t])
    ensures forall u :: 0 <= u < |s.th| && Holds(s.th[u]) ==> u == t
  {
    HolderIsHead(s, t);
    forall u | 0 <= u < |s.th| && Holds(s.th[u])
      ensures u == t
    {
      HolderIsHead(s, u);
    }
  }

  lemma StepKeepsInv(s: State, e: Event)
    requires Inv(s)
    ensures Inv(Step(s, e))
  {
    if e.t < |s.th| {
      var t, pc := e.t, s.th[e.t];
      var v := StepThread(s.m, t, pc, e.choice);
      if Unlinked(pc) || pc.ClearNext? || pc.TryClear? || pc.Swap? || pc.Wake? || v.m != s.m {
        hide Links, LinkOk, Heads, HeadOk;
        match pc
        case ClearNext => ClearKeepsInv(s, t, Swap);
        case TryClear => ClearKeepsInv(s, t, TryCas);
        case Swap => JoinKeepsInv(s, t);
        case TryCas => JoinKeepsInv(s, t);
        case SetWaiting(_) => SetWaitingKeepsInv(s, t);
        case LinkPred(_) => LinkKeepsInv(s, t);
        case CasTail => LeaveKeepsInv(s, t, v.m);
        case Wake(_) => LeaveKeepsInv(s, t, v.m);
      } else {
        QuietSteps(s, t, e.choice);
        QuietKeepsInv(s, t, v.pc);
      }
    }
  }

  lemma QuietSteps(s: State, t: nat, choice: Choice)
    requires Inv(s) && t < |s.th|
    requires var pc := s.th[t]; var v := StepThread(s.m, t, pc, choice);
      v.m == s.m && !Unlinked(pc) && !pc.ClearNext? && !pc.TryClear? && !pc.Swap? && !pc.Wake?
    ensures Quiet(s, t, StepThread(s.m, t, s.th[t], choice).pc)
  {
    var q := s.m.queue;
    assert HeadOk(q, s.th[t]);
    if Holds(s.th[t]) {
      HolderIsHead(s, t);
      if s.th[t].Walk? && s.th[t].curr.To? {
        WalkHop(s, t);
      }
    }
    hide Heads;
    if s.th[t].CasTail? { assert s.m.tail == To(q[|q| - 1]); }
  }

  lemma WalkHop(s: State, t: nat)
    requires Inv(s) && t < |s.th| && s.th[t].Walk? && s.th[t].curr.To?
    ensures HeadOk(s.m.queue, Walk(NextOf(s.m, s.th[t].curr.t), s.th[t].res + 1))
  {
    var q, res := s.m.queue, s.th[t].res;
    assert HeadOk(q, s.th[t]);
    if res + 1 < |q| { assert LinkOk(s, res); }
  }

  lemma {:induction false} Reachable(n: nat, sched: seq<Event>)
    ensures Inv(Run(Init(n), sched)) && |Run(Init(n), sched).th| == n
  {
    hide Inv, StepThread;
    if sched == [] {
      assert Inv(Init(n)) by { InitInv(n); }
    } else {
      Reachable(n, sched[..|sched| - 1]);
      StepKeepsInv(Run(Init(n), sched[..|sched| - 1]), sched[|sched| - 1]);
    }
  }

  lemma InitInv(n: nat)
    ensures Inv(Init(n))
  {
  }

  // ----- results, for every number of threads and every schedule

  /** One holder at most, and it is the oldest entry in swap order. */
  lemma ExclusiveAndFifo(n: nat, sched: seq<Event>, t: nat, u: nat)
    requires t < n && u < n
    ensures var s := Run(Init(n), sched);
      && |s.th| == n
      && (Holds(s.th[t]) ==> s.m.queue != [] && s.m.queue[0] == t)
      && (Holds(s.th[t]) && Holds(s.th[u]) ==> t == u)
  {
    Reachable(n, sched);
    var s := Run(Init(n), sched);
    if Holds(s.th[t]) { OneHolder(s, t); HolderIsHead(s, t); }
  }

  /** The moves of the queue lock that module Glk uses: nothing, join at the end (and
      hold at once if alone), be granted as the head, or leave as the head. */
  ghost predicate FifoMove(s: State, s': State, t: nat) {
    && |s'.th| == |s.th| && t < |s.th|
    && (forall u :: 0 <= u < |s.th| && u != t ==> Holds(s'.th[u]) == Holds(s.th[u]))
    && var q, q' := s.m.queue, s'.m.queue;
      || (q' == q && Holds(s'.th[t]) == Holds(s.th[t]))
      || (q' == q + [t] && t !in q && !Holds(s.th[t]) && Holds(s'.th[t]) == (q == []))
      || (q' == q && q != [] && q[0] == t && !Holds(s.th[t]) && Holds(s'.th[t]))
      || (q != [] && q[0] == t && q' == q[1..] && Holds(s.th[t]) && !Holds(s'.th[t]))
  }

  /** What a thread's next access relies on. */
  ghost predicate FifoFacts(s: State, t: nat) {
    && t < |s.th| && |s.m.nodes| == |s.th|
    && (Holds(s.th[t]) ==> s.m.queue != [] && s.m.queue[0] == t)
    && (s.th[t].Spin? && !s.m.nodes[t].waiting ==> s.m.queue != [] && s.m.queue[0] == t)
    && (t in s.m.queue ==> Queues(s.th[t]))
    && (s.m.tail.Null? <==> s.m.queue == [])
  }

  lemma FactsHold(s: State, t: nat)
    requires Inv(s) && t < |s.th|
    ensures FifoFacts(s, t)
  {
    if Holds(s.th[t]) { HolderIsHead(s, t); }
    if s.th[t].Spin? && !s.m.nodes[t].waiting { SpinnerKnows(s, t); }
  }

  lemma FactsGiveMove(s: State, e: Event)
    requires FifoFacts(s, e.t)
    ensures FifoMove(s, Step(s, e), e.t)
  {
  }

  /** Every access of the pointer-level code is a move of the queue lock or invisible to it. */
  lemma RefinesFifo(n: nat, sched: seq<Event>, e: Event)
    requires e.t < n
    ensures var s := Run(Init(n), sched); FifoMove(s, Step(s, e), e.t)
  {
    hide Inv, Step, FifoMove, FifoFacts;
    Reachable(n, sched);
    FactsHold(Run(Init(n), sched), e.t);
    FactsGiveMove(Run(Init(n), sched), e);
  }

  /** The grant is never lost: the head of the queue holds the lock or its spin loop exits
      at its next access. */
  lemma HeadCanProceed(n: nat, sched: seq<Event>)
    ensures var s := Run(Init(n), sched);
      s.m.queue != [] ==>
        var t := s.m.queue[0];
        t < |s.th| && (Holds(s.th[t]) || (s.th[t].Spin? && Holds(Step(s, Move(t, Lock)).th[t])))
  {
    Reachable(n, sched);
  }

  /** A release wakes exactly the next thread in swap order. */
  lemma WakesNext(n: nat, sched: seq<Event>, t: nat)
    requires t < n
    ensures var s := Run(Init(n), sched);
      |s.th| == n && (s.th[t].Wake? ==> |s.m.queue| >= 2 && s.m.queue[1] == s.th[t].succ)
  {
    Reachable(n, sched);
    assert HeadOk(Run(Init(n), sched).m.queue, Run(Init(n), sched).th[t]);
  }

  /** While the holder walks the queue and others append to it, it has never counted
      more nodes than threads are queued; so the walk ends after at most `n` hops. */
  lemma WalkBounded(n: nat, sched: seq<Event>, t: nat)
    requires t < n
    ensures var s := Run(Init(n), sched);
      |s.th| == n && (s.th[t].Walk? ==> 1 <= s.th[t].res <= |s.m.queue| <= n)
  {
    Reachable(n, sched);
    var s := Run(Init(n), sched);
    assert HeadOk(s.m.queue, s.th[t]);
    DistinctBounded(s.m.queue, n);
  }

  /** A program counter that will still touch the node of `t`. */
  predicate RefersTo(pc: Pc, t: nat) {
    ((pc.SetWaiting? || pc.LinkPred?) && pc.pred == t) || (pc.Wake? && pc.succ == t) || (pc.Walk? && pc.curr == To(t))
  }

  /** Once its unlock is complete, nothing in the lock leads to a thread's node, so the
      node may be used for another lock. */
  lemma NodeFreeAfterUnlock(n: nat, sched: seq<Event>, t: nat, u: nat)
    requires t < n && u < n && t != u
    ensures var s := Run(Init(n), sched);
      && |s.th| == |s.m.nodes| == n
      && (!Queues(s.th[t]) ==>
           s.m.tail != To(t) && !RefersTo(s.th[u], t) && (u in s.m.queue ==> s.m.nodes[u].next != To(t)))
  {
    Reachable(n, sched);
    var s := Run(Init(n), sched);
    var q := s.m.queue;
    if !Queues(s.th[t]) {
      assert t !in q;
      assert HeadOk(q, s.th[u]);
      if Holds(s.th[u]) { HolderIsHead(s, u); }
      if u in q {
        var i :| 0 <= i < |q| && q[i] == u;
        assert i > 0 ==> LinkOk(s, i - 1);
        assert i < |q| - 1 ==> LinkOk(s, i);
      }
    }
  }

  // ----- what a call comes to when it runs alone

  /** `k` steps of thread `t` alone. */
  function Solo(s: State, t: nat, choice: Choice, k: nat): State
    decreases k
  {
    if k == 0 then s else Solo(Step(s, Move(t, choice)), t, choice, k - 1)
  }

  lemma SoloMore(s: State, t: nat, choice: Choice, k: nat)
    requires k > 0
    ensures Solo(s, t, choice, k) == Solo(Step(s, Move(t, choice)), t, choice, k - 1)
  {
  }

  lemma SoloNone(s: State, t: nat, choice: Choice)
    ensures Solo(s, t, choice, 0) == s
  {
  }

  /** mcs_lock_trylock takes the lock exactly when the queue is empty, at each of its tests. */
  lemma TryTakesIffFree(n: nat, sched: seq<Event>, t: nat, choice: Choice)
    requires t < n
    ensures var s := Run(Init(n), sched);
      var s' := Step(s, Move(t, choice));
      && |s.th| == |s'.th| == n
      && (s.th[t].TryRead? ==> s'.m == s.m && if s.m.queue == [] then s'.th[t].TryClear? else s'.th[t].Idle?)
      && (s.th[t].TryCas? ==>
           if s.m.queue == [] then s'.th[t].Critical? && s'.m.queue == [t] else s'.th[t].Idle? && s'.m == s.m)
  {
    hide Run, Links, Heads;
    Reachable(n, sched);
  }

  /** A whole trylock without interruption. */
  lemma TryLockAlone(n: nat, sched: seq<Event>, t: nat)
    requires var s := Run(Init(n), sched); t < |s.th| && s.th[t].Idle?
    ensures var s := Run(Init(n), sched);
      if s.m.queue == [] then t < |Solo(s, t, TryLock, 4).th| && Solo(s, t, TryLock, 4).th[t].Critical?
      else Solo(s, t, TryLock, 2) == s
  {
    hide Run, Links, Heads, Solo;
    Reachable(n, sched);
    var s := Run(Init(n), sched);
    var s1 := Step(s, Move(t, TryLock));
    var s2 := Step(s1, Move(t, TryLock));
    SoloMore(s, t, TryLock, if s.m.queue == [] then 4 else 2);
    SoloMore(s1, t, TryLock, if s.m.queue == [] then 3 else 1);
    if s.m.queue == [] {
      var s3 := Step(s2, Move(t, TryLock));
      SoloMore(s2, t, TryLock, 2);
      SoloMore(s3, t, TryLock, 1);
      SoloNone(Step(s3, Move(t, TryLock)), t, TryLock);
    } else {
      SoloNone(s2, t, TryLock);
      assert s2.th == s.th;
    }
  }

  /** mcs_lock_lock on a free lock takes three steps. */
  lemma LockAlone(n: nat, sched: seq<Event>, t: nat)
    requires var s := Run(Init(n), sched); t < |s.th| && s.th[t].Idle? && s.m.queue == []
    ensures var s := Run(Init(n), sched);
      t < |Solo(s, t, Lock, 3).th| && Solo(s, t, Lock, 3).th[t].Critical?
  {
    hide Run, Links, Heads, Solo;
    Reachable(n, sched);
    var s := Run(Init(n), sched);
    var s1 := Step(s, Move(t, Lock));
    var s2 := Step(s1, Move(t, Lock));
    SoloMore(s, t, Lock, 3);
    SoloMore(s1, t, Lock, 2);
    SoloMore(s2, t, Lock, 1);
    SoloNone(Step(s2, Move(t, Lock)), t, Lock);
  }

  /** In mcs_lock_unlock. */
  predicate Unlocks(pc: Pc) {
    pc.ReadSucc? || pc.CasTail? || pc.AwaitSucc? || pc.Wake?
  }

  function UnlockRank(pc: Pc): nat {
    match pc
    case Critical => 5
    case ReadSucc => 4
    case CasTail => 3
    case AwaitSucc => 2
    case Wake(_) => 1
    case _ => 0
  }

  /** The next thread in the queue, if there is one, has set the link to itself. */
  predicate SuccessorLinked(s: State) {
    |s.m.queue| <= 1 || (s.m.queue[1] < |s.th| && !Unlinked(s.th[s.m.queue[1]]))
  }

  lemma UnlockStep(s: State, t: nat)
    requires Inv(s) && t < |s.th| && (s.th[t].Critical? || Unlocks(s.th[t])) && SuccessorLinked(s)
    ensures var s1 := Step(s, Move(t, Unlock));
      && s.m.queue != [] && s.m.queue[0] == t && t < |s1.th|
      && if s1.th[t].Idle? then s1.m.queue == s.m.queue[1..]
         else s1.m.queue == s.m.queue && Unlocks(s1.th[t]) && SuccessorLinked(s1) &&
              UnlockRank(s1.th[t]) < UnlockRank(s.th[t])
  {
    HolderIsHead(s, t);
    assert HeadOk(s.m.queue, s.th[t]);
    if |s.m.queue| >= 2 { assert LinkOk(s, 0); }
    hide Heads;
  }

  lemma {:induction false} UnlockRuns(s: State, t: nat) returns (k: nat)
    requires Inv(s) && t < |s.th| && (s.th[t].Critical? || Unlocks(s.th[t])) && SuccessorLinked(s)
    ensures k <= UnlockRank(s.th[t]) && s.m.queue != []
    ensures var s' := Solo(s, t, Unlock, k); t < |s'.th| && s'.th[t].Idle? && s'.m.queue == s.m.queue[1..]
    decreases UnlockRank(s.th[t])
  {
    hide Inv, Step, Solo, SuccessorLinked;
    var s1 := Step(s, Move(t, Unlock));
    UnlockStep(s, t);
    StepKeepsInv(s, Move(t, Unlock));
    if s1.th[t].Idle? {
      k := 1;
      SoloNone(s1, t, Unlock);
    } else {
      var j := UnlockRuns(s1, t);
      k := j + 1;
    }
    SoloMore(s, t, Unlock, k);
  }

  /** mcs_lock_unlock returns by itself once the next thread has linked itself, at the latest
      after five steps, and leaves the queue to that thread. */
  lemma UnlockAlone(n: nat, sched: seq<Event>, t: nat) returns (k: nat)
    requires var s := Run(Init(n), sched);
      t < |s.th| && (s.th[t].Critical? || Unlocks(s.th[t])) && SuccessorLinked(s)
    ensures var s := Run(Init(n), sched);
      var s' := Solo(s, t, Unlock, k);
      k <= 5 && s.m.queue != [] && t < |s'.th| && s'.th[t].Idle? && s'.m.queue == s.m.queue[1..]
  {
    hide Run, Inv, Solo, SuccessorLinked;
    Reachable(n, sched);
    k := UnlockRuns(Run(Init(n), sched), t);
  }

  /** The link that an unlock may have to wait for takes two steps of the next thread. */
  lemma LinkComes(n: nat, sched: seq<Event>, u: nat, choice: Choice)
    requires var s := Run(Init(n), sched); |s.m.queue| >= 2 && s.m.queue[1] == u && u < |s.th| && Unlinked(s.th[u])
    ensures var s := Run(Init(n), sched);
      var s2 := Step(Step(s, Move(u, choice)), Move(u, choice));
      SuccessorLinked(if s.th[u].LinkPred? then Step(s, Move(u, choice)) else s2)
  {
    hide Run, Links, Heads;
    Reachable(n, sched);
  }

  /** The number of threads in the queue up to the first one that has not linked itself. */
  function LinkedFrom(s: State, i: nat): (r: nat)
    requires i <= |s.m.queue|
    ensures i <= r <= |s.m.queue|
    decreases |s.m.queue| - i
  {
    if i < |s.m.queue| && s.m.queue[i] < |s.th| && !Unlinked(s.th[s.m.queue[i]]) then LinkedFrom(s, i + 1) else i
  }

  /** One hop: the walk goes on to a thread exactly if that thread has linked itself. */
  lemma WalkStep(s: State, t: nat, res: nat, choice: Choice)
    requires Inv(s) && t < |s.th| && 1 <= res <= |s.m.queue|
    requires s.m.queue[res - 1] < |s.th| && s.th[t] == Walk(NextOf(s.m, s.m.queue[res - 1]), res)
    ensures NextOf(s.m, s.m.queue[res - 1]) == Null <==> LinkedFrom(s, res) == res
    ensures LinkedFrom(s, res) > res ==>
      var s1 := Step(s, Move(t, choice));
      && res < |s.m.queue| && s.m.queue[res] < |s.th| == |s1.th|
      && LinkedFrom(s, res) == LinkedFrom(s, res + 1)
      && s1.m == s.m && s1.th == s.th[t := Walk(NextOf(s.m, s.m.queue[res]), res + 1)]
  {
    hide Heads;
    if res < |s.m.queue| { assert LinkOk(s, res - 1); }
  }

  lemma {:induction false} WalkRuns(s: State, t: nat, res: nat, choice: Choice)
    requires Inv(s) && t < |s.th| && 1 <= res <= |s.m.queue|
    requires s.m.queue[res - 1] < |s.th| && s.th[t] == Walk(NextOf(s.m, s.m.queue[res - 1]), res)
    ensures var r := LinkedFrom(s, res);
      var s' := Solo(s, t, choice, r - res); t < |s'.th| && s'.th[t] == Walk(Null, r)
    decreases |s.m.queue| - res
  {
    hide Inv, Solo, Step, LinkedFrom;
    WalkStep(s, t, res, choice);
    if LinkedFrom(s, res) == res {
      SoloNone(s, t, choice);
    } else {
      var s1 := Step(s, Move(t, choice));
      StepKeepsInv(s, Move(t, choice));
      SoloMore(s, t, choice, LinkedFrom(s, res) - res);
      SameLinked(s, s1, res + 1);
      WalkRuns(s1, t, res + 1, choice);
    }
  }

  lemma {:induction false} SameLinked(s: State, s1: State, i: nat)
    requires i <= |s.m.queue| && s1.m.queue == s.m.queue && |s1.th| == |s.th|
    requires forall u :: 0 <= u < |s.th| ==> Unlinked(s1.th[u]) == Unlinked(s.th[u])
    ensures LinkedFrom(s1, i) == LinkedFrom(s, i)
    decreases |s.m.queue| - i
  {
    if i < |s.m.queue| { SameLinked(s, s1, i + 1); }
  }

  /** The holder's walk, when the others stand still, counts exactly the threads up to the
      first one that has not linked itself: the whole queue, if all have. */
  lemma WalkCounts(n: nat, sched: seq<Event>, t: nat)
    requires var s := Run(Init(n), sched); t < |s.th| && s.th[t].Critical?
    ensures var s := Run(Init(n), sched);
      && s.m.queue != []
      && var r := LinkedFrom(s, 1);
         var s' := Solo(s, t, CountQueue, r);
         t < |s'.th| && s'.th[t] == Walk(Null, r)
  {
    Reachable(n, sched);
    var s := Run(Init(n), sched);
    hide Run, Heads;
    HolderIsHead(s, t);
    var s1 := Step(s, Move(t, CountQueue));
    StepKeepsInv(s, Move(t, CountQueue));
    SoloMore(s, t, CountQueue, LinkedFrom(s, 1));
    SameLinked(s, s1, 1);
    hide Links, Solo;
    WalkRuns(s1, t, 1, CountQueue);
  }
}
