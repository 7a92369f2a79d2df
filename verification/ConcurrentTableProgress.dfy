/** The concurrent lock table gets on: resize_lock is released, a resize that is due takes place
    unless its trigger is lost, and puts, gets and resizes that run alone come to an end. */
module ConcurrentTableProgress {
  import opened Tables
  import opened ConcurrentTable
  import opened ConcurrentTableSafety

  // ----- resize_lock

  /** Whoever has resize_lock is resizing. */
  predicate FlagOwned(s: State) {
    s.m.resizing ==> exists t :: 0 <= t < |s.th| && Resizing(s.th[t])
  }

  /** Only buckets and counts of expansions have changed. */
  predicate SameControl(m: Mem, m': Mem) {
    && m'.cur == m.cur && m'.resizing == m.resizing && |m'.versions| == |m.versions|
    && forall v :: 0 <= v < |m.versions| ==>
         && m'.versions[v].replaced == m.versions[v].replaced && m'.versions[v].threshold == m.versions[v].threshold
         && |m'.versions[v].bins| == |m.versions[v].bins|
  }

  /** Only buckets have changed. */
  predicate SameCounts(m: Mem, m': Mem) {
    SameControl(m, m') && forall v :: 0 <= v < |m.versions| ==> m'.versions[v].expands == m.versions[v].expands
  }

  lemma BucketWrites(m: Mem, v: nat, key: nat)
    ensures forall lock :: SameCounts(m, Locked(m, v, key, lock))
    ensures forall slots :: SameCounts(m, Filled(m, v, key, slots))
  {
    hide Hash;
  }

  lemma PutSeqWrites(m: Mem, w: nat, s: Slot)
    ensures SameControl(m, PutSeq(m, w, s))
  {
    hide Filled;
    BucketWrites(m, w, s.key);
    BucketWrites(Counted(m, w), w, s.key);
  }

  lemma HolderControl(m: Mem, pc: Pc)
    requires Holds(pc)
    ensures var v := StepHolder(m, pc); SameControl(m, v.m) && !Resizing(v.pc)
    ensures !pc.Count? ==> SameCounts(m, StepHolder(m, pc).m)
  {
    hide Locked, Filled, BinOf;
    BucketWrites(m, pc.v, pc.key);
  }

  /** The number of buckets of a new table. */
  function Buckets(choice: Choice): nat {
    if choice.Advance? then choice.buckets + 1 else 1
  }

  predicate SameSource(pc: Pc, pc': Pc) {
    Copying(pc) ==> Copying(pc') && pc'.o == pc.o && pc'.w == pc.w
  }

  /** What a step does to resize_lock and to the tables as a whole. */
  lemma ControlStep(m: Mem, pc: Pc, choice: Choice)
    ensures var v := StepThread(m, pc, choice);
      match pc
      case RsTry(_, _, o) =>
        SameControl(m.(resizing := true), v.m) && (if m.resizing then v.pc.PutDone? else v.pc.RsCreate? && v.pc.o == o)
      case RsCreate(_, _, o) =>
        && v.pc.RsLock? && v.pc.o == o && v.m.cur == m.cur && v.m.resizing == m.resizing
        && |v.m.versions| == |m.versions| + 1 && v.m.versions[..|m.versions|] == m.versions
        && !v.m.versions[|m.versions|].replaced && v.pc.w == |m.versions|
        && |v.m.versions[|m.versions|].bins| == Buckets(choice)
      case RsSwap(_, _, o, w, again) =>
        v.m == m.(cur := w) && v.pc.RsPublish? && v.pc.o == o && v.pc.w == w && v.pc.again == again
      case RsPublish(_, _, o, w, again) =>
        && v.pc.RsRelease? && v.pc.again == again
        && (o < |m.versions| ==> v.m == m.(versions := m.versions[o := m.versions[o].(replaced := true)]))
        && (o >= |m.versions| ==> v.m == m)
      case RsRelease(_, _, _, again) => v.m == m.(resizing := false) && !Resizing(v.pc) && v.pc.RsRead? == again
      case _ => SameControl(m, v.m) && Resizing(v.pc) == Resizing(pc) && SameSource(pc, v.pc)
  {
    hide Locked, Filled, BinOf, PutSeq, WithBin, StepHolder;
    if Holds(pc) {
      HolderControl(m, pc);
      hide StepResize, StepFree;
    } else if InResize(pc) {
      hide StepFree, SameCounts;
      if pc.RsCopy? {
        CopyControl(m, pc);
        hide StepResize;
      } else if pc.RsLock? {
        LockControl(m, pc);
        hide StepResize;
      }
    } else {
      hide StepResize;
      if pc.Acquire? || pc.FoundVal? { BucketWrites(m, pc.v, pc.key); }
    }
  }

  lemma CopyControl(m: Mem, pc: Pc)
    requires pc.RsCopy?
    ensures forall choice :: var v := StepResize(m, pc, choice);
      SameControl(m, v.m) && Copying(v.pc) && v.pc.o == pc.o && v.pc.w == pc.w
  {
    hide PutSeq;
    if pc.o < |m.versions| && pc.b < |m.versions[pc.o].bins| && pc.i < |m.versions[pc.o].bins[pc.b].slots| {
      PutSeqWrites(m, pc.w, m.versions[pc.o].bins[pc.b].slots[pc.i]);
    }
  }

  lemma LockControl(m: Mem, pc: Pc)
    requires pc.RsLock?
    ensures forall choice :: var v := StepResize(m, pc, choice);
      SameControl(m, v.m) && Copying(v.pc) && v.pc.o == pc.o && v.pc.w == pc.w
  {
    hide PutSeq;
  }

  lemma FlagKept(s: State, e: Event)
    requires FlagOwned(s)
    ensures FlagOwned(Step(s, e))
  {
    if e.t < |s.th| {
      hide StepThread;
      var s' := Step(s, e);
      ControlStep(s.m, s.th[e.t], e.choice);
      if s'.m.resizing {
        if s.m.resizing {
          var u :| 0 <= u < |s.th| && Resizing(s.th[u]);
          assert Resizing(s'.th[u]);
        } else {
          assert Resizing(s'.th[e.t]);
        }
      }
    }
  }

  // ----- the publication of a new table

  /** Every table but the current one has its successor published, or is about to. */
  predicate Published(s: State) {
    && (forall v :: 0 <= v < s.m.cur && v < |s.m.versions| ==> s.m.versions[v].replaced || Publishing(s, v))
    && (forall v :: s.m.cur <= v < |s.m.versions| ==> !s.m.versions[v].replaced)
  }

  predicate Publishing(s: State, v: nat) {
    exists t :: 0 <= t < |s.th| && s.th[t].RsPublish? && s.th[t].o == v
  }

  lemma ReplacedStays(m: Mem, pc: Pc, choice: Choice)
    ensures var v := StepThread(m, pc, choice);
      && |m.versions| <= |v.m.versions|
      && (forall w :: 0 <= w < |m.versions| && m.versions[w].replaced ==> v.m.versions[w].replaced)
      && (forall w :: 0 <= w < |v.m.versions| && v.m.versions[w].replaced ==>
            (w < |m.versions| && m.versions[w].replaced) || (pc.RsPublish? && pc.o == w))
      && (v.m.cur != m.cur ==> pc.RsSwap? && v.m.cur == pc.w && v.pc.RsPublish? && v.pc.o == pc.o)
      && (pc.RsPublish? && pc.o < |m.versions| ==> v.m.versions[pc.o].replaced)
  {
    hide StepThread;
    ControlStep(m, pc, choice);
  }

  lemma PublishedKept(s: State, e: Event)
    requires Inv(s) && Published(s)
    ensures Published(Step(s, e))
  {
    if e.t < |s.th| {
      var s' := Step(s, e);
      var p := s.th[e.t];
      assert ThreadOk(s.m, p);
      assert (p.RsSwap? ==> CopyingOk(s.m, p)) && (p.RsPublish? ==> ResizingOk(s.m, p));
      hide StepThread, MemOk, ThreadOk;
      ReplacedStays(s.m, p, e.choice);
      assert s.m.cur < |s.m.versions| by { assert MemOk(s.m); }
      forall v | 0 <= v < s'.m.cur && v < |s'.m.versions|
        ensures s'.m.versions[v].replaced || Publishing(s', v)
      {
        if v < s.m.cur && Publishing(s, v) {
          var u :| 0 <= u < |s.th| && s.th[u].RsPublish? && s.th[u].o == v;
          assert u != e.t ==> s'.th[u] == s.th[u];
        } else if v >= s.m.cur {
          assert s'.th[e.t].RsPublish? && s'.th[e.t].o == v;
        }
      }
    }
  }

  lemma {:induction false} Reachable(n: nat, numBuckets: nat, sched: seq<Event>)
    requires numBuckets >= 1
    ensures var s := Run(Init(n, numBuckets), sched); Inv(s) && FlagOwned(s) && Published(s) && |s.th| == n
  {
    hide Inv, Step, FlagOwned, Published;
    ConcurrentTableSafety.Reachable(n, numBuckets, sched);
    if sched == [] {
      assert FlagOwned(Init(n, numBuckets)) && Published(Init(n, numBuckets)) by { InitOk(n, numBuckets); }
    } else {
      var s, e := Run(Init(n, numBuckets), sched[..|sched| - 1]), sched[|sched| - 1];
      Reachable(n, numBuckets, sched[..|sched| - 1]);
      FlagKept(s, e);
      PublishedKept(s, e);
      SameThreads(s, e);
    }
  }

  lemma InitOk(n: nat, numBuckets: nat)
    ensures FlagOwned(Init(n, numBuckets)) && Published(Init(n, numBuckets))
  {
  }

  lemma SameThreads(s: State, e: Event)
    ensures |Step(s, e).th| == |s.th|
  {
    hide StepThread;
  }

  /** resize_lock is taken exactly while some thread is between winning and releasing it. */
  lemma ResizeLockOwned(n: nat, numBuckets: nat, sched: seq<Event>)
    requires numBuckets >= 1
    ensures var s := Run(Init(n, numBuckets), sched);
      s.m.resizing <==> exists t :: 0 <= t < |s.th| && Resizing(s.th[t])
  {
    hide Run, MemOk, ReadOk, Compatible, Published;
    Reachable(n, numBuckets, sched);
    var s := Run(Init(n, numBuckets), sched);
    if t :| 0 <= t < |s.th| && Resizing(s.th[t]) { assert ThreadOk(s.m, s.th[t]); }
  }

  lemma NobodyPublishes(s: State, v: nat)
    requires Inv(s) && !s.m.resizing
    ensures !Publishing(s, v)
  {
    assert forall u :: 0 <= u < |s.th| ==> ThreadOk(s.m, s.th[u]);
    hide MemOk, Compatible, ReadOk;
  }

  /** A put that found its bucket closed and waits for table_new of table `u` goes on with the
      current table, two steps later at the latest, exactly when `u` has been replaced and
      published; on the current table itself it waits, and so it may for ever. */
  lemma WaiterGoesOn(n: nat, numBuckets: nat, sched: seq<Event>, t: nat, choice: Choice)
    requires numBuckets >= 1
    requires var s := Run(Init(n, numBuckets), sched); t < |s.th| && s.th[t].Wait? && !s.m.resizing
    ensures var s := Run(Init(n, numBuckets), sched);
      var s1 := Step(s, Move(t, choice));
      && s.th[t].u <= s.m.cur
      && if s.th[t].u < s.m.cur
         then Step(s1, Move(t, choice)) == s.(th := s.th[t := Acquire(s.th[t].key, s.m.cur, s.m.cur)])
         else s1 == s
  {
    hide Run, Compatible;
    Reachable(n, numBuckets, sched);
    var s := Run(Init(n, numBuckets), sched);
    assert ThreadOk(s.m, s.th[t]) && ReadOk(s.m, s.th[t]);
    hide StepHolder, StepResize, ThreadOk;
    if s.th[t].u < s.m.cur {
      assert s.m.versions[s.th[t].u].replaced || Publishing(s, s.th[t].u);
      NobodyPublishes(s, s.th[t].u);
    }
    var s1 := Step(s, Move(t, choice));
    assert s.th[t := s.th[t]] == s.th;
    assert s1.th[t := Acquire(s.th[t].key, s.m.cur, s.m.cur)] == s.th[t := Acquire(s.th[t].key, s.m.cur, s.m.cur)];
  }

  // ----- a resize that is due

  /** The current table has expanded as often as its threshold says, or more often. */
  predicate Due(m: Mem) {
    Expands(m, m.cur) >= Threshold(m, m.cur)
  }

  /** A step of a thread that has no resize to do: it gets one to do exactly if it is the one
      that counts the current table up to its threshold. */
  lemma FreshTrigger(m: Mem, pc: Pc, choice: Choice)
    requires MemOk(m) && ThreadOk(m, pc) && !Triggered(pc)
    ensures var v := StepThread(m, pc, choice);
      && v.m.cur == m.cur
      && (Triggered(v.pc) <==> pc.Count? && Expands(m, m.cur) + 1 == Threshold(m, m.cur))
      && (Due(v.m) <==> Due(m) || Triggered(v.pc))
  {
    assert m.cur < |m.versions|;
    hide MemOk, ReadOk, PendingOk, ResizingOk, TriggeredOk;
    if Holds(pc) {
      HolderTrigger(m, pc, choice);
      hide StepThread, HoldsOk;
    } else if InResize(pc) {
      hide StepHolder, StepFree;
    } else {
      FreeTrigger(m, pc, choice);
      hide StepThread;
    }
  }

  lemma HolderTrigger(m: Mem, pc: Pc, choice: Choice)
    requires Holds(pc) && HoldsOk(m, pc) && !Triggered(pc) && m.cur < |m.versions|
    ensures var v := StepThread(m, pc, choice);
      && v.m.cur == m.cur
      && (Triggered(v.pc) <==> pc.Count? && Expands(m, m.cur) + 1 == Threshold(m, m.cur))
      && (Due(v.m) <==> Due(m) || Triggered(v.pc))
  {
    HolderControl(m, pc);
    hide Locked, Filled, BinOf;
  }

  lemma FreeTrigger(m: Mem, pc: Pc, choice: Choice)
    requires !Holds(pc) && !InResize(pc) && m.cur < |m.versions|
    ensures var v := StepThread(m, pc, choice); v.m.cur == m.cur && !Triggered(v.pc) && (Due(v.m) <==> Due(m))
  {
    hide Locked, Filled, BinOf, StepHolder, StepResize;
    if pc.Acquire? || pc.FoundVal? { BucketWrites(m, pc.v, pc.key); }
  }

  /** A thread with a resize to do keeps it, unless it meets a resizer at resize_lock, until the
      next table is the current one and no resize of that is due. */
  lemma KeepsTrigger(m: Mem, pc: Pc, choice: Choice)
    requires MemOk(m) && ThreadOk(m, pc) && Triggered(pc)
    ensures var v := StepThread(m, pc, choice);
      || Triggered(v.pc)
      || (pc.RsTry? && m.resizing && pc.o == m.cur == v.m.cur)
      || (pc.RsSwap? && v.m.cur == m.cur + 1 && !Due(v.m))
  {
    hide MemOk, ReadOk, PendingOk, HoldsOk, Locked, Filled, BinOf, PutSeq, WithBin, StepFree;
    assert TriggeredOk(m, pc);
    if pc.RsSwap? { assert CopyingOk(m, pc) by { assert ResizingOk(m, pc); } }
    hide ResizingOk, CopyingOk;
  }

  /** The tables of a run whose trigger was lost: the thread that had it found resize_lock taken. */
  function Lost(s: State, sched: seq<Event>): set<nat> {
    if sched == [] then {}
    else
      var before, e := Run(s, sched[..|sched| - 1]), sched[|sched| - 1];
      Lost(s, sched[..|sched| - 1]) +
      if e.t < |before.th| && before.th[e.t].RsTry? && before.m.resizing then {before.th[e.t].o} else {}
  }

  predicate SomeTriggered(s: State) {
    exists t :: 0 <= t < |s.th| && Triggered(s.th[t])
  }

  predicate Handled(s: State, lost: set<nat>) {
    Due(s.m) ==> SomeTriggered(s) || s.m.cur in lost
  }

  lemma HandledStep(s: State, e: Event, lost: set<nat>)
    requires Inv(s) && e.t < |s.th| && Handled(s, lost)
    ensures var p := s.th[e.t];
      Handled(Step(s, e), lost + if p.RsTry? && s.m.resizing then {p.o} else {})
  {
    var p, s' := s.th[e.t], Step(s, e);
    assert ThreadOk(s.m, p);
    if Triggered(p) {
      KeepsTrigger(s.m, p, e.choice);
      hide StepThread, MemOk, ThreadOk;
      if Triggered(s'.th[e.t]) { assert SomeTriggered(s'); }
    } else {
      FreshTrigger(s.m, p, e.choice);
      hide StepThread, MemOk, ThreadOk;
      if Triggered(s'.th[e.t]) {
        assert SomeTriggered(s');
      } else if SomeTriggered(s) {
        var u :| 0 <= u < |s.th| && Triggered(s.th[u]);
        assert Triggered(s'.th[u]);
      }
    }
  }

  lemma InitHandled(n: nat, numBuckets: nat)
    requires numBuckets >= 1
    ensures Handled(Init(n, numBuckets), {})
  {
  }

  lemma NoStep(s: State, e: Event)
    requires e.t >= |s.th|
    ensures Step(s, e) == s
  {
  }

  /** Whenever a resize of the current table is due, some thread has it to do, or is doing it,
      unless that table's trigger was lost. */
  lemma {:induction false} DueIsHandled(n: nat, numBuckets: nat, sched: seq<Event>)
    requires numBuckets >= 1
    ensures Handled(Run(Init(n, numBuckets), sched), Lost(Init(n, numBuckets), sched))
  {
    hide Handled, Inv, Step;
    if sched == [] {
      InitHandled(n, numBuckets);
    } else {
      var before, e := Run(Init(n, numBuckets), sched[..|sched| - 1]), sched[|sched| - 1];
      DueIsHandled(n, numBuckets, sched[..|sched| - 1]);
      ConcurrentTableSafety.Reachable(n, numBuckets, sched[..|sched| - 1]);
      if e.t < |before.th| {
        HandledStep(before, e, Lost(Init(n, numBuckets), sched[..|sched| - 1]));
      } else {
        NoStep(before, e);
        var lost := Lost(Init(n, numBuckets), sched[..|sched| - 1]);
        assert lost + {} == lost;
      }
    }
  }

  /** The put whose count reaches the threshold of the current table, and no other, has the
      resize to do. */
  lemma CountTriggers(n: nat, numBuckets: nat, sched: seq<Event>, t: nat, choice: Choice)
    requires numBuckets >= 1
    requires var s := Run(Init(n, numBuckets), sched); t < |s.th| && s.th[t].Count?
    ensures var s := Run(Init(n, numBuckets), sched);
      var s' := Step(s, Move(t, choice));
      && |s'.th| == |s.th|
      && (Triggered(s'.th[t]) <==> Expands(s'.m, s.m.cur) == Threshold(s'.m, s.m.cur))
      && Expands(s'.m, s.m.cur) == Expands(s.m, s.m.cur) + 1 && Threshold(s'.m, s.m.cur) == Threshold(s.m, s.m.cur)
  {
    hide Run, ReadOk, Compatible, PendingOk;
    ConcurrentTableSafety.Reachable(n, numBuckets, sched);
    var s := Run(Init(n, numBuckets), sched);
    assert ThreadOk(s.m, s.th[t]);
    FreshTrigger(s.m, s.th[t], choice);
    assert HoldsOk(s.m, s.th[t]);
    assert s.m.cur < |s.m.versions| by { assert MemOk(s.m); }
    hide MemOk, BinOf, ThreadOk;
  }

  /** A trigger is lost exactly when its thread finds resize_lock taken, and then by a resizer
      that has made the current table the current one, has nothing further to do, and has yet
      to release the lock. */
  lemma LostExactly(n: nat, numBuckets: nat, sched: seq<Event>, t: nat, choice: Choice)
    requires numBuckets >= 1
    requires var s := Run(Init(n, numBuckets), sched); t < |s.th| && s.th[t].RsTry?
    ensures var s := Run(Init(n, numBuckets), sched);
      var s' := Step(s, Move(t, choice));
      && |s'.th| == |s.th| && s.th[t].o == s.m.cur
      && (Triggered(s'.th[t]) <==> !s.m.resizing)
      && (s.m.resizing <==>
           exists u :: 0 <= u < |s.th| && (s.th[u].RsPublish? || s.th[u].RsRelease?) && !s.th[u].again)
  {
    hide Run, ReadOk, Published;
    Reachable(n, numBuckets, sched);
    var s := Run(Init(n, numBuckets), sched);
    assert ThreadOk(s.m, s.th[t]) && TriggeredOk(s.m, s.th[t]);
    hide StepHolder, StepFree, MemOk;
    if s.m.resizing {
      var u :| 0 <= u < |s.th| && Resizing(s.th[u]);
      assert u != t;
      assert Compatible(s.m, s.th[t], s.th[u]);
    } else {
      assert forall u :: 0 <= u < |s.th| ==> ThreadOk(s.m, s.th[u]);
    }
  }

  /** Once lost, for good: no later step of any thread resizes the current table. */
  lemma {:induction false} LostForever(s: State, more: seq<Event>)
    requires Inv(s) && Due(s.m) && !SomeTriggered(s)
    ensures var s' := Run(s, more);
      && Inv(s') && Due(s'.m) && !SomeTriggered(s')
      && s'.m.cur == s.m.cur && |s'.m.versions| == |s.m.versions|
  {
    hide Inv, Due, Step, SomeTriggered;
    if more != [] {
      var before, e := Run(s, more[..|more| - 1]), more[|more| - 1];
      LostForever(s, more[..|more| - 1]);
      StepKeepsInv(before, e);
      if e.t < |before.th| { StaysLost(before, e); } else { NoStep(before, e); }
    }
  }

  lemma StaysLost(s: State, e: Event)
    requires Inv(s) && Due(s.m) && !SomeTriggered(s) && e.t < |s.th|
    ensures var s' := Step(s, e);
      Due(s'.m) && !SomeTriggered(s') && s'.m.cur == s.m.cur && |s'.m.versions| == |s.m.versions|
  {
    var p := s.th[e.t];
    assert ThreadOk(s.m, p) && !Triggered(p);
    hide StepThread, ThreadOk, MemOk;
    FreshTrigger(s.m, p, e.choice);
    CountsVersions(s.m, p, e.choice);
  }

  // ----- a resize that runs alone

  /** `k` steps of thread `t` alone. */
  function Solo(s: State, t: nat, choice: Choice, k: nat): State
    decreases k
  {
    if k == 0 then s else Solo(Step(s, Move(t, choice)), t, choice, k - 1)
  }

  lemma SoloNone(s: State, t: nat, choice: Choice)
    ensures Solo(s, t, choice, 0) == s
  {
  }

  lemma SoloMore(s: State, t: nat, choice: Choice, k: nat)
    requires k > 0
    ensures Solo(s, t, choice, k) == Solo(Step(s, Move(t, choice)), t, choice, k - 1)
  {
  }

  /** No put holds a bucket of the current table. */
  predicate NoUpdate(m: Mem) {
    m.cur < |m.versions| &&
    forall b :: 0 <= b < |m.versions[m.cur].bins| ==> m.versions[m.cur].bins[b].lock != Update
  }

  /** An upper bound on the steps for the buckets from `b` on. */
  function Work(bins: seq<Bin>, b: nat): nat
    decreases |bins| - b
  {
    if b < |bins| then |bins[b].slots| + 3 + Work(bins, b + 1) else 0
  }

  lemma {:induction false} SameWork(bins: seq<Bin>, bins': seq<Bin>, b: nat)
    requires |bins'| == |bins|
    requires forall c :: 0 <= c < |bins| ==> |bins'[c].slots| == |bins[c].slots|
    ensures Work(bins', b) == Work(bins, b)
    decreases |bins| - b
  {
    if b < |bins| { SameWork(bins, bins', b + 1); }
  }

  function ResizeRank(m: Mem, pc: Pc): nat {
    var bins := if (pc.RsLock? || pc.RsCopy?) && pc.o < |m.versions| then m.versions[pc.o].bins
                else if m.cur < |m.versions| then m.versions[m.cur].bins else [];
    match pc
    case RsCreate(_, _, _) => 6 + Work(bins, 0)
    case RsLock(_, _, _, _, b) => 5 + Work(bins, b)
    case RsCopy(_, _, _, _, b, i) =>
      5 + Work(bins, b + 1) + if b < |bins| && i <= |bins[b].slots| then |bins[b].slots| + 2 - i else 0
    case RsCheck(_, _, _, _) => 4
    case RsSwap(_, _, _, _, _) => 3
    case RsPublish(_, _, _, _, _) => 2
    case _ => 1
  }

  /** The table that will be current when the resize is over. */
  function Target(m: Mem, pc: Pc): nat {
    if pc.RsPublish? || pc.RsRelease? then m.cur else m.cur + 1
  }

  /** The number of buckets that table has or will have. */
  function TargetSize(m: Mem, pc: Pc, choice: Choice): nat {
    if pc.RsCreate? then Buckets(choice)
    else
      var w := if Copying(pc) then pc.w else m.cur;
      if w < |m.versions| then |m.versions[w].bins| else 0
  }

  ghost predicate ResizeMove(m: Mem, pc: Pc, v: View) {
    && NoUpdate(v.m)
    && if pc.RsRelease? then !v.m.resizing && v.m.cur == Target(m, pc) && !v.pc.RsCreate? && !Copying(v.pc)
       else Resizing(v.pc) && Target(v.m, v.pc) == Target(m, pc) && ResizeRank(v.m, v.pc) < ResizeRank(m, pc)
  }

  lemma LockMove(m: Mem, pc: Pc, choice: Choice)
    requires MemOk(m) && pc.RsLock? && CopyingOk(m, pc) && NoUpdate(m)
    ensures ResizeMove(m, pc, StepThread(m, pc, choice))
  {
    hide MemOk, StepHolder, StepFree, Closed, CopiedUpTo;
    var v := StepThread(m, pc, choice);
    if pc.b < |m.versions[pc.o].bins| {
      var bins, bins' := m.versions[pc.o].bins, v.m.versions[pc.o].bins;
      assert |bins'| == |bins| && forall c :: 0 <= c < |bins| ==> bins'[c].slots == bins[c].slots;
      SameWork(bins, bins', pc.b + 1);
    }
  }

  lemma CopyMove(m: Mem, pc: Pc, choice: Choice)
    requires MemOk(m) && pc.RsCopy? && CopyingOk(m, pc) && NoUpdate(m)
    ensures ResizeMove(m, pc, StepThread(m, pc, choice))
  {
    hide MemOk, StepHolder, StepFree, Closed, CopiedUpTo, PutSeq;
    var bins := m.versions[pc.o].bins;
    assert Value(m.versions[pc.o])[pc.b] == bins[pc.b].slots;
    if pc.i < |bins[pc.b].slots| {
      PutSeqElsewhere(m, pc.w, bins[pc.b].slots[pc.i]);
    }
  }

  lemma PutSeqElsewhere(m: Mem, w: nat, s: Slot)
    requires w != m.cur < |m.versions|
    ensures var m' := PutSeq(m, w, s);
      m'.cur == m.cur && |m'.versions| == |m.versions| && m'.versions[m.cur] == m.versions[m.cur]
  {
    hide Hash;
  }

  lemma OtherMove(m: Mem, pc: Pc, choice: Choice)
    requires MemOk(m) && Resizing(pc) && ResizingOk(m, pc) && !pc.RsLock? && !pc.RsCopy? && NoUpdate(m)
    requires pc.RsCreate? ==> pc.o == m.cur
    ensures ResizeMove(m, pc, StepThread(m, pc, choice))
  {
    hide MemOk, StepHolder, StepFree, Closed, CopiedUpTo, PutSeq, WithBin, Work;
  }

  lemma SizeMove(m: Mem, pc: Pc, choice: Choice)
    requires Resizing(pc) && m.cur < |m.versions| && (Copying(pc) ==> pc.w < |m.versions|)
    ensures var v := StepThread(m, pc, choice); TargetSize(v.m, v.pc, choice) == TargetSize(m, pc, choice)
  {
    hide StepThread;
    ControlStep(m, pc, choice);
  }

  lemma ResizeStep(s: State, t: nat, choice: Choice)
    requires Inv(s) && t < |s.th| && Resizing(s.th[t]) && NoUpdate(s.m)
    ensures var s1 := Step(s, Move(t, choice));
      && Inv(s1) && |s1.th| == |s.th| && ResizeMove(s.m, s.th[t], View(s1.m, s1.th[t]))
      && TargetSize(s1.m, s1.th[t], choice) == TargetSize(s.m, s.th[t], choice)
  {
    StepKeepsInv(s, Move(t, choice));
    assert ThreadOk(s.m, s.th[t]);
    assert ResizingOk(s.m, s.th[t]) && (Triggered(s.th[t]) ==> TriggeredOk(s.m, s.th[t]));
    assert Copying(s.th[t]) ==> CopyingOk(s.m, s.th[t]);
    assert MemOk(s.m);
    hide StepThread, MemOk, ThreadOk, ReadOk, Compatible, CopyingOk, ResizeMove, Inv, TargetSize;
    SizeMove(s.m, s.th[t], choice);
    if s.th[t].RsLock? {
      LockMove(s.m, s.th[t], choice);
    } else if s.th[t].RsCopy? {
      CopyMove(s.m, s.th[t], choice);
    } else {
      OtherMove(s.m, s.th[t], choice);
    }
  }

  lemma {:induction false} ResizeRuns(s: State, t: nat, choice: Choice) returns (k: nat)
    requires Inv(s) && t < |s.th| && Resizing(s.th[t]) && NoUpdate(s.m)
    ensures k <= ResizeRank(s.m, s.th[t])
    ensures var s' := Solo(s, t, choice, k);
      && Inv(s') && !s'.m.resizing && s'.m.cur == Target(s.m, s.th[t]) && NoUpdate(s'.m)
      && s'.m.cur < |s'.m.versions| && |s'.m.versions[s'.m.cur].bins| == TargetSize(s.m, s.th[t], choice)
    decreases ResizeRank(s.m, s.th[t])
  {
    hide Inv, Step, Solo, Target;
    var s1 := Step(s, Move(t, choice));
    ResizeStep(s, t, choice);
    if s.th[t].RsRelease? {
      k := 1;
      SoloNone(s1, t, choice);
      assert ResizeRank(s.m, s.th[t]) == 1;
    } else {
      hide ResizeRank;
      var j := ResizeRuns(s1, t, choice);
      k := j + 1;
    }
    SoloMore(s, t, choice, k);
  }

  /** A thread that has a resize to do and finds resize_lock and the buckets free completes it by
      itself: the next table becomes the current one and resize_lock is free again. */
  lemma ResizeAlone(n: nat, numBuckets: nat, sched: seq<Event>, t: nat, choice: Choice) returns (k: nat)
    requires numBuckets >= 1
    requires var s := Run(Init(n, numBuckets), sched);
      t < |s.th| && (s.th[t].RsRead? || s.th[t].RsTry?) && !s.m.resizing && NoUpdate(s.m)
    ensures var s := Run(Init(n, numBuckets), sched);
      var s' := Solo(s, t, choice, k);
      && s'.m.cur == s.m.cur + 1 && |s'.m.versions| == s'.m.cur + 1 && !s'.m.resizing && NoUpdate(s'.m)
      && |s'.m.versions[s'.m.cur].bins| == Buckets(choice)
  {
    ConcurrentTableSafety.Reachable(n, numBuckets, sched);
    var s := Run(Init(n, numBuckets), sched);
    k := DueRuns(s, t, choice);
  }

  lemma DueRuns(s: State, t: nat, choice: Choice) returns (k: nat)
    requires Inv(s) && t < |s.th| && (s.th[t].RsRead? || s.th[t].RsTry?) && !s.m.resizing && NoUpdate(s.m)
    ensures var s' := Solo(s, t, choice, k);
      && Inv(s') && s'.m.cur == s.m.cur + 1 && |s'.m.versions| == s'.m.cur + 1 && !s'.m.resizing && NoUpdate(s'.m)
      && |s'.m.versions[s'.m.cur].bins| == Buckets(choice)
    decreases if s.th[t].RsRead? then 1 else 0
  {
    hide StepHolder, StepFree, MemOk, ThreadOk, Compatible, Solo;
    var s1 := Step(s, Move(t, choice));
    StepKeepsInv(s, Move(t, choice));
    var j;
    if s.th[t].RsRead? {
      j := DueRuns(s1, t, choice);
    } else {
      j := ResizeRuns(s1, t, choice);
      OneTable(Solo(s1, t, choice, j));
    }
    k := j + 1;
    SoloMore(s, t, choice, k);
  }

  lemma OneTable(s: State)
    requires Inv(s) && !s.m.resizing
    ensures |s.m.versions| == s.m.cur + 1
  {
  }

  // ----- puts and gets that run alone

  /** The entries in the chain of this key, in the current table. */
  function ChainOf(m: Mem, key: nat): Slots {
    BinOf(m, m.cur, key).slots
  }

  predicate InScan(pc: Pc) {
    pc.PutRead? || pc.PutScan? || pc.PutVal? || pc.ImplRead? || pc.Acquire?
  }

  /** In a put that works on the current table: before it has the bucket, which is free, with it,
      or after it. */
  predicate OnWay(m: Mem, pc: Pc) {
    || (InScan(pc) && BinOf(m, m.cur, pc.key).lock == Free
        && (pc.PutScan? || pc.PutVal? || pc.ImplRead? || pc.Acquire? ==> pc.v == m.cur)
        && (pc.Acquire? ==> pc.u == m.cur))
    || Holds(pc)
    || (pc.FoundVal? && BinOf(m, m.cur, pc.key).lock == Free)
  }

  /** The put is over, or goes on to the resize that it has to do; its bucket is free. */
  predicate PutOver(m: Mem, pc: Pc, key: nat) {
    (pc.PutDone? || pc.RsRead?) && pc.key == key && BinOf(m, m.cur, key).lock == Free
  }

  function PutRank(m: Mem, pc: Pc): nat {
    match pc
    case PutRead(key) => 2 * |ChainOf(m, key)| + 12
    case PutScan(key, _, i) => 2 * |ChainOf(m, key)| + 11 - Least(i, |ChainOf(m, key)|)
    case PutVal(key, _, _) => |ChainOf(m, key)| + 10
    case ImplRead(key, _) => |ChainOf(m, key)| + 9
    case Acquire(key, _, _) => |ChainOf(m, key)| + 8
    case Scan(key, _, _, i, _) => |ChainOf(m, key)| + 5 - Least(i, |ChainOf(m, key)|)
    case StoreVal(_, _, _, _, _) => 4
    case Count(_, _, _, _) => 4
    case StoreKey(_, _, _, _, _) => 3
    case Link(_, _, _, _, _) => 3
    case Release(_, _, _, _, _) => 2
    case FoundRelease(_, _, _) => 2
    case _ => 1
  }

  function Least(a: nat, b: nat): (r: nat)
    ensures r <= a && r <= b && (r == a || r == b)
  {
    if a <= b then a else b
  }

  predicate PutMove(m: Mem, pc: Pc, v: View)
    requires InScan(pc) || Holds(pc) || pc.FoundVal?
  {
    || PutOver(v.m, v.pc, pc.key)
    || ((InScan(v.pc) || Holds(v.pc) || v.pc.FoundVal?) && v.pc.key == pc.key && OnWay(v.m, v.pc)
        && PutRank(v.m, v.pc) < PutRank(m, pc))
  }

  /** The bucket of the key after a write to it. */
  lemma OwnBucket(m: Mem, key: nat)
    requires HasVersion(m, m.cur)
    ensures forall lock {:trigger Locked(m, m.cur, key, lock)} :: var m' := Locked(m, m.cur, key, lock);
      m'.cur == m.cur && BinOf(m', m.cur, key) == BinOf(m, m.cur, key).(lock := lock)
    ensures forall slots {:trigger Filled(m, m.cur, key, slots)} :: var m' := Filled(m, m.cur, key, slots);
      m'.cur == m.cur && BinOf(m', m.cur, key) == BinOf(m, m.cur, key).(slots := slots)
  {
    hide Hash;
  }

  lemma HolderMove(m: Mem, pc: Pc, choice: Choice)
    requires HasVersion(m, m.cur) && Holds(pc) && HoldsOk(m, pc)
    ensures PutMove(m, pc, StepThread(m, pc, choice))
  {
    hide Locked, Filled, BinOf, Hash, StepFree, StepResize;
    OwnBucket(m, pc.key);
    if pc.Count? { CountedBucket(m, pc.key); }
  }

  lemma CountedBucket(m: Mem, key: nat)
    requires HasVersion(m, m.cur)
    ensures var m' := Counted(m, m.cur); m'.cur == m.cur && BinOf(m', m.cur, key) == BinOf(m, m.cur, key)
  {
    hide Hash;
  }

  lemma ScanMove(m: Mem, pc: Pc, choice: Choice)
    requires HasVersion(m, m.cur) && OnWay(m, pc) && !Holds(pc)
    ensures PutMove(m, pc, StepThread(m, pc, choice))
  {
    hide Locked, Filled, BinOf, Hash, StepHolder, StepResize;
    if pc.Acquire? { OwnBucket(m, pc.key); }
  }

  lemma PutStep(s: State, t: nat, choice: Choice)
    requires Inv(s) && t < |s.th| && OnWay(s.m, s.th[t])
    ensures var s1 := Step(s, Move(t, choice));
      Inv(s1) && |s1.th| == |s.th| && PutMove(s.m, s.th[t], View(s1.m, s1.th[t]))
  {
    StepKeepsInv(s, Move(t, choice));
    assert ThreadOk(s.m, s.th[t]);
    assert Holds(s.th[t]) ==> HoldsOk(s.m, s.th[t]);
    assert HasVersion(s.m, s.m.cur) by { assert MemOk(s.m); }
    hide StepThread, MemOk, ThreadOk, HoldsOk, PutMove, Inv, BinOf;
    if Holds(s.th[t]) { HolderMove(s.m, s.th[t], choice); } else { ScanMove(s.m, s.th[t], choice); }
  }

  /** At most this key has been added. */
  predicate AddsAtMost(map_: map<nat, nat>, map': map<nat, nat>, key: nat) {
    map' == map_ || (key !in map_ && key in map' && map' == map_[key := map'[key]])
  }

  lemma PutStepMap(s: State, t: nat, choice: Choice)
    requires Inv(s) && t < |s.th| && OnWay(s.m, s.th[t])
    ensures AddsAtMost(Map(s.m), Map(Step(s, Move(t, choice)).m), s.th[t].key)
  {
    hide Inv, Map, StepThread, BinOf;
    RefinesMap(s, Move(t, choice));
  }

  lemma {:induction false} PutRuns(s: State, t: nat, choice: Choice) returns (k: nat)
    requires Inv(s) && t < |s.th| && OnWay(s.m, s.th[t])
    ensures k <= PutRank(s.m, s.th[t])
    ensures var s' := Solo(s, t, choice, k);
      && Inv(s') && |s'.th| == |s.th| && PutOver(s'.m, s'.th[t], s.th[t].key)
      && AddsAtMost(Map(s.m), Map(s'.m), s.th[t].key)
    decreases PutRank(s.m, s.th[t])
  {
    hide Inv, Step, Solo, PutRank, PutOver, Map;
    var s1 := Step(s, Move(t, choice));
    PutStep(s, t, choice);
    PutStepMap(s, t, choice);
    if PutOver(s1.m, s1.th[t], s.th[t].key) {
      k := 1;
      SoloNone(s1, t, choice);
      assert PutRank(s.m, s.th[t]) >= 1 by { Positive(s.m, s.th[t]); }
    } else {
      var j := PutRuns(s1, t, choice);
      k := j + 1;
    }
    SoloMore(s, t, choice, k);
  }

  lemma Positive(m: Mem, pc: Pc)
    ensures PutRank(m, pc) >= 1
  {
  }

  /** A put whose bucket in the current table is free, and one that has its bucket, comes to its
      end by itself, or to the resize it has to do: the map gains at most its key, the result is
      the key's lock, and the bucket is free. */
  lemma PutAlone(n: nat, numBuckets: nat, sched: seq<Event>, t: nat, choice: Choice) returns (k: nat)
    requires numBuckets >= 1
    requires var s := Run(Init(n, numBuckets), sched); t < |s.th| && OnWay(s.m, s.th[t])
    ensures var s := Run(Init(n, numBuckets), sched);
      var s', key := Solo(s, t, choice, k), s.th[t].key;
      && k <= PutRank(s.m, s.th[t]) && |s'.th| == |s.th| && PutOver(s'.m, s'.th[t], key)
      && Map(s'.m) == (if key in Map(s.m) then Map(s.m) else Map(s.m)[key := s'.th[t].lock])
      && key in Map(s'.m) && Map(s'.m)[key] == s'.th[t].lock
  {
    hide Run, Solo, PutRank, Map, BinOf, Compatible;
    ConcurrentTableSafety.Reachable(n, numBuckets, sched);
    var s := Run(Init(n, numBuckets), sched);
    k := PutRuns(s, t, choice);
    var s' := Solo(s, t, choice, k);
    assert ThreadOk(s'.m, s'.th[t]);
    AgreedMap(s'.m, s.th[t].key, s'.th[t].lock);
    hide Inv, ThreadOk, Agreed;
  }

  function GetRank(m: Mem, pc: Pc): nat {
    match pc
    case GetRead(key) => |ChainOf(m, key)| + 3
    case GetScan(key, v, i, _) =>
      var c := BinOf(m, v, key).slots;
      |c| - Least(i, |c|) + 2
    case _ => 1
  }

  predicate Gets(pc: Pc) {
    pc.GetRead? || pc.GetScan? || pc.GetVal?
  }

  lemma GetStep(m: Mem, pc: Pc, choice: Choice)
    requires Gets(pc)
    ensures var v := StepThread(m, pc, choice);
      && v.m == m && (Gets(v.pc) || v.pc.GetDone?) && !v.pc.GetRead? && v.pc.key == pc.key
      && (if pc.GetRead? then v.pc.known == (pc.key in Map(m)) else v.pc.known == pc.known)
      && (Gets(v.pc) ==> GetRank(m, v.pc) < GetRank(m, pc))
  {
    hide BinOf, Map, StepHolder, StepResize;
  }

  lemma {:induction false} GetRuns(s: State, t: nat, choice: Choice) returns (k: nat, sched: seq<Event>)
    requires t < |s.th| && Gets(s.th[t])
    ensures k <= GetRank(s.m, s.th[t]) && Solo(s, t, choice, k) == Run(s, sched)
    ensures var s' := Solo(s, t, choice, k);
      && s'.m == s.m && |s'.th| == |s.th| && s'.th[t].GetDone? && s'.th[t].key == s.th[t].key
      && s'.th[t].known == if s.th[t].GetRead? then s.th[t].key in Map(s.m) else s.th[t].known
    decreases GetRank(s.m, s.th[t])
  {
    hide StepThread, Solo, GetRank, Map;
    var e := Move(t, choice);
    var s1 := Step(s, e);
    GetStep(s.m, s.th[t], choice);
    if s1.th[t].GetDone? {
      k, sched := 1, [e];
      SoloNone(s1, t, choice);
      RunFirst(s, e, []);
      assert [e] + [] == [e];
      assert GetRank(s.m, s.th[t]) >= 1 by { PositiveGet(s.m, s.th[t]); }
    } else {
      var j, rest := GetRuns(s1, t, choice);
      k, sched := j + 1, [e] + rest;
      RunFirst(s, e, rest);
    }
    SoloMore(s, t, choice, k);
  }

  lemma PositiveGet(m: Mem, pc: Pc)
    ensures GetRank(m, pc) >= 1
  {
  }

  lemma {:induction false} RunFirst(s: State, e: Event, rest: seq<Event>)
    ensures Run(s, [e] + rest) == Run(Step(s, e), rest)
  {
    hide Step;
    if rest == [] {
      assert [e] + rest == [e] && [e][..0] == [];
      assert Run(s, []) == s;
    } else {
      RunFirst(s, e, rest[..|rest| - 1]);
      assert ([e] + rest)[..|rest|] == [e] + rest[..|rest| - 1];
    }
  }

  lemma {:induction false} RunConcat(s: State, a: seq<Event>, b: seq<Event>)
    ensures Run(s, a + b) == Run(Run(s, a), b)
  {
    hide Step;
    if b == [] {
      assert a + b == a;
    } else {
      RunConcat(s, a, b[..|b| - 1]);
      assert (a + b)[..|a + b| - 1] == a + b[..|b| - 1];
    }
  }

  /** A get comes to its end by itself, whatever the state of the buckets, and returns the lock
      of its key, or 0 if there is none. */
  lemma GetAlone(n: nat, numBuckets: nat, sched: seq<Event>, t: nat, choice: Choice) returns (k: nat)
    requires numBuckets >= 1
    requires var s := Run(Init(n, numBuckets), sched); t < |s.th| && s.th[t].GetRead?
    ensures var s := Run(Init(n, numBuckets), sched);
      var s', key := Solo(s, t, choice, k), s.th[t].key;
      && k <= GetRank(s.m, s.th[t]) && |s'.th| == |s.th| && s'.th[t].GetDone? && s'.m == s.m
      && s'.th[t].lock == if key in Map(s.m) then Map(s.m)[key] else 0
  {
    hide Run, Solo, GetRank, Map;
    var s := Run(Init(n, numBuckets), sched);
    var more;
    k, more := GetRuns(s, t, choice);
    RunConcat(Init(n, numBuckets), sched, more);
    GetFinds(n, numBuckets, sched + more, t);
  }
}
