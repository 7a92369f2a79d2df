/** Every run of the concurrent lock table agrees on one lock per key. */
module ConcurrentTableSafety {
  import opened Tables
  import opened ConcurrentTable

  // ----- what each thread relies on

  /** The thread has allocated a lock that nobody else has seen. */
  predicate Pending(pc: Pc) {
    pc.StoreVal? || pc.StoreKey? || pc.Count? || pc.Link?
  }

  /** The thread is filling a new table. */
  predicate Copying(pc: Pc) {
    pc.RsLock? || pc.RsCopy? || pc.RsCheck? || pc.RsSwap?
  }

  /** The thread has resize_lock. */
  predicate Resizing(pc: Pc) {
    pc.RsCreate? || Copying(pc) || pc.RsPublish? || pc.RsRelease?
  }

  /** The thread has to resize, or is resizing, the current table. */
  predicate Triggered(pc: Pc) {
    || ((pc.Link? || pc.Release?) && pc.resize)
    || pc.RsRead? || pc.RsTry? || pc.RsCreate? || Copying(pc)
    || ((pc.RsPublish? || pc.RsRelease?) && pc.again)
  }

  /** How many buckets of the old table are closed for good. */
  function Passed(m: Mem, pc: Pc): nat
    requires Copying(pc) && pc.o < |m.versions|
  {
    match pc
    case RsLock(_, _, _, _, b) => b
    case RsCopy(_, _, _, _, b, _) => b + 1
    case _ => |m.versions[pc.o].bins|
  }

  /** Exactly the first `n` buckets of the current table are in RESIZE mode. */
  predicate Closed(m: Mem, n: nat)
    requires m.cur < |m.versions|
  {
    forall b :: 0 <= b < |m.versions[m.cur].bins| ==> (m.versions[m.cur].bins[b].lock == Resize <==> b < n)
  }

  /** The table binds the key to this lock. */
  ghost predicate Agreed(m: Mem, key: nat, lock: nat) {
    HasVersion(m, m.cur) && Bound(Value(m.versions[m.cur]), key, lock)
  }

  predicate NoKey(c: Slots, upTo: int, key: nat) {
    forall x :: 0 <= x < upTo && x < |c| ==> c[x].key != key
  }

  predicate At(c: Slots, i: int, key: nat) {
    0 <= i < |c| && c[i].key == key
  }

  ghost predicate MemOk(m: Mem) {
    && m.cur < |m.versions| <= m.cur + 2
    && (forall v :: 0 <= v < |m.versions| ==> |m.versions[v].bins| >= 1 && WellFormed(Value(m.versions[v])))
    && (forall v, b :: 0 <= v < m.cur && 0 <= b < |m.versions[v].bins| ==> m.versions[v].bins[b].lock == Resize)
    && (forall v, k: nat, l: nat :: 0 <= v <= m.cur && Bound(Value(m.versions[v]), k, l) ==> Agreed(m, k, l))
    && (!m.resizing ==> |m.versions| == m.cur + 1 && Closed(m, 0))
    && (forall k: nat, l: nat :: Agreed(m, k, l) ==> 1 <= l <= m.locks)
    && (forall k: nat, k': nat, l: nat :: Agreed(m, k, l) && Agreed(m, k', l) ==> k == k')
  }

  /** The bucket is held, in the current table. */
  predicate HoldsOk(m: Mem, pc: Pc)
    requires Holds(pc)
  {
    && pc.key != 0 && pc.v == m.cur
    && BinOf(m, pc.v, pc.key).lock == Update
    && (!pc.FoundRelease? ==> pc.u == pc.v)
    && var c := BinOf(m, pc.v, pc.key).slots;
      match pc
      case Scan(key, _, _, i, hole) =>
        && i <= |c| && NoKey(c, i, key)
        && if hole < 0 then NoKey(c, i, 0) else hole < i && At(c, hole, 0) && NoKey(c, hole, 0)
      case FoundRelease(key, _, i) => At(c, i, key)
      case StoreVal(key, _, _, hole, _) => NoKey(c, |c|, key) && At(c, hole, 0) && NoKey(c, hole, 0)
      case StoreKey(key, _, _, hole, lock) =>
        NoKey(c, |c|, key) && At(c, hole, 0) && NoKey(c, hole, 0) && c[hole].val == lock
      case Count(key, _, _, _) => NoKey(c, |c|, key) && NoKey(c, |c|, 0)
      case Link(key, _, _, _, _) => NoKey(c, |c|, key) && NoKey(c, |c|, 0)
      case _ => true
  }

  ghost predicate PendingOk(m: Mem, pc: Pc)
    requires Pending(pc)
  {
    1 <= pc.lock <= m.locks && forall k: nat :: !Agreed(m, k, pc.lock)
  }

  ghost predicate CopyingOk(m: Mem, pc: Pc)
    requires Copying(pc)
  {
    && pc.o == m.cur < |m.versions| == m.cur + 2 && pc.w == m.cur + 1
    && Closed(m, Passed(m, pc))
    && (forall b :: 0 <= b < |m.versions[pc.w].bins| ==> m.versions[pc.w].bins[b].lock == Free)
    && var t, u := Value(m.versions[pc.o]), Value(m.versions[pc.w]);
      match pc
      case RsLock(_, _, _, _, b) => b <= |t| && CopiedUpTo(t, b, 0, u)
      case RsCopy(_, _, _, _, b, i) => b < |t| && i <= |t[b]| && CopiedUpTo(t, b, i, u)
      case RsSwap(_, _, _, _, again) =>
        CopiedUpTo(t, |t|, 0, u) && again == (Expands(m, pc.w) >= Threshold(m, pc.w))
      case _ => CopiedUpTo(t, |t|, 0, u)
  }

  ghost predicate ResizingOk(m: Mem, pc: Pc) {
    && m.resizing && m.cur < |m.versions|
    && (!Copying(pc) ==> |m.versions| == m.cur + 1 && Closed(m, 0))
    && (Copying(pc) ==> CopyingOk(m, pc))
    && (pc.RsPublish? ==> pc.o < m.cur)
  }

  /** A table that was asked to be resized stays beyond its threshold. */
  predicate TriggeredOk(m: Mem, pc: Pc)
    requires Triggered(pc)
  {
    && Expands(m, m.cur) >= Threshold(m, m.cur)
    && match pc
      case RsRead(_, _, trigger) => trigger == m.cur
      case RsTry(_, _, o) => o == m.cur
      case RsCreate(_, _, o) => o == m.cur
      case RsPublish(_, _, _, w, _) => w == m.cur
      case RsRelease(_, _, w, _) => w == m.cur
      case _ => true
  }

  /** What lock-free scans and finished operations rely on. */
  ghost predicate ReadOk(m: Mem, pc: Pc) {
    match pc
    case PutRead(key) => key != 0
    case PutScan(key, v, _) => key != 0 && v <= m.cur
    case PutVal(key, v, i) => key != 0 && v <= m.cur && At(BinOf(m, v, key).slots, i, key)
    case ImplRead(key, v) => key != 0 && v <= m.cur
    case Acquire(key, v, u) => key != 0 && v <= u <= m.cur
    case Wait(key, u) => key != 0 && u <= m.cur
    case Retry(key) => key != 0
    case FoundVal(key, v, i) => key != 0 && v <= m.cur && At(BinOf(m, v, key).slots, i, key)
    case Release(key, _, _, lock, _) => Agreed(m, key, lock)
    case RsRead(key, lock, _) => Agreed(m, key, lock)
    case RsTry(key, lock, _) => Agreed(m, key, lock)
    case RsCreate(key, lock, _) => Agreed(m, key, lock)
    case RsLock(key, lock, _, _, _) => Agreed(m, key, lock)
    case RsCopy(key, lock, _, _, _, _) => Agreed(m, key, lock)
    case RsCheck(key, lock, _, _) => Agreed(m, key, lock)
    case RsSwap(key, lock, _, _, _) => Agreed(m, key, lock)
    case RsPublish(key, lock, _, _, _) => Agreed(m, key, lock)
    case RsRelease(key, lock, _, _) => Agreed(m, key, lock)
    case PutDone(key, lock) => Agreed(m, key, lock)
    case GetRead(key) => key != 0
    case GetScan(key, v, i, known) =>
      key != 0 && v <= m.cur && (known ==> exists j :: i <= j && At(BinOf(m, v, key).slots, j, key))
    case GetVal(key, v, i, _) => key != 0 && v <= m.cur && At(BinOf(m, v, key).slots, i, key)
    case GetDone(key, lock, known) => (known || lock != 0) ==> Agreed(m, key, lock)
    case _ => true
  }

  ghost predicate ThreadOk(m: Mem, pc: Pc) {
    && ReadOk(m, pc)
    && (Holds(pc) ==> HoldsOk(m, pc))
    && (Pending(pc) ==> PendingOk(m, pc))
    && (Resizing(pc) ==> ResizingOk(m, pc))
    && (Triggered(pc) ==> TriggeredOk(m, pc))
  }

  /** Two threads do not hold the same bucket, lock, resize_lock or trigger. */
  predicate Compatible(m: Mem, p: Pc, q: Pc) {
    && (Holds(p) && Holds(q) && HasVersion(m, m.cur) ==>
          Hash(|m.versions[m.cur].bins|, p.key) != Hash(|m.versions[m.cur].bins|, q.key))
    && (Pending(p) && Pending(q) ==> p.lock != q.lock)
    && !(Resizing(p) && Resizing(q))
    && !(Triggered(p) && Triggered(q))
  }

  ghost predicate Inv(s: State) {
    && MemOk(s.m)
    && (forall t :: 0 <= t < |s.th| ==> ThreadOk(s.m, s.th[t]))
    && (forall t, u :: 0 <= t < |s.th| && 0 <= u < |s.th| && t != u ==> Compatible(s.m, s.th[t], s.th[u]))
  }

  // ----- what a step does to the memory

  lemma WithBinValue(m: Mem, v: nat, b: nat, bin: Bin)
    requires v < |m.versions| && b < |m.versions[v].bins|
    ensures var m' := WithBin(m, v, b, bin);
      && |m'.versions| == |m.versions| && m'.cur == m.cur && m'.resizing == m.resizing && m'.locks == m.locks
      && Value(m'.versions[v]) == Value(m.versions[v])[b := bin.slots]
      && forall x :: 0 <= x < |m.versions| && x != v ==> m'.versions[x] == m.versions[x]
  {
  }

  /** Same chains and the same current table. */
  ghost predicate SameValues(m: Mem, m': Mem) {
    && m'.cur == m.cur && |m'.versions| == |m.versions|
    && forall v :: 0 <= v < |m.versions| ==> Value(m'.versions[v]) == Value(m.versions[v])
  }

  lemma SameValuesAgree(m: Mem, m': Mem, k: nat, l: nat)
    requires SameValues(m, m')
    ensures Agreed(m', k, l) == Agreed(m, k, l)
  {
    if m.cur < |m.versions| {
      assert |Value(m'.versions[m.cur])| == |Value(m.versions[m.cur])|;
    }
  }

  /** Lock bytes, counters and table_new change nothing else. */
  lemma SameValuesKeepMem(m: Mem, m': Mem)
    requires MemOk(m) && SameValues(m, m') && m'.locks >= m.locks
    requires forall v, b :: 0 <= v < m.cur && 0 <= b < |m'.versions[v].bins| ==> m'.versions[v].bins[b].lock == Resize
    requires !m'.resizing ==> |m.versions| == m.cur + 1 && Closed(m', 0)
    ensures MemOk(m')
  {
    hide Bound, WellFormed, Hash, Closed;
    forall k: nat, l: nat
      ensures Agreed(m', k, l) == Agreed(m, k, l)
    {
      SameValuesAgree(m, m', k, l);
    }
    hide Agreed;
    forall v | 0 <= v < |m'.versions|
      ensures |m'.versions[v].bins| >= 1 && WellFormed(Value(m'.versions[v]))
    {
      assert |Value(m'.versions[v])| == |Value(m.versions[v])|;
    }
    forall v, k: nat, l: nat | 0 <= v <= m.cur && Bound(Value(m'.versions[v]), k, l)
      ensures Agreed(m', k, l)
    {
      assert Bound(Value(m.versions[v]), k, l);
    }
  }

  /** A lock byte of the current table. */
  lemma LockKeepsMem(m: Mem, b: nat, lock: Lock)
    requires MemOk(m) && b < |m.versions[m.cur].bins| && (!m.resizing ==> lock != Resize)
    ensures var m' := WithBin(m, m.cur, b, m.versions[m.cur].bins[b].(lock := lock));
      SameValues(m, m') && MemOk(m')
  {
    var m' := WithBin(m, m.cur, b, m.versions[m.cur].bins[b].(lock := lock));
    WithBinValue(m, m.cur, b, m.versions[m.cur].bins[b].(lock := lock));
    hide Bound, WellFormed, Hash, Agreed;
    assert Value(m'.versions[m.cur]) == Value(m.versions[m.cur]);
    SameValuesKeepMem(m, m');
  }

  /** A chain of the current table that means the same, or binds one new key to an unused lock. */
  lemma ChainKeepsMem(m: Mem, b: nat, c: Slots, isNew: bool, key: nat, lock: nat)
    requires MemOk(m) && b < |m.versions[m.cur].bins|
    requires var t := Value(m.versions[m.cur]);
      && WellFormed(t[b := c])
      && (forall k: nat, l: nat :: Bound(t[b := c], k, l) <==> Bound(t, k, l) || (isNew && k == key && l == lock))
    requires isNew ==> 1 <= lock <= m.locks && forall k: nat :: !Agreed(m, k, lock)
    ensures var m' := WithBin(m, m.cur, b, m.versions[m.cur].bins[b].(slots := c));
      && MemOk(m')
      && (forall k: nat, l: nat :: Agreed(m', k, l) <==> Agreed(m, k, l) || (isNew && k == key && l == lock))
  {
    var m' := WithBin(m, m.cur, b, m.versions[m.cur].bins[b].(slots := c));
    WithBinValue(m, m.cur, b, m.versions[m.cur].bins[b].(slots := c));
    hide Bound, WellFormed, Hash;
    assert |m'.versions[m.cur].bins| == |m.versions[m.cur].bins|;
    var t := Value(m.versions[m.cur]);
    assert Value(m'.versions[m.cur]) == t[b := c];
    forall k: nat, l: nat
      ensures Agreed(m', k, l) <==> Agreed(m, k, l) || (isNew && k == key && l == lock)
    {
      assert Agreed(m', k, l) == Bound(t[b := c], k, l) && Agreed(m, k, l) == Bound(t, k, l);
    }
    hide Agreed;
    forall v, k: nat, l: nat | 0 <= v <= m.cur && Bound(Value(m'.versions[v]), k, l)
      ensures Agreed(m', k, l)
    {
      if v < m.cur {
        assert Bound(Value(m.versions[v]), k, l);
      } else {
        assert Agreed(m', k, l) by { assert HasVersion(m', m.cur); }
      }
    }
  }

  /** The table under construction does not matter to the others. */
  lemma TailKeepsMem(m: Mem, m': Mem)
    requires MemOk(m) && m.resizing && m'.resizing && m'.cur == m.cur && m'.locks == m.locks
    requires m.cur < |m'.versions| <= m.cur + 2
    requires forall v :: 0 <= v <= m.cur ==> m'.versions[v] == m.versions[v]
    requires |m'.versions| == m.cur + 2 ==>
      |m'.versions[m.cur + 1].bins| >= 1 && WellFormed(Value(m'.versions[m.cur + 1]))
    ensures MemOk(m') && forall k: nat, l: nat :: Agreed(m', k, l) == Agreed(m, k, l)
  {
    hide Bound, WellFormed, Hash, Closed;
    assert forall k: nat, l: nat :: Agreed(m', k, l) == Agreed(m, k, l);
    hide Agreed;
    forall v, k: nat, l: nat | 0 <= v <= m.cur && Bound(Value(m'.versions[v]), k, l)
      ensures Agreed(m', k, l)
    {
      assert Bound(Value(m.versions[v]), k, l);
    }
  }

  /** The new table replaces the old one: it binds the same keys to the same locks. */
  lemma SwapKeepsMem(m: Mem, pc: Pc)
    requires MemOk(m) && pc.RsSwap? && CopyingOk(m, pc) && m.resizing
    ensures var m' := m.(cur := pc.w);
      MemOk(m') && Closed(m', 0) && forall k: nat, l: nat :: Agreed(m', k, l) == Agreed(m, k, l)
  {
    var m' := m.(cur := pc.w);
    var t, u := Value(m.versions[pc.o]), Value(m.versions[pc.w]);
    CopyMeaning(t, u);
    forall k: nat, l: nat
      ensures Agreed(m', k, l) == Agreed(m, k, l)
    {
      MeaningBound(t, k, l);
      MeaningBound(u, k, l);
    }
    hide Bound, WellFormed, Hash, Meaning, CopiedUpTo;
    forall v, k: nat, l: nat | 0 <= v <= m'.cur && Bound(Value(m'.versions[v]), k, l)
      ensures Agreed(m', k, l)
    {
      assert v <= m.cur ==> Agreed(m, k, l);
    }
    hide Agreed;
  }

  lemma NewVersionOk(n: nat)
    requires n >= 1
    ensures WellFormed(Value(NewVersion(n)))
    ensures forall t :: CopiedUpTo(t, 0, 0, Value(NewVersion(n)))
  {
    forall t
      ensures CopiedUpTo(t, 0, 0, Value(NewVersion(n)))
    {
      NothingCopied(t, Value(NewVersion(n)));
    }
  }

  lemma SameClosed(m: Mem, m': Mem, n: nat)
    requires m.cur < |m.versions| && m'.cur == m.cur < |m'.versions|
    requires m'.versions[m.cur].bins == m.versions[m.cur].bins
    ensures Closed(m', n) == Closed(m, n)
  {
  }

  /** Copying one entry. */
  lemma CopyKeeps(m: Mem, pc: Pc)
    requires MemOk(m) && pc.RsCopy? && CopyingOk(m, pc) && m.resizing
    requires pc.i < |m.versions[pc.o].bins[pc.b].slots|
    ensures var s := m.versions[pc.o].bins[pc.b].slots[pc.i];
      var m' := if s.key != 0 then PutSeq(m, pc.w, s) else m;
      && MemOk(m') && CopyingOk(m', RsCopy(pc.key, pc.lock, pc.o, pc.w, pc.b, pc.i + 1))
      && |m'.versions| == |m.versions| && m'.cur == m.cur
      && m'.resizing && m'.locks == m.locks
      && (forall v :: 0 <= v <= m.cur ==> m'.versions[v] == m.versions[v])
      && (forall k: nat, l: nat :: Agreed(m', k, l) == Agreed(m, k, l))
  {
    hide Bound, Hash, PutSeq, Inserted, Closed, Agreed, WellFormed;
    var s := m.versions[pc.o].bins[pc.b].slots[pc.i];
    var t, u := Value(m.versions[pc.o]), Value(m.versions[pc.w]);
    assert s == t[pc.b][pc.i];
    var m' := if s.key != 0 then PutSeq(m, pc.w, s) else m;
    if s.key != 0 { PutSeqInserts(m, pc.w, s); }
    var u' := Value(m'.versions[pc.w]);
    CopyEntry(t, pc.b, pc.i, u, u');
    assert WellFormed(u') by { assert CopiedUpTo(t, pc.b, pc.i + 1, u'); }
    hide CopiedUpTo;
    TailKeepsMem(m, m');
    hide MemOk;
    SameClosed(m, m', pc.b + 1);
  }

  lemma PutSeqInserts(m: Mem, w: nat, s: Slot)
    requires HasVersion(m, w) && s.key != 0
    ensures var m' := PutSeq(m, w, s);
      && m'.cur == m.cur && m'.resizing == m.resizing && m'.locks == m.locks && |m'.versions| == |m.versions|
      && (forall v :: 0 <= v < |m.versions| && v != w ==> m'.versions[v] == m.versions[v])
      && |m'.versions[w].bins| == |m.versions[w].bins| && m'.versions[w].threshold == m.versions[w].threshold
      && (forall b :: 0 <= b < |m.versions[w].bins| ==> m'.versions[w].bins[b].lock == m.versions[w].bins[b].lock)
      && var u, u', d := Value(m.versions[w]), Value(m'.versions[w]), Hash(|m.versions[w].bins|, s.key);
        Inserted(u[d], u'[d], s.key, s.val) && forall c :: 0 <= c < |u| && c != d ==> u'[c] == u[c]
  {
    hide Hash;
  }

  // ----- nothing bound is ever lost

  /** Entries with a key never change, and entries are only added. */
  predicate Extends(c: Slots, c': Slots) {
    |c| <= |c'| && forall i :: 0 <= i < |c| && c[i].key != 0 ==> c'[i] == c[i]
  }

  ghost predicate Grows(m: Mem, m': Mem) {
    && m.cur <= m'.cur < |m'.versions| && |m.versions| <= |m'.versions| && m.locks <= m'.locks
    && (forall v :: 0 <= v <= m.cur < |m.versions| ==> |m'.versions[v].bins| == |m.versions[v].bins|)
    && (forall v, b :: 0 <= v <= m.cur < |m.versions| && 0 <= b < |m.versions[v].bins| ==>
          Extends(m.versions[v].bins[b].slots, m'.versions[v].bins[b].slots))
    && (forall k: nat, l: nat :: Agreed(m, k, l) ==> Agreed(m', k, l))
  }

  /** Only the lock that the thread has in hand can become visible. */
  ghost predicate NewLocks(m: Mem, pc: Pc, m': Mem) {
    forall k: nat, l: nat :: Agreed(m', k, l) ==> Agreed(m, k, l) || (Pending(pc) && l == pc.lock)
  }

  ghost predicate SameAgreed(m: Mem, m': Mem) {
    forall k: nat, l: nat :: Agreed(m', k, l) == Agreed(m, k, l)
  }

  lemma SameValuesGrow(m: Mem, m': Mem, pc: Pc)
    requires MemOk(m) && SameValues(m, m') && m.locks <= m'.locks
    ensures Grows(m, m') && NewLocks(m, pc, m') && SameAgreed(m, m')
  {
    hide Bound, WellFormed, Hash;
    forall k: nat, l: nat
      ensures Agreed(m', k, l) == Agreed(m, k, l)
    {
      SameValuesAgree(m, m', k, l);
    }
    hide Agreed;
    forall v | 0 <= v <= m.cur
      ensures |m'.versions[v].bins| == |m.versions[v].bins|
      ensures forall b :: 0 <= b < |m.versions[v].bins| ==>
        m'.versions[v].bins[b].slots == m.versions[v].bins[b].slots
    {
      assert |Value(m'.versions[v])| == |Value(m.versions[v])|;
      forall b | 0 <= b < |m.versions[v].bins|
        ensures m'.versions[v].bins[b].slots == m.versions[v].bins[b].slots
      {
        assert Value(m'.versions[v])[b] == Value(m.versions[v])[b];
      }
    }
  }

  lemma ChainGrows(m: Mem, b: nat, c: Slots)
    requires MemOk(m) && b < |m.versions[m.cur].bins| && Extends(m.versions[m.cur].bins[b].slots, c)
    requires var m' := WithBin(m, m.cur, b, m.versions[m.cur].bins[b].(slots := c));
      forall k: nat, l: nat :: Agreed(m, k, l) ==> Agreed(m', k, l)
    ensures Grows(m, WithBin(m, m.cur, b, m.versions[m.cur].bins[b].(slots := c)))
  {
    hide Agreed;
  }

  /** A step that changes a lock byte of the current table. */
  lemma LockStep(m: Mem, pc: Pc, key: nat, lock: Lock)
    requires MemOk(m) && lock != Resize
    ensures var m' := Locked(m, m.cur, key, lock);
      MemOk(m') && Grows(m, m') && NewLocks(m, pc, m')
  {
    var b := Hash(|m.versions[m.cur].bins|, key);
    LockKeepsMem(m, b, lock);
    hide MemOk;
    SameValuesGrow(m, Locked(m, m.cur, key, lock), pc) by {
      assert MemOk(m) && m.locks == Locked(m, m.cur, key, lock).locks;
    }
  }

  lemma HoleValSame(t: Table, b: nat, hole: nat, val: nat)
    requires WellFormed(t) && b < |t| && At(t[b], hole, 0)
    ensures var u := t[b := t[b][hole := t[b][hole].(val := val)]];
      WellFormed(u) && forall k: nat, l: nat :: Bound(u, k, l) == Bound(t, k, l)
  {
    var c := t[b][hole := t[b][hole].(val := val)];
    var u := t[b := c];
    forall k: nat, l: nat
      ensures k != 0 ==> Binds(c, k, l) == Binds(t[b], k, l)
    {
      if k != 0 && Binds(t[b], k, l) {
        var i :| 0 <= i < |t[b]| && t[b][i] == Slot(k, l);
        assert c[i] == Slot(k, l);
      }
    }
    assert WellFormed(u) by { hide Hash; }
    hide Hash, Binds;
  }

  lemma StoreValStep(m: Mem, pc: Pc)
    requires MemOk(m) && pc.StoreVal? && HoldsOk(m, pc)
    ensures var m' := StepThread(m, pc, Return).m;
      MemOk(m') && Grows(m, m') && NewLocks(m, pc, m') && SameAgreed(m, m')
  {
    hide StepResize, StepFree;
    var b := Hash(|m.versions[m.cur].bins|, pc.key);
    var t: Table := Value(m.versions[m.cur]);
    var c := t[b][pc.hole := t[b][pc.hole].(val := pc.lock)];
    HoleValSame(t, b, pc.hole, pc.lock);
    hide Hash, WellFormed, Bound;
    ChainKeepsMem(m, b, c, false, 0, 0);
    ChainGrows(m, b, c);
  }

  /** The new key becomes visible, in a hole or in a new bucket. */
  lemma PublishStep(m: Mem, pc: Pc, c: Slots)
    requires MemOk(m) && (pc.StoreKey? || pc.Link?) && HoldsOk(m, pc) && PendingOk(m, pc)
    requires Inserted(BinOf(m, m.cur, pc.key).slots, c, pc.key, pc.lock)
    ensures var m' := Filled(m, m.cur, pc.key, c);
      && MemOk(m') && Grows(m, m') && NewLocks(m, pc, m') && Agreed(m', pc.key, pc.lock)
      && forall k: nat, l: nat :: Agreed(m', k, l) <==> Agreed(m, k, l) || (k == pc.key && l == pc.lock)
  {
    var t := Value(m.versions[m.cur]);
    var b := Hash(|t|, pc.key);
    InsertedBound(t, c, pc.key, pc.lock);
    assert Extends(t[b], c);
    hide Hash, Inserted, Meaning, WellFormed, Bound;
    ChainKeepsMem(m, b, c, true, pc.key, pc.lock);
    ChainGrows(m, b, c);
  }

  lemma InsertedBound(t: Table, c: Slots, key: nat, lock: nat)
    requires WellFormed(t) && key != 0
    requires var d := t[Hash(|t|, key)]; Inserted(d, c, key, lock) && NoKey(d, |d|, key)
    ensures var u := t[Hash(|t|, key) := c];
      && WellFormed(u)
      && forall k: nat, l: nat :: Bound(u, k, l) <==> Bound(t, k, l) || (k == key && l == lock)
  {
    var u := t[Hash(|t|, key) := c];
    InsertMeaning(t, u, key, lock);
    forall k: nat, l: nat
      ensures Bound(u, k, l) <==> Bound(t, k, l) || (k == key && l == lock)
    {
      MeaningBound(t, k, l);
      MeaningBound(u, k, l);
      assert !Bound(t, key, l);
      hide Bound, Hash, Meaning, WellFormed;
    }
  }

  /** Every lock byte as before. */
  predicate SameLocks(m: Mem, m': Mem) {
    && |m'.versions| == |m.versions|
    && (forall v :: 0 <= v < |m.versions| ==> m'.versions[v].bins == m.versions[v].bins)
  }

  /** A counter, resize_lock or table_new. */
  lemma FlagStep(m: Mem, pc: Pc, m': Mem)
    requires MemOk(m) && SameLocks(m, m') && m'.cur == m.cur && m.locks <= m'.locks
    requires !m'.resizing ==> |m.versions| == m.cur + 1 && Closed(m, 0)
    ensures MemOk(m') && Grows(m, m') && NewLocks(m, pc, m') && SameAgreed(m, m')
  {
    hide Closed, Agreed, Bound, WellFormed;
    forall v | 0 <= v < |m.versions|
      ensures Value(m'.versions[v]) == Value(m.versions[v])
    {
      assert m'.versions[v].bins == m.versions[v].bins;
    }
    SameClosed(m, m', 0);
    SameValuesKeepMem(m, m');
    hide MemOk;
    SameValuesGrow(m, m', pc) by { assert MemOk(m); }
  }

  /** A step of the resizer on the table it is building. */
  lemma TailStep(m: Mem, pc: Pc, m': Mem)
    requires MemOk(m) && MemOk(m') && m'.cur == m.cur && m'.locks == m.locks && |m.versions| <= |m'.versions|
    requires forall v :: 0 <= v <= m.cur ==> m'.versions[v] == m.versions[v]
    requires forall k: nat, l: nat :: Agreed(m', k, l) == Agreed(m, k, l)
    ensures Grows(m, m') && NewLocks(m, pc, m')
  {
    hide Agreed;
  }

  lemma CreateStep(m: Mem, pc: Pc, choice: Choice)
    requires MemOk(m) && pc.RsCreate? && ResizingOk(m, pc) && TriggeredOk(m, pc)
    ensures var v := StepThread(m, pc, choice);
      && MemOk(v.m) && Grows(m, v.m) && NewLocks(m, pc, v.m) && CopyingOk(v.m, v.pc)
      && v.m.resizing && v.m.cur == m.cur && v.m.versions[m.cur] == m.versions[m.cur]
  {
    hide StepHolder, StepFree;
    var v := StepThread(m, pc, choice);
    var n := match choice case Advance(buckets) => buckets + 1 case _ => 1;
    NewVersionOk(n);
    hide WellFormed, Bound, CopiedUpTo, Closed, Agreed;
    TailKeepsMem(m, v.m);
    TailStep(m, pc, v.m);
    SameClosed(m, v.m, 0);
    hide MemOk;
  }

  lemma SwapStep(m: Mem, pc: Pc)
    requires MemOk(m) && pc.RsSwap? && ResizingOk(m, pc)
    ensures var m' := StepThread(m, pc, Return).m;
      MemOk(m') && Grows(m, m') && NewLocks(m, pc, m') && Closed(m', 0) && |m'.versions| == m'.cur + 1
  {
    hide StepHolder, StepFree;
    SwapKeepsMem(m, pc);
    hide Closed, Agreed, CopiedUpTo;
  }

  /** The bucket under RESIZE lock joins the closed ones. */
  lemma CloseStep(m: Mem, pc: Pc)
    requires MemOk(m) && pc.RsLock? && ResizingOk(m, pc)
    ensures var v := StepThread(m, pc, Return);
      MemOk(v.m) && Grows(m, v.m) && NewLocks(m, pc, v.m) && CopyingOk(v.m, v.pc)
  {
    hide WellFormed, Bound, CopiedUpTo, Agreed;
    var v := StepThread(m, pc, Return);
    if v.m != m {
      LockKeepsMem(m, pc.b, Resize);
      assert Value(v.m.versions[m.cur]) == Value(m.versions[m.cur]);
      hide MemOk;
      SameValuesGrow(m, v.m, pc) by { assert MemOk(m); }
    } else {
      FlagStep(m, pc, m) by { assert MemOk(m); }
    }
  }

  /** A bucket that is not in RESIZE mode is in the current table. */
  lemma FreeIsCurrent(m: Mem, v: nat, key: nat)
    requires MemOk(m) && v <= m.cur && BinOf(m, v, key).lock != Resize
    ensures v == m.cur
  {
  }

  lemma CopyStep(m: Mem, pc: Pc)
    requires MemOk(m) && pc.RsCopy? && ResizingOk(m, pc)
    ensures var v := StepThread(m, pc, Return);
      MemOk(v.m) && Grows(m, v.m) && NewLocks(m, pc, v.m) && CopyingOk(v.m, v.pc)
      && v.m.resizing && v.m.cur == m.cur && v.m.versions[m.cur] == m.versions[m.cur]
  {
    hide CopiedUpTo, Agreed, WellFormed, Bound;
    var v := StepThread(m, pc, Return);
    if pc.i < |m.versions[pc.o].bins[pc.b].slots| {
      CopyKeeps(m, pc);
      hide MemOk;
      TailStep(m, pc, v.m);
    } else {
      NextBin(Value(m.versions[pc.o]), pc.b, Value(m.versions[pc.w]));
      hide MemOk;
      FlagStep(m, pc, m) by { assert MemOk(m); }
    }
  }

  /** A step that only reads. */
  lemma StillStep(m: Mem, pc: Pc)
    requires MemOk(m)
    ensures Grows(m, m) && NewLocks(m, pc, m)
  {
    hide Agreed;
  }

  lemma AcquireStep(m: Mem, pc: Pc)
    requires MemOk(m) && pc.Acquire? && ReadOk(m, pc)
    ensures var m' := StepThread(m, pc, Return).m;
      MemOk(m') && Grows(m, m') && NewLocks(m, pc, m')
  {
    hide StepHolder, StepResize;
    if BinOf(m, pc.v, pc.key).lock == Free {
      FreeIsCurrent(m, pc.v, pc.key);
      LockStep(m, pc, pc.key, Update);
    } else {
      StillStep(m, pc);
    }
    hide *;
  }

  /** A step under a bucket lock. */
  lemma HolderStep(m: Mem, pc: Pc, choice: Choice)
    requires MemOk(m) && Holds(pc) && HoldsOk(m, pc) && (Pending(pc) ==> PendingOk(m, pc))
    ensures var m' := StepThread(m, pc, choice).m;
      MemOk(m') && Grows(m, m') && NewLocks(m, pc, m')
  {
    hide StepResize, StepFree;
    hide Grows, NewLocks, Agreed, Bound, WellFormed, SameAgreed;
    var m' := StepThread(m, pc, choice).m;
    match pc
    case Scan(key, v, u, i, hole) => FlagStep(m, pc, m');
    case FoundRelease(key, v, i) => LockStep(m, pc, key, Free);
    case StoreVal(key, v, u, hole, lock) => StoreValStep(m, pc);
    case StoreKey(key, v, u, hole, lock) =>
      var c := BinOf(m, v, key).slots;
      PublishStep(m, pc, c[hole := c[hole].(key := key)]);
    case Count(key, v, u, lock) => FlagStep(m, pc, m');
    case Link(key, v, u, lock, resize) =>
      PublishStep(m, pc, BinOf(m, v, key).slots + [Slot(key, lock), Slot(0, 0), Slot(0, 0)]);
    case Release(key, v, u, lock, resize) => LockStep(m, pc, key, Free);
  }

  /** A step that takes, keeps or gives back resize_lock without touching a table's buckets. */
  lemma ResizeFlagStep(m: Mem, pc: Pc, choice: Choice)
    requires MemOk(m) && (pc.RsTry? || (ResizingOk(m, pc) && (pc.RsCheck? || pc.RsPublish? || pc.RsRelease?)))
    ensures var m' := StepThread(m, pc, choice).m;
      MemOk(m') && Grows(m, m') && NewLocks(m, pc, m')
  {
    hide StepHolder, StepFree;
    hide Grows, NewLocks, Agreed, Bound, WellFormed, SameAgreed, CopiedUpTo, Closed, Hash;
    var m' := StepThread(m, pc, choice).m;
    assert SameLocks(m, m');
    FlagStep(m, pc, m');
  }

  /** A step under resize_lock, or taking it. */
  lemma ResizerStep(m: Mem, pc: Pc, choice: Choice)
    requires MemOk(m) && (Resizing(pc) ==> ResizingOk(m, pc)) && (Triggered(pc) ==> TriggeredOk(m, pc))
    requires pc.RsTry? || Resizing(pc)
    ensures var m' := StepThread(m, pc, choice).m;
      MemOk(m') && Grows(m, m') && NewLocks(m, pc, m')
  {
    hide Grows, NewLocks, MemOk, ResizingOk, TriggeredOk, CopyingOk;
    if pc.RsCreate? {
      hide StepThread;
      CreateStep(m, pc, choice);
    } else if pc.RsLock? {
      CloseStep(m, pc);
      LockAlone(m, pc, choice);
      hide StepThread;
    } else if pc.RsCopy? {
      CopyStep(m, pc);
      CopyAlone(m, pc, choice);
      hide StepThread;
    } else if pc.RsSwap? {
      SwapStep(m, pc);
      SwapAlone(m, pc, choice);
      hide StepThread;
    } else {
      hide StepThread;
      ResizeFlagStep(m, pc, choice);
    }
  }

  lemma LockAlone(m: Mem, p: Pc, choice: Choice)
    requires p.RsLock?
    ensures StepThread(m, p, choice) == StepThread(m, p, Return)
  {
    hide WithBin;
  }

  lemma SwapAlone(m: Mem, p: Pc, choice: Choice)
    requires p.RsSwap?
    ensures StepThread(m, p, choice) == StepThread(m, p, Return)
  {
  }

  lemma MemStep(m: Mem, pc: Pc, choice: Choice)
    requires MemOk(m) && ThreadOk(m, pc)
    ensures var m' := StepThread(m, pc, choice).m;
      MemOk(m') && Grows(m, m') && NewLocks(m, pc, m')
  {
    hide MemOk, Grows, NewLocks, HoldsOk, PendingOk, ResizingOk, TriggeredOk;
    if Holds(pc) {
      HolderStep(m, pc, choice);
    } else if pc.RsTry? || Resizing(pc) {
      ResizerStep(m, pc, choice);
    } else if pc.Acquire? {
      AcquireStep(m, pc);
    } else {
      StillStep(m, pc);
    }
  }

  // ----- the thread that moves

  /** An entry of any table up to the current one is agreed on. */
  lemma EntryAgreed(m: Mem, v: nat, key: nat, i: int)
    requires MemOk(m) && v <= m.cur && key != 0 && At(BinOf(m, v, key).slots, i, key)
    ensures Agreed(m, key, BinOf(m, v, key).slots[i].val)
  {
    var t := Value(m.versions[v]);
    var c := t[Hash(|t|, key)];
    assert c[i] == Slot(key, c[i].val);
    assert Bound(t, key, c[i].val);
    hide Bound, Agreed;
  }

  lemma KnownKey(m: Mem, key: nat)
    requires MemOk(m) && key in Map(m)
    ensures exists j :: 0 <= j && At(BinOf(m, m.cur, key).slots, j, key)
  {
    var t := Value(m.versions[m.cur]);
    KeysHashed(t, key);
    var j :| 0 <= j < |t[Hash(|t|, key)]| && t[Hash(|t|, key)][j].key == key;
    assert At(BinOf(m, m.cur, key).slots, j, key);
  }

  lemma SelfReads(m: Mem, pc: Pc, choice: Choice)
    requires MemOk(m) && ReadOk(m, pc) && (pc.FoundVal? || pc.PutVal? || pc.GetVal?)
    ensures var v := StepThread(m, pc, choice); ReadOk(v.m, v.pc)
  {
    hide StepHolder, StepResize;
    EntryAgreed(m, pc.v, pc.key, pc.i);
    hide MemOk, Agreed;
  }

  lemma SelfGets(m: Mem, pc: Pc, choice: Choice)
    requires MemOk(m) && ReadOk(m, pc) && pc.GetRead?
    ensures var v := StepThread(m, pc, choice); ReadOk(v.m, v.pc)
  {
    hide StepHolder, StepResize;
    hide Agreed, Map, BinOf;
    if pc.key in Map(m) { KnownKey(m, pc.key); }
    hide MemOk;
  }

  lemma SelfScans(m: Mem, pc: Pc, choice: Choice)
    requires ReadOk(m, pc) && pc.GetScan?
    ensures var v := StepThread(m, pc, choice); ReadOk(v.m, v.pc)
  {
    hide StepHolder, StepResize;
    var v := StepThread(m, pc, choice);
    var c := BinOf(m, pc.v, pc.key).slots;
    if pc.known {
      var j :| pc.i <= j && At(c, j, pc.key);
      assert v.pc.GetScan? ==> v.pc.i <= j;
    }
    hide Agreed, BinOf;
  }

  lemma SelfAgrees(m: Mem, pc: Pc, choice: Choice)
    requires m.cur < |m.versions| && ReadOk(m, pc) && (Holds(pc) ==> pc.key != 0 && pc.v == m.cur)
    requires pc.FoundRelease? ==> At(BinOf(m, pc.v, pc.key).slots, pc.i, pc.key)
    requires var v := StepThread(m, pc, choice); Grows(m, v.m)
    requires !(pc.FoundVal? || pc.PutVal? || pc.GetRead? || pc.GetScan? || pc.GetVal? || pc.StoreKey? || pc.Link?)
    ensures var v := StepThread(m, pc, choice); ReadOk(v.m, v.pc)
  {
    hide Bound, Agreed, Hash;
    if Holds(pc) { hide StepResize, StepFree; } else if InResize(pc) { hide StepHolder, StepFree; }
  }

  lemma SelfReadOk(m: Mem, pc: Pc, choice: Choice)
    requires MemOk(m) && ThreadOk(m, pc)
    ensures var v := StepThread(m, pc, choice); ReadOk(v.m, v.pc)
  {
    MemStep(m, pc, choice);
    hide MemOk, Grows, NewLocks, Agreed, ResizingOk, TriggeredOk;
    if pc.StoreKey? || pc.Link? {
      SelfPublishes(m, pc);
    } else if pc.FoundVal? || pc.PutVal? || pc.GetVal? {
      hide HoldsOk, PendingOk, StepThread, ReadOk;
      SelfReads(m, pc, choice);
    } else if pc.GetRead? {
      hide HoldsOk, PendingOk, StepThread, ReadOk;
      SelfGets(m, pc, choice);
    } else if pc.GetScan? {
      hide HoldsOk, PendingOk, StepThread, ReadOk;
      SelfScans(m, pc, choice);
    } else {
      hide HoldsOk, PendingOk, StepThread, ReadOk;
      SelfAgrees(m, pc, choice);
    }
  }

  lemma SelfPublishes(m: Mem, pc: Pc)
    requires MemOk(m) && ThreadOk(m, pc) && (pc.StoreKey? || pc.Link?)
    ensures var v := StepThread(m, pc, Return); ReadOk(v.m, v.pc)
  {
    hide MemOk, Grows, NewLocks, Agreed, ResizingOk, TriggeredOk, PendingOk, Bound;
    var c := BinOf(m, pc.v, pc.key).slots;
    PublishStep(m, pc, if pc.StoreKey? then c[pc.hole := c[pc.hole].(key := pc.key)]
                       else c + [Slot(pc.key, pc.lock), Slot(0, 0), Slot(0, 0)]);
  }

  lemma AcquiredOk(m: Mem, pc: Pc)
    requires MemOk(m) && ThreadOk(m, pc) && pc.Acquire?
    ensures var v := StepThread(m, pc, Return); Holds(v.pc) ==> HoldsOk(v.m, v.pc)
  {
    hide StepHolder, StepResize;
    hide Bound, WellFormed, Agreed;
    if BinOf(m, pc.v, pc.key).lock == Free { FreeIsCurrent(m, pc.v, pc.key); }
  }

  lemma BinAfter(m: Mem, v: nat, key: nat, c: Slots)
    requires HasVersion(m, v)
    ensures BinOf(Filled(m, v, key, c), v, key) == BinOf(m, v, key).(slots := c)
    ensures Filled(m, v, key, c).cur == m.cur
  {
    hide Hash;
  }

  lemma HolderMoves(m: Mem, pc: Pc, choice: Choice)
    requires HasVersion(m, m.cur) && Holds(pc) && HoldsOk(m, pc)
    ensures var v := StepThread(m, pc, choice); Holds(v.pc) ==> HoldsOk(v.m, v.pc)
  {
    hide StepResize, StepFree;
    var v := StepThread(m, pc, choice);
    var c := BinOf(m, pc.v, pc.key).slots;
    match pc
    case StoreVal(_, _, _, _, _) => BinAfter(m, pc.v, pc.key, c[pc.hole := c[pc.hole].(val := pc.lock)]);
    case StoreKey(_, _, _, _, _) => BinAfter(m, pc.v, pc.key, c[pc.hole := c[pc.hole].(key := pc.key)]);
    case Link(_, _, _, _, _) => BinAfter(m, pc.v, pc.key, c + [Slot(pc.key, pc.lock), Slot(0, 0), Slot(0, 0)]);
    case Count(_, _, _, _) => assert v.m.versions[m.cur].bins == m.versions[m.cur].bins;
    case Scan(_, _, _, _, _) => assert v.m.versions == m.versions;
    case _ =>
    hide Hash;
  }

  lemma KeepsBucket(m: Mem, p: Pc, choice: Choice)
    requires !p.Acquire?
    ensures var v := StepThread(m, p, choice); Holds(v.pc) ==> Holds(p) && v.pc.key == p.key
  {
    hide Hash, PutSeq, Filled, Locked, BinOf, WithBin;
  }

  lemma SelfHoldsOk(m: Mem, pc: Pc, choice: Choice)
    requires MemOk(m) && ThreadOk(m, pc)
    ensures var v := StepThread(m, pc, choice); Holds(v.pc) ==> HoldsOk(v.m, v.pc)
  {
    hide Agreed, ResizingOk, PendingOk, TriggeredOk, ReadOk, HoldsOk;
    if pc.Acquire? {
      AcquiredOk(m, pc);
    } else if Holds(pc) {
      assert HasVersion(m, m.cur);
      hide StepThread;
      HolderMoves(m, pc, choice);
    } else {
      hide StepThread;
      KeepsBucket(m, pc, choice);
    }
  }

  lemma NotPending(m: Mem, pc: Pc, choice: Choice)
    requires !(pc.StoreVal? || pc.Count? || pc.Scan?)
    ensures !Pending(StepThread(m, pc, choice).pc)
  {
    hide Hash, PutSeq, Filled, Locked, BinOf, WithBin;
  }

  lemma SelfPendingOk(m: Mem, pc: Pc, choice: Choice)
    requires MemOk(m) && ThreadOk(m, pc)
    ensures var v := StepThread(m, pc, choice); Pending(v.pc) ==> PendingOk(v.m, v.pc)
  {
    hide Agreed, ResizingOk, TriggeredOk, Closed, ReadOk;
    var v := StepThread(m, pc, choice);
    if pc.StoreVal? {
      StoreValStep(m, pc);
      hide MemOk, HoldsOk, Grows, NewLocks;
    } else if pc.Count? || pc.Scan? {
      FlagStep(m, pc, v.m) by { assert Holds(pc) && HoldsOk(m, pc); }
      hide HoldsOk, Grows, NewLocks;
    } else {
      hide MemOk, HoldsOk, StepThread;
      NotPending(m, pc, choice);
    }
  }

  lemma BuilderMoves(m: Mem, pc: Pc, choice: Choice)
    requires MemOk(m) && ResizingOk(m, pc) && (pc.RsCreate? || pc.RsLock? || pc.RsCopy? || pc.RsSwap?)
    requires pc.RsCreate? ==> TriggeredOk(m, pc)
    ensures var v := StepThread(m, pc, choice); ResizingOk(v.m, v.pc)
  {
    hide Agreed, Bound, WellFormed, CopiedUpTo, Closed, Grows, NewLocks;
    if pc.RsCreate? {
      CreateStep(m, pc, choice);
      hide MemOk, CopyingOk;
    } else if pc.RsLock? {
      CloseStep(m, pc);
      hide MemOk, CopyingOk;
    } else if pc.RsCopy? {
      CopyStep(m, pc);
      hide MemOk, CopyingOk;
    } else {
      SwapStep(m, pc);
    }
  }

  lemma FlagMoves(m: Mem, pc: Pc, choice: Choice)
    requires MemOk(m) && (pc.RsTry? || (ResizingOk(m, pc) && (pc.RsCheck? || pc.RsPublish? || pc.RsRelease?)))
    ensures var v := StepThread(m, pc, choice); Resizing(v.pc) ==> ResizingOk(v.m, v.pc)
  {
    hide StepHolder, StepFree;
    hide Agreed, Bound, WellFormed, CopiedUpTo, Closed, Hash;
    var v := StepThread(m, pc, choice);
    if !pc.RsCheck? { SameClosed(m, v.m, 0); }
  }

  lemma NotResizing(m: Mem, pc: Pc, choice: Choice)
    requires !pc.RsTry? && !Resizing(pc)
    ensures !Resizing(StepThread(m, pc, choice).pc)
  {
    hide Hash, PutSeq, Filled, Locked, BinOf, WithBin;
  }

  lemma SelfResizingOk(m: Mem, pc: Pc, choice: Choice)
    requires MemOk(m) && ThreadOk(m, pc)
    ensures var v := StepThread(m, pc, choice); Resizing(v.pc) ==> ResizingOk(v.m, v.pc)
  {
    hide MemOk, ReadOk, HoldsOk, PendingOk, TriggeredOk, ResizingOk;
    if pc.RsCreate? || pc.RsLock? || pc.RsCopy? || pc.RsSwap? {
      hide StepThread;
      BuilderMoves(m, pc, choice);
    } else if pc.RsTry? || Resizing(pc) {
      hide StepThread;
      FlagMoves(m, pc, choice);
    } else {
      hide StepThread;
      NotResizing(m, pc, choice);
    }
  }

  lemma HolderTriggers(m: Mem, pc: Pc, choice: Choice)
    requires HasVersion(m, m.cur) && (pc.Count? || pc.Link? || pc.Release?) && HoldsOk(m, pc)
    requires Triggered(pc) ==> TriggeredOk(m, pc)
    ensures var v := StepThread(m, pc, choice); Triggered(v.pc) ==> TriggeredOk(v.m, v.pc)
  {
    hide StepResize, StepFree;
    hide Hash, Closed;
  }

  lemma ResizerTriggers(m: Mem, pc: Pc, choice: Choice)
    requires MemOk(m) && Triggered(pc) && TriggeredOk(m, pc) && (Resizing(pc) ==> ResizingOk(m, pc))
    requires pc.RsRead? || pc.RsTry? || pc.RsCreate? || pc.RsLock? || pc.RsPublish? || pc.RsRelease?
    ensures var v := StepThread(m, pc, choice); Triggered(v.pc) ==> TriggeredOk(v.m, v.pc)
  {
    hide StepHolder, StepFree;
    hide Agreed, Bound, WellFormed, CopiedUpTo, Closed;
  }

  lemma CopierTriggers(m: Mem, pc: Pc, choice: Choice)
    requires MemOk(m) && (pc.RsCopy? || pc.RsCheck? || pc.RsSwap?)
    requires TriggeredOk(m, pc) && ResizingOk(m, pc)
    ensures var v := StepThread(m, pc, choice); Triggered(v.pc) ==> TriggeredOk(v.m, v.pc)
  {
    hide StepHolder, StepFree;
    if pc.RsCopy? { CopyStep(m, pc); }
    hide Agreed, Bound, WellFormed, CopiedUpTo, Closed, Grows, NewLocks;
  }

  lemma NotTriggered(m: Mem, pc: Pc, choice: Choice)
    requires !Triggered(pc) && !pc.Count?
    ensures !Triggered(StepThread(m, pc, choice).pc)
  {
    hide Hash, PutSeq, Filled, Locked, BinOf, WithBin;
  }

  lemma SelfTriggeredOk(m: Mem, pc: Pc, choice: Choice)
    requires MemOk(m) && ThreadOk(m, pc)
    ensures var v := StepThread(m, pc, choice); Triggered(v.pc) ==> TriggeredOk(v.m, v.pc)
  {
    assert HasVersion(m, m.cur);
    hide MemOk, ReadOk, HoldsOk, PendingOk, TriggeredOk, ResizingOk;
    if pc.Count? || pc.Link? || pc.Release? {
      hide StepThread;
      HolderTriggers(m, pc, choice);
    } else if pc.RsCopy? || pc.RsCheck? || pc.RsSwap? {
      hide StepThread;
      CopierTriggers(m, pc, choice);
    } else if Triggered(pc) {
      hide StepThread;
      ResizerTriggers(m, pc, choice);
    } else {
      hide StepThread;
      NotTriggered(m, pc, choice);
    }
  }

  lemma SelfOk(m: Mem, pc: Pc, choice: Choice)
    requires MemOk(m) && ThreadOk(m, pc)
    ensures var v := StepThread(m, pc, choice); ThreadOk(v.m, v.pc)
  {
    SelfReadOk(m, pc, choice);
    SelfHoldsOk(m, pc, choice);
    SelfPendingOk(m, pc, choice);
    SelfResizingOk(m, pc, choice);
    SelfTriggeredOk(m, pc, choice);
    hide StepThread, MemOk, ReadOk, HoldsOk, PendingOk, TriggeredOk, ResizingOk;
  }

  // ----- the other threads

  lemma OtherReadOk(m: Mem, m': Mem, q: Pc)
    requires MemOk(m) && Grows(m, m') && ReadOk(m, q)
    ensures ReadOk(m', q)
  {
    if q.GetScan? && q.known {
      var j :| q.i <= j && At(BinOf(m, q.v, q.key).slots, j, q.key);
      assert At(BinOf(m', q.v, q.key).slots, j, q.key) by { hide Hash, Agreed; }
    }
    hide Hash, Agreed, WellFormed, Bound;
  }

  lemma BinElsewhere(m: Mem, b: nat, bin: Bin, key: nat)
    requires HasVersion(m, m.cur) && b < |m.versions[m.cur].bins| && Hash(|m.versions[m.cur].bins|, key) != b
    ensures var m' := WithBin(m, m.cur, b, bin); m'.cur == m.cur && BinOf(m', m.cur, key) == BinOf(m, m.cur, key)
  {
    hide Hash;
  }

  /** The bucket of another holder stays as it is. */
  lemma BucketStays(m: Mem, p: Pc, choice: Choice, q: Pc)
    requires MemOk(m) && Holds(p) && HoldsOk(m, p) && Holds(q) && HoldsOk(m, q) && Compatible(m, p, q)
    ensures var m' := StepThread(m, p, choice).m;
      m'.cur == m.cur && BinOf(m', m.cur, q.key) == BinOf(m, m.cur, q.key)
  {
    hide StepResize, StepFree;
    var b := Hash(|m.versions[m.cur].bins|, p.key);
    var m' := StepThread(m, p, choice).m;
    hide Agreed, Bound, WellFormed, Closed, Hash;
    if p.Scan? || p.Count? {
      assert m'.versions[m.cur].bins == m.versions[m.cur].bins;
    } else {
      var bin := m'.versions[m.cur].bins[b];
      assert m' == WithBin(m, m.cur, b, bin);
      BinElsewhere(m, b, bin, q.key);
    }
  }

  lemma AcquireElsewhere(m: Mem, p: Pc, q: Pc)
    requires MemOk(m) && p.Acquire? && ReadOk(m, p) && Holds(q) && HoldsOk(m, q)
    ensures var v := StepThread(m, p, Return);
      && v.m.cur == m.cur && BinOf(v.m, m.cur, q.key) == BinOf(m, m.cur, q.key)
      && (Holds(v.pc) ==> v.pc.key == p.key)
      && (Holds(v.pc) ==> Hash(|m.versions[m.cur].bins|, p.key) != Hash(|m.versions[m.cur].bins|, q.key))
  {
    hide StepHolder, StepResize, Agreed;
    assert q.v == m.cur && BinOf(m, m.cur, q.key).lock == Update;
    assert HasVersion(m, m.cur);
    hide HoldsOk;
    if BinOf(m, p.v, p.key).lock == Free {
      FreeIsCurrent(m, p.v, p.key);
      hide MemOk, ReadOk;
      var b := Hash(|m.versions[m.cur].bins|, p.key);
      assert Hash(|m.versions[m.cur].bins|, q.key) != b;
      hide Hash;
      BinElsewhere(m, b, BinOf(m, m.cur, p.key).(lock := Update), q.key);
    } else {
      hide MemOk, ReadOk, Hash, BinOf;
    }
  }

  lemma ResizerElsewhere(m: Mem, p: Pc, choice: Choice, q: Pc)
    requires MemOk(m) && (p.RsTry? || (Resizing(p) && ResizingOk(m, p))) && Holds(q) && HoldsOk(m, q)
    ensures var m' := StepThread(m, p, choice).m;
      m'.cur == m.cur && BinOf(m', m.cur, q.key) == BinOf(m, m.cur, q.key)
  {
    hide StepHolder, StepFree;
    var m' := StepThread(m, p, choice).m;
    var b := Hash(|m.versions[m.cur].bins|, q.key);
    hide Agreed, Bound, WellFormed, CopiedUpTo, Hash, Inserted;
    assert m.versions[m.cur].bins[b].lock == Update;
    hide HoldsOk;
    if p.RsCopy? {
      hide StepThread;
      CopyStep(m, p);
      CopyAlone(m, p, choice);
    } else if p.RsLock? {
      assert HasVersion(m, m.cur) && p.o == m.cur;
      hide MemOk, ResizingOk;
      if p.b < |m.versions[p.o].bins| && m.versions[p.o].bins[p.b].lock == Free {
        BinElsewhere(m, p.b, m.versions[p.o].bins[p.b].(lock := Resize), q.key);
      }
    } else if p.RsPublish? {
      assert m'.versions[m.cur] == m.versions[m.cur];
    } else if p.RsSwap? {
      assert false;
    }
  }

  lemma CopyAlone(m: Mem, p: Pc, choice: Choice)
    requires p.RsCopy?
    ensures StepThread(m, p, choice) == StepThread(m, p, Return)
  {
    hide PutSeq;
  }

  lemma OtherHoldsOk(m: Mem, p: Pc, choice: Choice, q: Pc)
    requires MemOk(m) && ThreadOk(m, p) && Holds(q) && HoldsOk(m, q) && Compatible(m, p, q)
    ensures var m' := StepThread(m, p, choice).m; m'.cur == m.cur && HoldsOk(m', q)
  {
    hide MemOk, ReadOk, PendingOk, TriggeredOk, ResizingOk, Compatible;
    var m' := StepThread(m, p, choice).m;
    if Holds(p) {
      BucketStays(m, p, choice, q);
      hide StepThread, BinOf;
    } else if p.Acquire? {
      AcquireElsewhere(m, p, q);
      hide StepThread, BinOf;
    } else if p.RsTry? || Resizing(p) {
      ResizerElsewhere(m, p, choice, q);
      hide StepThread, BinOf;
    } else {
      assert m' == m;
      hide StepThread, BinOf;
    }
  }

  lemma OtherPendingOk(m: Mem, p: Pc, m': Mem, q: Pc)
    requires Pending(q) && PendingOk(m, q) && Compatible(m, p, q) && Grows(m, m') && NewLocks(m, p, m')
    ensures PendingOk(m', q)
  {
    hide Agreed;
  }

  /** A thread without resize_lock leaves the table under construction, the closed buckets
      and h->ht alone. */
  ghost predicate Aside(m: Mem, m': Mem) {
    && m'.cur == m.cur < |m.versions| == |m'.versions| && (m.resizing ==> m'.resizing)
    && |m'.versions[m.cur].bins| == |m.versions[m.cur].bins|
    && (forall v :: m.cur < v < |m.versions| ==> m'.versions[v] == m.versions[v])
    && (forall b :: 0 <= b < |m.versions[m.cur].bins| ==>
          (m'.versions[m.cur].bins[b].lock == Resize <==> m.versions[m.cur].bins[b].lock == Resize))
    && (forall b :: 0 <= b < |m.versions[m.cur].bins| && m.versions[m.cur].bins[b].lock == Resize ==>
          m'.versions[m.cur].bins[b] == m.versions[m.cur].bins[b])
  }

  lemma BinAside(m: Mem, b: nat, bin: Bin)
    requires m.cur < |m.versions| && b < |m.versions[m.cur].bins|
    requires m.versions[m.cur].bins[b].lock != Resize && bin.lock != Resize
    ensures Aside(m, WithBin(m, m.cur, b, bin))
  {
  }

  lemma StepAside(m: Mem, p: Pc, choice: Choice)
    requires MemOk(m) && ThreadOk(m, p) && !Resizing(p)
    ensures Aside(m, StepThread(m, p, choice).m)
  {
    hide Agreed, Bound, WellFormed, Closed, PendingOk, ResizingOk, TriggeredOk;
    var m' := StepThread(m, p, choice).m;
    if Holds(p) && !p.Scan? && !p.Count? {
      var b := Hash(|m.versions[m.cur].bins|, p.key);
      assert m.versions[m.cur].bins[b].lock == Update by { assert HoldsOk(m, p); }
      hide Hash, MemOk;
      BinAside(m, b, m'.versions[m.cur].bins[b]);
    } else if p.Acquire? && m' != m {
      FreeIsCurrent(m, p.v, p.key);
      var b := Hash(|m.versions[m.cur].bins|, p.key);
      hide Hash, MemOk;
      BinAside(m, b, m'.versions[m.cur].bins[b]);
    } else {
      assert p.Scan? || p.Count? || p.RsTry? || m' == m;
    }
  }

  /** Copying does not look beyond the closed buckets. */
  lemma CopiedFrame(t: Table, t': Table, b: nat, i: nat, u: Table)
    requires CopiedUpTo(t, b, i, u) && |t'| == |t|
    requires forall c :: 0 <= c < |t| && (c < b || (c == b && i > 0)) ==> t'[c] == t[c]
    ensures CopiedUpTo(t', b, i, u)
  {
    hide Hash;
    forall c, j
      ensures SeenAt(t', b, i, c, j) == SeenAt(t, b, i, c, j)
      ensures SeenAt(t, b, i, c, j) ==> t'[c] == t[c]
    {
    }
    forall k, v | k != 0 && Binds(u[Hash(|u|, k)], k, v)
      ensures exists c, j :: SeenAt(t', b, i, c, j) && t'[c][j] == Slot(k, v)
    {
      var c, j :| SeenAt(t, b, i, c, j) && t[c][j] == Slot(k, v);
      assert SeenAt(t', b, i, c, j);
    }
  }

  lemma ClosedAside(m: Mem, m': Mem, n: nat)
    requires Aside(m, m')
    ensures Closed(m', n) == Closed(m, n)
  {
  }

  lemma OtherCopyingOk(m: Mem, m': Mem, q: Pc)
    requires MemOk(m) && Aside(m, m') && Copying(q) && CopyingOk(m, q)
    ensures CopyingOk(m', q)
  {
    var n := Passed(m, q);
    ClosedAside(m, m', n);
    var t, t', u := Value(m.versions[q.o]), Value(m'.versions[q.o]), Value(m.versions[q.w]);
    assert forall c :: 0 <= c < n && c < |t| ==> t'[c] == t[c];
    hide Closed, MemOk;
    CopiedFrame(t, t', if q.RsLock? || q.RsCopy? then q.b else |t|, if q.RsCopy? then q.i else 0, u);
    hide CopiedUpTo;
  }

  lemma OtherResizingOk(m: Mem, p: Pc, choice: Choice, q: Pc)
    requires MemOk(m) && ThreadOk(m, p) && Resizing(q) && ResizingOk(m, q) && Compatible(m, p, q)
    ensures ResizingOk(StepThread(m, p, choice).m, q)
  {
    StepAside(m, p, choice);
    hide StepThread, ThreadOk;
    var m' := StepThread(m, p, choice).m;
    if Copying(q) {
      OtherCopyingOk(m, m', q);
    } else {
      ClosedAside(m, m', 0);
    }
    hide CopyingOk, Closed, MemOk;
  }

  /** A thread that did not trigger a resize leaves h->ht alone, and counts only upwards. */
  lemma StepCounts(m: Mem, p: Pc, choice: Choice)
    requires MemOk(m) && ThreadOk(m, p) && !Triggered(p)
    ensures var m' := StepThread(m, p, choice).m;
      && m'.cur == m.cur && Expands(m', m.cur) >= Expands(m, m.cur)
      && Threshold(m', m.cur) == Threshold(m, m.cur)
  {
    hide Agreed, Bound, WellFormed, Closed, PendingOk, ResizingOk, ReadOk, Hash;
  }

  lemma OtherTriggeredOk(m: Mem, p: Pc, choice: Choice, q: Pc)
    requires MemOk(m) && ThreadOk(m, p) && Triggered(q) && TriggeredOk(m, q) && Compatible(m, p, q)
    ensures TriggeredOk(StepThread(m, p, choice).m, q)
  {
    StepCounts(m, p, choice);
    hide StepThread, ThreadOk, MemOk;
  }

  lemma OtherOk(m: Mem, p: Pc, choice: Choice, q: Pc)
    requires MemOk(m) && ThreadOk(m, p) && ThreadOk(m, q) && Compatible(m, p, q)
    ensures ThreadOk(StepThread(m, p, choice).m, q)
  {
    var m' := StepThread(m, p, choice).m;
    MemStep(m, p, choice);
    OtherReadOk(m, m', q);
    if Holds(q) { OtherHoldsOk(m, p, choice, q); }
    if Pending(q) { OtherPendingOk(m, p, m', q); }
    if Resizing(q) { OtherResizingOk(m, p, choice, q); }
    if Triggered(q) { OtherTriggeredOk(m, p, choice, q); }
    hide StepThread, MemOk, Compatible, Grows, NewLocks, ReadOk, HoldsOk, PendingOk, ResizingOk, TriggeredOk;
  }

  // ----- no two threads clash

  lemma StillCompatible(m: Mem, m': Mem, p: Pc, q: Pc)
    requires Compatible(m, p, q) && HasVersion(m, m.cur)
    requires Holds(p) && Holds(q) ==> m'.cur == m.cur && Grows(m, m')
    ensures Compatible(m', p, q)
  {
    hide Hash;
  }

  lemma NewHolder(m: Mem, p: Pc, choice: Choice, q: Pc)
    requires MemOk(m) && ThreadOk(m, p) && ThreadOk(m, q) && Compatible(m, p, q)
    requires Holds(q)
    ensures var v := StepThread(m, p, choice);
      Holds(v.pc) ==> Hash(|m.versions[m.cur].bins|, v.pc.key) != Hash(|m.versions[m.cur].bins|, q.key)
  {
    hide StepThread, Agreed, PendingOk, ResizingOk, TriggeredOk, Hash;
    assert HasVersion(m, m.cur);
    hide MemOk;
    if p.Acquire? {
      AcquireElsewhere(m, p, q);
      AcquireAlone(m, p, choice);
    } else {
      hide ReadOk, HoldsOk;
      KeepsBucket(m, p, choice);
    }
  }

  /** Taking a bucket lock does not depend on the scheduler's choice. */
  lemma AcquireAlone(m: Mem, p: Pc, choice: Choice)
    requires p.Acquire?
    ensures StepThread(m, p, choice) == StepThread(m, p, Return)
  {
    hide Hash, Locked, BinOf;
  }

  lemma NewPending(m: Mem, p: Pc, choice: Choice, q: Pc)
    requires Pending(q) && PendingOk(m, q) && Compatible(m, p, q)
    ensures var v := StepThread(m, p, choice); Pending(v.pc) ==> v.pc.lock != q.lock
  {
    hide Agreed, Hash;
    if !(p.StoreVal? || p.Count? || p.Scan?) {
      hide StepThread;
      NotPending(m, p, choice);
    } else {
      hide Filled, BinOf, Counted;
    }
  }

  lemma NewResizing(m: Mem, p: Pc, choice: Choice, q: Pc)
    requires Resizing(q) && m.resizing && !Resizing(p)
    ensures !Resizing(StepThread(m, p, choice).pc)
  {
    hide Hash, PutSeq, Filled, Locked, BinOf, WithBin;
  }

  lemma NewTriggered(m: Mem, p: Pc, choice: Choice, q: Pc)
    requires HasVersion(m, m.cur) && Triggered(q) && TriggeredOk(m, q) && !Triggered(p)
    requires p.Count? ==> p.u == m.cur
    ensures !Triggered(StepThread(m, p, choice).pc)
  {
    if !p.Count? {
      hide StepThread;
      NotTriggered(m, p, choice);
    }
  }

  lemma NewClaims(m: Mem, p: Pc, choice: Choice, q: Pc)
    requires MemOk(m) && ThreadOk(m, p) && ThreadOk(m, q) && Compatible(m, p, q)
    ensures var v := StepThread(m, p, choice);
      && (Pending(v.pc) && Pending(q) ==> v.pc.lock != q.lock)
      && !(Resizing(v.pc) && Resizing(q))
      && !(Triggered(v.pc) && Triggered(q))
  {
    hide StepThread;
    assert HasVersion(m, m.cur);
    assert p.Count? ==> p.u == m.cur by { assert p.Count? ==> HoldsOk(m, p); }
    assert Resizing(q) ==> m.resizing;
    hide MemOk;
    if Pending(q) { NewPending(m, p, choice, q); }
    if Resizing(q) { NewResizing(m, p, choice, q); }
    if Triggered(q) { NewTriggered(m, p, choice, q); }
  }

  lemma MoverCompatible(m: Mem, p: Pc, choice: Choice, q: Pc)
    requires MemOk(m) && ThreadOk(m, p) && ThreadOk(m, q) && Compatible(m, p, q)
    ensures var v := StepThread(m, p, choice); Compatible(v.m, v.pc, q) && Compatible(v.m, q, v.pc)
  {
    hide StepThread, Hash, NewLocks, ReadOk, PendingOk, ResizingOk, TriggeredOk;
    var v := StepThread(m, p, choice);
    NewClaims(m, p, choice, q);
    if Holds(q) {
      MemStep(m, p, choice);
      NewHolder(m, p, choice, q);
      OtherHoldsOk(m, p, choice, q);
    }
    assert HasVersion(m, m.cur);
    hide MemOk, ThreadOk;
  }

  // ----- every run

  lemma {:induction false} StepKeepsInv(s: State, e: Event)
    requires Inv(s)
    ensures Inv(Step(s, e))
  {
    if e.t < |s.th| {
      var m, p := s.m, s.th[e.t];
      var v := StepThread(m, p, e.choice);
      var s' := Step(s, e);
      hide StepThread, MemOk, ThreadOk, Compatible, Grows, NewLocks;
      MemStep(m, p, e.choice);
      SelfOk(m, p, e.choice);
      forall t | 0 <= t < |s'.th|
        ensures ThreadOk(s'.m, s'.th[t])
      {
        if t != e.t { OtherOk(m, p, e.choice, s.th[t]); }
      }
      forall t, u | 0 <= t < |s'.th| && 0 <= u < |s'.th| && t != u
        ensures Compatible(s'.m, s'.th[t], s'.th[u])
      {
        if t == e.t {
          MoverCompatible(m, p, e.choice, s.th[u]);
        } else if u == e.t {
          MoverCompatible(m, p, e.choice, s.th[t]);
        } else {
          BystandersCompatible(m, p, e.choice, s.th[t], s.th[u]);
        }
      }
    }
  }

  lemma BystandersCompatible(m: Mem, p: Pc, choice: Choice, q: Pc, r: Pc)
    requires MemOk(m) && ThreadOk(m, p) && ThreadOk(m, q) && Compatible(m, p, q) && Compatible(m, q, r)
    ensures Compatible(StepThread(m, p, choice).m, q, r)
  {
    MemStep(m, p, choice);
    if Holds(q) { OtherHoldsOk(m, p, choice, q); }
    hide StepThread, ThreadOk, NewLocks, Compatible, HoldsOk;
    StillCompatible(m, StepThread(m, p, choice).m, q, r) by { assert MemOk(m); }
  }

  lemma InitInv(n: nat, numBuckets: nat)
    requires numBuckets >= 1
    ensures Inv(Init(n, numBuckets))
  {
    var s := Init(n, numBuckets);
    NewVersionOk(numBuckets);
    var t := Value(s.m.versions[0]);
    forall k: nat, l: nat
      ensures !Bound(t, k, l)
    {
      assert t[Hash(|t|, k)] == EMPTY.slots;
    }
    hide Hash, Bound, WellFormed;
  }

  lemma {:induction false} Reachable(n: nat, numBuckets: nat, sched: seq<Event>)
    requires numBuckets >= 1
    ensures Inv(Run(Init(n, numBuckets), sched))
  {
    if sched == [] {
      InitInv(n, numBuckets);
    } else {
      Reachable(n, numBuckets, sched[..|sched| - 1]);
      StepKeepsInv(Run(Init(n, numBuckets), sched[..|sched| - 1]), sched[|sched| - 1]);
    }
  }

  // ----- what users of the table see

  lemma AgreedMap(m: Mem, k: nat, l: nat)
    requires MemOk(m)
    ensures Agreed(m, k, l) <==> k in Map(m) && Map(m)[k] == l
  {
    MeaningBound(Value(m.versions[m.cur]), k, l);
    hide Meaning, Bound, WellFormed;
  }

  lemma SameAgreedSameMap(m: Mem, m': Mem)
    requires MemOk(m) && MemOk(m') && SameAgreed(m, m')
    ensures Map(m') == Map(m)
  {
    hide MemOk, Agreed, Map;
    forall k: nat
      ensures k in Map(m') <==> k in Map(m)
      ensures k in Map(m) ==> Map(m')[k] == Map(m)[k]
    {
      if k in Map(m) { AgreedMap(m, k, Map(m)[k]); AgreedMap(m', k, Map(m)[k]); }
      if k in Map(m') { AgreedMap(m', k, Map(m')[k]); AgreedMap(m, k, Map(m')[k]); }
    }
  }

  lemma NotAgreedYet(m: Mem, p: Pc, l: nat)
    requires MemOk(m) && (p.StoreKey? || p.Link?) && HoldsOk(m, p)
    ensures !Agreed(m, p.key, l)
  {
    hide MemOk;
  }

  /** Publishing adds one binding, for a key that had none. */
  lemma PublishAdds(m: Mem, p: Pc)
    requires MemOk(m) && ThreadOk(m, p) && (p.StoreKey? || p.Link?)
    ensures p.key !in Map(m) && Map(StepThread(m, p, Return).m) == Map(m)[p.key := p.lock]
  {
    var m' := StepThread(m, p, Return).m;
    var c := BinOf(m, p.v, p.key).slots;
    PublishStep(m, p, if p.StoreKey? then c[p.hole := c[p.hole].(key := p.key)]
                      else c + [Slot(p.key, p.lock), Slot(0, 0), Slot(0, 0)]);
    forall l: nat
      ensures !Agreed(m, p.key, l)
    {
      NotAgreedYet(m, p, l);
    }
    AddedToMap(m, m', p.key, p.lock);
    hide *;
  }

  lemma AddedToMap(m: Mem, m': Mem, key: nat, lock: nat)
    requires MemOk(m) && MemOk(m') && forall l: nat :: !Agreed(m, key, l)
    requires forall k: nat, l: nat :: Agreed(m', k, l) <==> Agreed(m, k, l) || (k == key && l == lock)
    ensures key !in Map(m) && Map(m') == Map(m)[key := lock]
  {
    hide *;
    if key in Map(m) { AgreedMap(m, key, Map(m)[key]); }
    AgreedMap(m', key, lock);
    forall k: nat
      ensures k in Map(m') <==> k in Map(m)[key := lock]
      ensures k in Map(m') ==> Map(m')[k] == Map(m)[key := lock][k]
    {
      if k in Map(m) { AgreedMap(m, k, Map(m)[k]); AgreedMap(m', k, Map(m)[k]); }
      if k in Map(m') { AgreedMap(m', k, Map(m')[k]); AgreedMap(m, k, Map(m')[k]); }
    }
  }

  lemma QuietStep(m: Mem, p: Pc, choice: Choice)
    requires MemOk(m) && ThreadOk(m, p) && !p.StoreKey? && !p.Link?
    ensures var m' := StepThread(m, p, choice).m; MemOk(m') && Map(m') == Map(m)
  {
    var m' := StepThread(m, p, choice).m;
    MemStep(m, p, choice);
    if p.StoreVal? {
      StoreValStep(m, p);
      hide *;
    } else if p.Count? {
      assert HoldsOk(m, p);
      FlagStep(m, p, m');
      hide *;
    }
    hide MemOk, Agreed, ThreadOk, StepThread, Map;
    assert SameAgreed(m, m');
    SameAgreedSameMap(m, m');
  }

  lemma PublishAlone(m: Mem, p: Pc, choice: Choice)
    requires p.StoreKey? || p.Link?
    ensures StepThread(m, p, choice) == StepThread(m, p, Return)
  {
    hide Hash, Filled, BinOf;
  }

  /** Refinement: the whole table is a map to which every put adds its key at one step, the
      one that publishes it, and with a lock that no other key has. No other step, whether of
      a put, a get or a resize, changes the map. */
  lemma RefinesMap(s: State, e: Event)
    requires Inv(s) && e.t < |s.th|
    ensures var p, s' := s.th[e.t], Step(s, e);
      if p.StoreKey? || p.Link?
      then p.key !in Map(s.m) && p.lock !in Map(s.m).Values && Map(s'.m) == Map(s.m)[p.key := p.lock]
      else Map(s'.m) == Map(s.m)
  {
    var p := s.th[e.t];
    hide Map, MemOk, Agreed;
    assert ThreadOk(s.m, p);
    if p.StoreKey? || p.Link? {
      PublishAdds(s.m, p);
      PublishAlone(s.m, p, e.choice);
      assert PendingOk(s.m, p);
      hide StepThread, ThreadOk;
      forall k: nat
        ensures k in Map(s.m) ==> Map(s.m)[k] != p.lock
      {
        if k in Map(s.m) { AgreedMap(s.m, k, Map(s.m)[k]); }
      }
    } else {
      hide StepThread, ThreadOk;
      QuietStep(s.m, p, e.choice);
    }
  }

  /** No binding is ever lost or changed. */
  ghost predicate Kept(m: Mem, m': Mem) {
    forall k: nat :: k in Map(m) ==> k in Map(m') && Map(m')[k] == Map(m)[k]
  }

  lemma {:induction false} RunKeeps(s: State, sched: seq<Event>)
    requires Inv(s)
    ensures Inv(Run(s, sched)) && Kept(s.m, Run(s, sched).m)
  {
    if sched != [] {
      var before := Run(s, sched[..|sched| - 1]);
      RunKeeps(s, sched[..|sched| - 1]);
      StepKeepsInv(before, sched[|sched| - 1]);
      if sched[|sched| - 1].t < |before.th| { RefinesMap(before, sched[|sched| - 1]); }
      hide Map, Inv, StepThread;
    }
  }

  /** Whatever the interleaving and however many resizes lie between, two puts return the
      same lock exactly when they were given the same key. */
  lemma PutsAgree(n: nat, numBuckets: nat, sched: seq<Event>, more: seq<Event>, t: nat, u: nat)
    requires numBuckets >= 1
    requires var s := Run(Init(n, numBuckets), sched);
      t < |s.th| && s.th[t].PutDone? && u < |Run(s, more).th| && Run(s, more).th[u].PutDone?
    ensures var s := Run(Init(n, numBuckets), sched);
      var p, q := s.th[t], Run(s, more).th[u];
      p.lock != 0 && (p.key == q.key <==> p.lock == q.lock)
  {
    var s := Run(Init(n, numBuckets), sched);
    var s' := Run(s, more);
    var p, q := s.th[t], s'.th[u];
    Reachable(n, numBuckets, sched);
    RunKeeps(s, more);
    assert Agreed(s.m, p.key, p.lock) by { assert ThreadOk(s.m, p); }
    assert Agreed(s'.m, q.key, q.lock) by { assert ThreadOk(s'.m, q); }
    AgreedMap(s.m, p.key, p.lock);
    AgreedMap(s'.m, p.key, p.lock);
    AgreedMap(s'.m, q.key, q.lock);
    hide Map, ThreadOk, Agreed, Run;
  }

  /** A get that begins once its key is in the table finds the lock of that key. */
  lemma GetFinds(n: nat, numBuckets: nat, sched: seq<Event>, t: nat)
    requires numBuckets >= 1
    requires var s := Run(Init(n, numBuckets), sched); t < |s.th| && s.th[t].GetDone?
    ensures var s := Run(Init(n, numBuckets), sched);
      var p := s.th[t];
      (p.known ==> p.lock != 0) && (p.lock != 0 ==> p.key in Map(s.m) && Map(s.m)[p.key] == p.lock)
  {
    var s := Run(Init(n, numBuckets), sched);
    Reachable(n, numBuckets, sched);
    assert ThreadOk(s.m, s.th[t]);
    AgreedMap(s.m, s.th[t].key, s.th[t].lock);
    hide Map, Run;
  }

  /** No key is twice in a table, and no table, however old, contradicts the current one. */
  lemma OldTablesAgree(n: nat, numBuckets: nat, sched: seq<Event>, v: nat, key: nat)
    requires numBuckets >= 1
    requires v <= Run(Init(n, numBuckets), sched).m.cur
    ensures var m := Run(Init(n, numBuckets), sched).m;
      && v < |m.versions| && WellFormed(Value(m.versions[v]))
      && (key in Meaning(Value(m.versions[v])) ==> key in Map(m) && Map(m)[key] == Meaning(Value(m.versions[v]))[key])
  {
    var m := Run(Init(n, numBuckets), sched).m;
    Reachable(n, numBuckets, sched);
    var t := Value(m.versions[v]);
    if key in Meaning(t) {
      MeaningBound(t, key, Meaning(t)[key]);
      AgreedMap(m, key, Meaning(t)[key]);
    }
    hide Map, Run, Meaning, WellFormed, Bound;
  }

  /** The tables that the resizes of a run started from, in order. */
  function Sources(s: State, sched: seq<Event>): seq<nat> {
    if sched == [] then []
    else
      var before, e := Run(s, sched[..|sched| - 1]), sched[|sched| - 1];
      Sources(s, sched[..|sched| - 1]) +
      if e.t < |before.th| && before.th[e.t].RsCreate? then [before.th[e.t].o] else []
  }

  /** Every table is resized at most once, and the tables form one chain: the i-th resize
      turns table i into table i + 1. */
  lemma {:induction false} ResizesInOrder(n: nat, numBuckets: nat, sched: seq<Event>)
    requires numBuckets >= 1
    ensures var src := Sources(Init(n, numBuckets), sched);
      && |Run(Init(n, numBuckets), sched).m.versions| == |src| + 1
      && forall i :: 0 <= i < |src| ==> src[i] == i
  {
    if sched != [] {
      var before := Run(Init(n, numBuckets), sched[..|sched| - 1]);
      var e := sched[|sched| - 1];
      ResizesInOrder(n, numBuckets, sched[..|sched| - 1]);
      Reachable(n, numBuckets, sched[..|sched| - 1]);
      if e.t < |before.th| {
        assert ThreadOk(before.m, before.th[e.t]);
        CountsVersions(before.m, before.th[e.t], e.choice);
      }
      hide Inv, StepThread;
    }
  }

  lemma CountsVersions(m: Mem, p: Pc, choice: Choice)
    requires MemOk(m) && ThreadOk(m, p)
    ensures |StepThread(m, p, choice).m.versions| == |m.versions| + if p.RsCreate? then 1 else 0
    ensures p.RsCreate? ==> p.o + 1 == |m.versions|
  {
    NoNewVersion(m, p, choice);
    assert p.RsCreate? ==> ResizingOk(m, p) && TriggeredOk(m, p);
    hide StepThread, MemOk, ReadOk, HoldsOk, PendingOk, CopyingOk, Closed;
  }

  lemma NoNewVersion(m: Mem, p: Pc, choice: Choice)
    ensures |StepThread(m, p, choice).m.versions| == |m.versions| + if p.RsCreate? then 1 else 0
  {
    hide Hash, BinOf;
  }

  /** The resizer works on the current table, whose buckets are copied only once closed, and
      it never meets a bucket that somebody else closed: it would skip that bucket. */
  lemma ResizerClosesAll(n: nat, numBuckets: nat, sched: seq<Event>, t: nat)
    requires numBuckets >= 1
    requires var s := Run(Init(n, numBuckets), sched); t < |s.th| && s.th[t].RsLock?
    ensures var s := Run(Init(n, numBuckets), sched);
      var p := s.th[t];
      && p.o == s.m.cur < |s.m.versions| && p.b <= |s.m.versions[p.o].bins|
      && forall b :: 0 <= b < |s.m.versions[p.o].bins| ==> (s.m.versions[p.o].bins[b].lock == Resize <==> b < p.b)
  {
    var s := Run(Init(n, numBuckets), sched);
    Reachable(n, numBuckets, sched);
    assert ThreadOk(s.m, s.th[t]);
    hide Run;
  }
}
