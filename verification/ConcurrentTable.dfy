/** The lock table of src/clht_lock_pointer.c under any number of threads that put and get:
    lock-free scans, per-bucket FREE/UPDATE/RESIZE locks, and resizing by copying every
    bucket before the new table replaces the old one. Every access to shared memory is one
    step; the chain of a bin is the sequence of its entries.

    The table under construction is private to the resizer until it becomes current, so
    each of its insertions is one step. */
module ConcurrentTable {
  import opened Tables

  datatype Lock = Free | Update | Resize
  datatype Bin = Bin(lock: Lock, slots: Slots)

  /** clht_lp_hashtable_s; `replaced` tells whether table_new is set. */
  datatype Version = Version(bins: seq<Bin>, expands: nat, threshold: nat, replaced: bool)

  /** `versions` are the tables in the order of their creation, `cur` is the one h->ht points
      to, and `locks` counts the locks allocated so far. */
  datatype Mem = Mem(versions: seq<Version>, cur: nat, resizing: bool, locks: nat)

  datatype Pc =
    | Idle
      // clht_lp_put_type
    | PutRead(key: nat)
    | PutScan(key: nat, v: nat, i: nat)
    | PutVal(key: nat, v: nat, i: nat)
      // clht_lp_put_impl: `v` is the table of the bucket, `u` the last value read of h->ht
    | ImplRead(key: nat, v: nat)
    | Acquire(key: nat, v: nat, u: nat)
    | Wait(key: nat, u: nat)
    | Retry(key: nat)
    | Scan(key: nat, v: nat, u: nat, i: nat, hole: int)
    | FoundRelease(key: nat, v: nat, i: nat)
    | FoundVal(key: nat, v: nat, i: nat)
    | StoreVal(key: nat, v: nat, u: nat, hole: int, lock: nat)
    | StoreKey(key: nat, v: nat, u: nat, hole: int, lock: nat)
    | Count(key: nat, v: nat, u: nat, lock: nat)
    | Link(key: nat, v: nat, u: nat, lock: nat, resize: bool)
    | Release(key: nat, v: nat, u: nat, lock: nat, resize: bool)
      // ht_status and ht_resize_pes, called with the result of the put in hand: `trigger` is
      // the table whose expansions asked for it (no step looks at it)
    | RsRead(key: nat, lock: nat, trigger: nat)
    | RsTry(key: nat, lock: nat, o: nat)
    | RsCreate(key: nat, lock: nat, o: nat)
    | RsLock(key: nat, lock: nat, o: nat, w: nat, b: nat)
    | RsCopy(key: nat, lock: nat, o: nat, w: nat, b: nat, i: nat)
    | RsCheck(key: nat, lock: nat, o: nat, w: nat)
    | RsSwap(key: nat, lock: nat, o: nat, w: nat, again: bool)
    | RsPublish(key: nat, lock: nat, o: nat, w: nat, again: bool)
    | RsRelease(key: nat, lock: nat, w: nat, again: bool)
    | PutDone(key: nat, lock: nat)
      // clht_lp_get on h->ht: `known` tells whether the key was in the table when h->ht was
      // read (no step looks at it)
    | GetRead(key: nat)
    | GetScan(key: nat, v: nat, i: nat, known: bool)
    | GetVal(key: nat, v: nat, i: nat, known: bool)
    | GetDone(key: nat, lock: nat, known: bool)

  datatype State = State(m: Mem, th: seq<Pc>)
  datatype View = View(m: Mem, pc: Pc)

  /** `buckets` is one less than the number of buckets of the next table. */
  datatype Choice = Put(key: nat) | Get(key: nat) | Return | Advance(buckets: nat)
  datatype Event = Move(t: nat, choice: Choice)

  // ----- memory

  const EMPTY := Bin(Free, [Slot(0, 0), Slot(0, 0), Slot(0, 0)])

  /** clht_lp_hashtable_create */
  function NewVersion(numBuckets: nat): Version {
    Version(seq(numBuckets, i => EMPTY), 0, numBuckets, false)
  }

  function Value(version: Version): (t: Table)
    ensures |t| == |version.bins|
  {
    seq(|version.bins|, b requires 0 <= b < |version.bins| => version.bins[b].slots)
  }

  predicate HasVersion(m: Mem, v: nat) {
    v < |m.versions| && |m.versions[v].bins| >= 1
  }

  /** The bin of a key in table `v`. */
  function BinOf(m: Mem, v: nat, key: nat): Bin {
    if HasVersion(m, v) then m.versions[v].bins[Hash(|m.versions[v].bins|, key)] else EMPTY
  }

  function WithBin(m: Mem, v: nat, b: nat, bin: Bin): Mem {
    if v < |m.versions| && b < |m.versions[v].bins|
    then m.(versions := m.versions[v := m.versions[v].(bins := m.versions[v].bins[b := bin])])
    else m
  }

  function Locked(m: Mem, v: nat, key: nat, lock: Lock): Mem {
    if HasVersion(m, v) then WithBin(m, v, Hash(|m.versions[v].bins|, key), BinOf(m, v, key).(lock := lock)) else m
  }

  function Filled(m: Mem, v: nat, key: nat, slots: Slots): Mem {
    if HasVersion(m, v) then WithBin(m, v, Hash(|m.versions[v].bins|, key), BinOf(m, v, key).(slots := slots)) else m
  }

  function Counted(m: Mem, v: nat): Mem {
    if v < |m.versions|
    then m.(versions := m.versions[v := m.versions[v].(expands := m.versions[v].expands + 1)])
    else m
  }

  function Threshold(m: Mem, v: nat): nat {
    if v < |m.versions| then m.versions[v].threshold else 0
  }

  function Expands(m: Mem, v: nat): nat {
    if v < |m.versions| then m.versions[v].expands else 0
  }

  /** clht_lp_put_seq */
  function PutSeq(m: Mem, w: nat, s: Slot): Mem {
    var c := BinOf(m, w, s.key).slots;
    var h := IndexOf(c, 0);
    if h < |c| then Filled(m, w, s.key, c[h := s])
    else Filled(Counted(m, w), w, s.key, c + [s, Slot(0, 0), Slot(0, 0)])
  }

  // ----- steps

  /** The thread holds a bucket in UPDATE mode. */
  predicate Holds(pc: Pc) {
    pc.Scan? || pc.FoundRelease? || pc.StoreVal? || pc.StoreKey? || pc.Count? || pc.Link? || pc.Release?
  }

  /** The thread is in ht_resize_pes. */
  predicate InResize(pc: Pc) {
    pc.RsRead? || pc.RsTry? || pc.RsCreate? || pc.RsLock? || pc.RsCopy? || pc.RsCheck? || pc.RsSwap? ||
    pc.RsPublish? || pc.RsRelease?
  }

  function StepThread(m: Mem, pc: Pc, choice: Choice): View {
    if Holds(pc) then StepHolder(m, pc)
    else if InResize(pc) then StepResize(m, pc, choice)
    else StepFree(m, pc, choice)
  }

  /** clht_lp_put_impl under the bucket lock. */
  function StepHolder(m: Mem, pc: Pc): View
    requires Holds(pc)
  {
    match pc
    case Scan(key, v, u, i, hole) =>
      var c := BinOf(m, v, key).slots;
      if i < |c| then
        View(m, if c[i].key == key then FoundRelease(key, v, i)
                else Scan(key, v, u, i + 1, if hole < 0 && c[i].key == 0 then i else hole))
      else
        var lock := m.locks + 1;
        View(m.(locks := lock), if hole >= 0 then StoreVal(key, v, u, hole, lock) else Count(key, v, u, lock))
    case FoundRelease(key, v, i) => View(Locked(m, v, key, Free), FoundVal(key, v, i))
    case StoreVal(key, v, u, hole, lock) =>
      var c := BinOf(m, v, key).slots;
      View(if 0 <= hole < |c| then Filled(m, v, key, c[hole := c[hole].(val := lock)]) else m,
           StoreKey(key, v, u, hole, lock))
    case StoreKey(key, v, u, hole, lock) =>
      var c := BinOf(m, v, key).slots;
      View(if 0 <= hole < |c| then Filled(m, v, key, c[hole := c[hole].(key := key)]) else m,
           Release(key, v, u, lock, false))
    case Count(key, v, u, lock) =>
      View(Counted(m, u), Link(key, v, u, lock, Expands(m, u) + 1 == Threshold(m, u)))
    case Link(key, v, u, lock, resize) =>
      View(Filled(m, v, key, BinOf(m, v, key).slots + [Slot(key, lock), Slot(0, 0), Slot(0, 0)]),
           Release(key, v, u, lock, resize))
    case Release(key, v, u, lock, resize) =>
      View(Locked(m, v, key, Free), if resize then RsRead(key, lock, u) else PutDone(key, lock))
  }

  function StepResize(m: Mem, pc: Pc, choice: Choice): View
    requires InResize(pc)
  {
    match pc
    case RsRead(key, lock, trigger) => View(m, RsTry(key, lock, m.cur))
    case RsTry(key, lock, o) =>
      if m.resizing then View(m, PutDone(key, lock)) else View(m.(resizing := true), RsCreate(key, lock, o))
    case RsCreate(key, lock, o) =>
      var n := match choice case Advance(buckets) => buckets + 1 case _ => 1;
      View(m.(versions := m.versions + [NewVersion(n)]), RsLock(key, lock, o, |m.versions|, 0))
    case RsLock(key, lock, o, w, b) =>
      if o < |m.versions| && b < |m.versions[o].bins| then
        var bin := m.versions[o].bins[b];
        match bin.lock
        case Free => View(WithBin(m, o, b, bin.(lock := Resize)), RsCopy(key, lock, o, w, b, 0))
        case Update => View(m, pc)
        case Resize => View(m, RsLock(key, lock, o, w, b + 1))
      else View(m, RsCheck(key, lock, o, w))
    case RsCopy(key, lock, o, w, b, i) =>
      if o < |m.versions| && b < |m.versions[o].bins| && i < |m.versions[o].bins[b].slots| then
        var s := m.versions[o].bins[b].slots[i];
        View(if s.key != 0 then PutSeq(m, w, s) else m, RsCopy(key, lock, o, w, b, i + 1))
      else View(m, RsLock(key, lock, o, w, b + 1))
    case RsCheck(key, lock, o, w) => View(m, RsSwap(key, lock, o, w, Expands(m, w) >= Threshold(m, w)))
    case RsSwap(key, lock, o, w, again) => View(m.(cur := w), RsPublish(key, lock, o, w, again))
    case RsPublish(key, lock, o, w, again) =>
      View(if o < |m.versions| then m.(versions := m.versions[o := m.versions[o].(replaced := true)]) else m,
           RsRelease(key, lock, w, again))
    case RsRelease(key, lock, w, again) =>
      View(m.(resizing := false), if again then RsRead(key, lock, w) else PutDone(key, lock))
  }

  /** Lock-free scans, taking a bucket lock, and the ends of operations. */
  function StepFree(m: Mem, pc: Pc, choice: Choice): View
    requires !Holds(pc) && !InResize(pc)
  {
    match pc
    case Idle =>
      View(m, match choice
              case Put(key) => if key != 0 then PutRead(key) else Idle
              case Get(key) => if key != 0 then GetRead(key) else Idle
              case _ => Idle)
    case PutRead(key) => View(m, PutScan(key, m.cur, 0))
    case PutScan(key, v, i) =>
      var c := BinOf(m, v, key).slots;
      View(m, if i < |c| then if c[i].key == key then PutVal(key, v, i) else PutScan(key, v, i + 1)
              else ImplRead(key, v))
    case PutVal(key, v, i) =>
      var c := BinOf(m, v, key).slots;
      View(m, if i < |c| && c[i].val != 0 then PutDone(key, c[i].val) else ImplRead(key, v))
    case ImplRead(key, v) => View(m, Acquire(key, v, m.cur))
    case Acquire(key, v, u) =>
      (match BinOf(m, v, key).lock
       case Free => View(Locked(m, v, key, Update), Scan(key, v, u, 0, -1))
       case Update => View(m, pc)
       case Resize => View(m, Wait(key, u)))
    case Wait(key, u) => View(m, if u < |m.versions| && m.versions[u].replaced then Retry(key) else pc)
    case Retry(key) => View(m, Acquire(key, m.cur, m.cur))
    case FoundVal(key, v, i) =>
      var c := BinOf(m, v, key).slots;
      View(m, PutDone(key, if i < |c| then c[i].val else 0))
    case PutDone(key, lock) => View(m, if choice.Return? then Idle else pc)
    case GetRead(key) => View(m, GetScan(key, m.cur, 0, key in Map(m)))
    case GetScan(key, v, i, known) =>
      var c := BinOf(m, v, key).slots;
      View(m, if i < |c| then if c[i].key == key then GetVal(key, v, i, known) else GetScan(key, v, i + 1, known)
              else GetDone(key, 0, known))
    case GetVal(key, v, i, known) =>
      var c := BinOf(m, v, key).slots;
      View(m, GetDone(key, if i < |c| then c[i].val else 0, known))
    case GetDone(key, lock, known) => View(m, if choice.Return? then Idle else pc)
  }

  /** What the current table means. */
  function Map(m: Mem): map<nat, nat> {
    if HasVersion(m, m.cur) then Meaning(Value(m.versions[m.cur])) else map[]
  }

  function Step(s: State, e: Event): State {
    if e.t < |s.th| then
      var v := StepThread(s.m, s.th[e.t], e.choice);
      State(v.m, s.th[e.t := v.pc])
    else s
  }

  function Init(n: nat, numBuckets: nat): State {
    State(Mem([NewVersion(numBuckets)], 0, false, 0), seq(n, i => Idle))
  }

  function Run(s: State, sched: seq<Event>): State {
    if sched == [] then s else Step(Run(s, sched[..|sched| - 1]), sched[|sched| - 1])
  }
}
