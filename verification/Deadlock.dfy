/** The deadlock detector of src/clht_lock_pointer.c (debug builds): follow "waits for an
    address, owned by a thread" from the caller until the chain ends or comes back. It runs
    on a snapshot: nobody locks, unlocks or starts to wait meanwhile. */
module Deadlock {
  import Tables
  import opened Sums

  const ENTRIES := 2      // ENTRIES_PER_BUCKET in debug builds
  const MAX_THREADS := 64 // GLS_MAX_NUM_THREDS

  /** The keys and owners of a bucket. */
  datatype Bucket = Bucket(key: seq<nat>, owner: seq<nat>)

  /** A line of the trace: a thread and the address it waits for. */
  datatype Line = Line(id: nat, waitOn: nat)

  predicate SizedBucket(b: Bucket) {
    |b.key| == ENTRIES && |b.owner| == ENTRIES
  }

  predicate Sized(c: seq<Bucket>) {
    forall i :: 0 <= i < |c| ==> SizedBucket(c[i])
  }

  /** The owner recorded with a key, 0 if there is none. */
  function OwnerOf(c: seq<Bucket>, key: nat): nat
    requires Sized(c)
  {
    if c == [] then 0
    else if c[0].key[0] == key then c[0].owner[0]
    else if c[0].key[1] == key then c[0].owner[1]
    else OwnerOf(c[1..], key)
  }

  predicate Absent(b: Bucket, key: nat)
    requires SizedBucket(b)
  {
    b.key[0] != key && b.key[1] != key
  }

  /** No key twice; holes have no owner; owners are thread numbers. */
  predicate WellOwned(c: seq<Bucket>) {
    && Sized(c)
    && (forall i :: 0 <= i < |c| ==> c[i].key[0] == 0 || c[i].key[0] != c[i].key[1])
    && (forall i, j, x :: 0 <= i < j < |c| && 0 <= x < ENTRIES && c[i].key[x] != 0 ==> Absent(c[j], c[i].key[x]))
    && (forall i, x :: 0 <= i < |c| && 0 <= x < ENTRIES ==> c[i].owner[x] <= MAX_THREADS)
    && (forall i, x :: 0 <= i < |c| && 0 <= x < ENTRIES && c[i].key[x] == 0 ==> c[i].owner[x] == 0)
  }

  // ----- chains

  predicate NoneFrom(c: seq<Bucket>, i: nat, key: nat)
    requires Sized(c)
  {
    forall x :: i <= x < |c| ==> Absent(c[x], key)
  }

  lemma {:induction false} OwnerInRange(c: seq<Bucket>, key: nat)
    requires WellOwned(c)
    ensures OwnerOf(c, key) <= MAX_THREADS
  {
    if c != [] { OwnerInRange(c[1..], key); }
  }

  lemma {:induction false} OwnerOfNull(c: seq<Bucket>)
    requires WellOwned(c)
    ensures OwnerOf(c, 0) == 0
  {
    if c != [] { OwnerOfNull(c[1..]); }
  }

  // ----- the waits-for chain

  /** The fields of clht_lp_t that the detector reads. */
  datatype Snapshot = Snapshot(chains: seq<seq<Bucket>>, waiting: seq<nat>)

  predicate Valid(s: Snapshot)
  {
    && |s.chains| >= 1 && |s.waiting| == MAX_THREADS
    && forall b :: 0 <= b < |s.chains| ==> WellOwned(s.chains[b])
  }

  /** The owner of an address. */
  function Owner(s: Snapshot, addr: nat): (o: nat)
    requires Valid(s)
    ensures o <= MAX_THREADS
  {
    OwnerInRange(s.chains[Tables.Hash(|s.chains|, addr)], addr);
    OwnerOf(s.chains[Tables.Hash(|s.chains|, addr)], addr)
  }

  /** The thread that `t` waits for; 0 if it waits for none. */
  function Hop(s: Snapshot, t: nat): (o: nat)
    requires Valid(s)
    ensures o <= MAX_THREADS
  {
    if 1 <= t <= MAX_THREADS then Owner(s, s.waiting[t - 1]) else 0
  }

  function Hops(s: Snapshot, t: nat, k: nat): nat
    requires Valid(s)
  {
    if k == 0 then t else Hop(s, Hops(s, t, k - 1))
  }

  /** clht_lp_ddd_get_owner: `lockOwner` is only overwritten when an owner is found, and
      finding it leaves the inner loop alone, so later buckets are still read. */
  method GetOwner(s: Snapshot, key: nat, lockOwner: nat) returns (addr: nat, owner': nat)
    requires Valid(s)
    ensures if Owner(s, key) == 0 then addr == 0 && owner' == lockOwner
            else owner' == Owner(s, key) && addr == s.waiting[owner' - 1]
  {
    hide Tables.Hash;
    owner' := lockOwner;
    var c := s.chains[Tables.Hash(|s.chains|, key)];
    var owner := 0;
    OwnerInRange(c, key);
    var i := 0;
    while i < |c|
      invariant 0 <= i <= |c|
      invariant owner == 0 ==> owner' == lockOwner && OwnerOf(c, key) == OwnerOf(c[i..], key)
      invariant owner != 0 ==> owner == owner' == OwnerOf(c, key) && NoneFrom(c, i, key)
    {
      var j := 0;
      while j < ENTRIES
        invariant 0 <= j <= ENTRIES && forall x :: 0 <= x < j ==> c[i].key[x] != key
        invariant owner == 0 ==> owner' == lockOwner && OwnerOf(c, key) == OwnerOf(c[i..], key)
        invariant owner != 0 ==> owner == owner' == OwnerOf(c, key) && NoneFrom(c, i, key)
      {
        if c[i].key[j] == key {
          owner := c[i].owner[j];
          if owner != 0 {
            owner' := owner;
            break;
          } else {
            return 0, owner';
          }
        }
        j := j + 1;
      }
      assert c[i..][1..] == c[i + 1..];
      i := i + 1;
    }
    addr := if owner > 0 then s.waiting[owner - 1] else 0;
  }

  // ----- the cycle

  predicate Traced(s: Snapshot, line: Line, myid: nat, k: nat)
    requires Valid(s)
  {
    line.id == Hops(s, myid, k) && 1 <= line.id <= MAX_THREADS && line.waitOn == s.waiting[line.id - 1]
  }

  /** The lines are the chain from the caller back to the caller, with no return in between. */
  predicate IsCycle(s: Snapshot, myid: nat, lines: seq<Line>)
    requires Valid(s)
  {
    && 2 <= |lines| <= MAX_THREADS
    && (forall k :: 0 <= k < |lines| ==> Traced(s, lines[k], myid, k))
    && (forall k :: 0 <= k < |lines| ==> (lines[k].id == myid <==> k == 0 || k == |lines| - 1))
  }

  /** The chain from `myid` comes back to it within the trace. */
  predicate Deadlocked(s: Snapshot, myid: nat)
    requires Valid(s)
  {
    exists k :: 1 <= k < MAX_THREADS && Hops(s, myid, k) == myid
  }

  /** A chain that has ended goes nowhere. */
  lemma {:induction false} Ended(s: Snapshot, t: nat, k: nat, j: nat)
    requires Valid(s) && k <= j && Hops(s, t, k) == 0
    ensures Hops(s, t, j) == 0
  {
    if k < j { Ended(s, t, k, j - 1); }
  }

  /** Nobody owns NULL. */
  lemma NullUnowned(s: Snapshot)
    requires Valid(s)
    ensures Owner(s, 0) == 0
  {
    OwnerOfNull(s.chains[Tables.Hash(|s.chains|, 0)]);
  }

  /** The trace so far: the chain from the caller, which has not come back yet. */
  predicate Tracing(s: Snapshot, myid: nat, lines: seq<Line>)
    requires Valid(s)
  {
    && 1 <= |lines| < MAX_THREADS && lines[0].id == myid
    && (forall k :: 0 <= k < |lines| ==> Traced(s, lines[k], myid, k))
    && (forall k :: 1 <= k < |lines| ==> lines[k].id != myid)
  }

  lemma FirstLine(s: Snapshot, myid: nat)
    requires Valid(s) && 1 <= myid <= MAX_THREADS
    ensures Tracing(s, myid, [Line(myid, s.waiting[myid - 1])])
  {
  }

  /** The last line's address says how the chain goes on. */
  lemma NextHop(s: Snapshot, myid: nat, lines: seq<Line>)
    requires Valid(s) && Tracing(s, myid, lines)
    ensures Hops(s, myid, |lines|) == Owner(s, lines[|lines| - 1].waitOn)
  {
    hide Owner, WellOwned;
    assert Traced(s, lines[|lines| - 1], myid, |lines| - 1);
  }

  lemma Extended(s: Snapshot, myid: nat, lines: seq<Line>, o: nat)
    requires Valid(s) && Tracing(s, myid, lines) && Hops(s, myid, |lines|) == o && 1 <= o <= MAX_THREADS
    ensures var next := lines + [Line(o, s.waiting[o - 1])];
      if o == myid then IsCycle(s, myid, next) else |lines| + 1 < MAX_THREADS ==> Tracing(s, myid, next)
  {
    hide Owner, WellOwned;
    var next := lines + [Line(o, s.waiting[o - 1])];
    assert Traced(s, next[|lines|], myid, |lines|);
  }

  /** What the detector has to find, as far as the next line shows it. */
  lemma Verdict(s: Snapshot, myid: nat, lines: seq<Line>, o: nat)
    requires Valid(s) && Tracing(s, myid, lines) && Hops(s, myid, |lines|) == o <= MAX_THREADS
    ensures o == myid ==> Deadlocked(s, myid)
    ensures o != myid && (o == 0 || s.waiting[o - 1] == 0 || |lines| + 1 == MAX_THREADS) ==> !Deadlocked(s, myid)
  {
    hide Owner, WellOwned, Hop;
    forall k | 1 <= k < |lines|
      ensures Hops(s, myid, k) != myid
    {
      assert Traced(s, lines[k], myid, k);
    }
    if o == 0 {
      NoReturn(s, myid, |lines|);
    } else if o != myid {
      if |lines| + 1 == MAX_THREADS {
        NoReturn(s, myid, |lines| + 1);
      } else if s.waiting[o - 1] == 0 {
        NullNext(s, o);
        NoReturn(s, myid, |lines| + 1);
      }
    }
  }

  lemma NullNext(s: Snapshot, o: nat)
    requires Valid(s) && 1 <= o <= MAX_THREADS && s.waiting[o - 1] == 0
    ensures Hop(s, o) == 0
  {
    NullUnowned(s);
  }

  lemma NoReturn(s: Snapshot, myid: nat, ci: nat)
    requires Valid(s) && 1 <= myid && 1 <= ci && (forall k :: 1 <= k < ci ==> Hops(s, myid, k) != myid)
    requires ci < MAX_THREADS ==> Hops(s, myid, ci) == 0
    ensures !Deadlocked(s, myid)
  {
    forall k | ci <= k < MAX_THREADS
      ensures Hops(s, myid, k) != myid
    {
      Ended(s, myid, ci, k);
    }
  }

  /** The printing loop of clht_lp_ddd_check: it stops when it meets the caller again. */
  method Print(s: Snapshot, myid: nat, trace: array<Line>, ci: nat) returns (lines: seq<Line>)
    requires Valid(s) && ci <= trace.Length && IsCycle(s, myid, trace[..ci])
    ensures lines == trace[..ci]
  {
    var i, twice := 0, 0;
    lines := [];
    while twice != 2
      invariant 0 <= i <= ci && lines == trace[..i]
      invariant twice == if i == 0 then 0 else if i < ci then 1 else 2
      decreases ci - i
    {
      assert trace[i] == trace[..ci][i];
      var id := trace[i].id;
      lines := lines + [trace[i]];
      i := i + 1;
      if id == myid {
        twice := twice + 1;
      }
    }
  }

  /** clht_lp_ddd_check for thread `myid`. `found` is what makes the program exit, and
      `lines` what it has printed by then. */
  method Check(s: Snapshot, myid: nat) returns (found: bool, lines: seq<Line>)
    requires Valid(s) && 1 <= myid <= MAX_THREADS
    ensures found <==> Deadlocked(s, myid)
    ensures found ==> IsCycle(s, myid, lines)
  {
    hide Owner, Hop, Hops, Deadlocked, WellOwned, IsCycle;
    lines := [];
    var trace := new Line[MAX_THREADS](_ => Line(0, 0));
    var waitOn := s.waiting[myid - 1];
    trace[0] := Line(myid, waitOn);
    var ci := 1;
    var owner := 0;
    FirstLine(s, myid);
    assert trace[..1] == [Line(myid, waitOn)];
    hide Tracing;
    while true
      invariant 1 <= ci < MAX_THREADS && Tracing(s, myid, trace[..ci])
      invariant owner == (if ci == 1 then 0 else trace[ci - 1].id) && owner != myid
      invariant waitOn == trace[ci - 1].waitOn
      decreases MAX_THREADS - ci
    {
      ghost var before := trace[..ci];
      NextHop(s, myid, before);
      ghost var o := Hops(s, myid, ci);
      var ownerWaitOn;
      ownerWaitOn, owner := GetOwner(s, waitOn, owner);
      trace[ci] := Line(owner, ownerWaitOn);
      ci := ci + 1;
      assert trace[..ci] == before + [Line(owner, ownerWaitOn)];
      Verdict(s, myid, before, o);
      if o != 0 { Extended(s, myid, before, o); }
      if owner == myid {
        lines := Print(s, myid, trace, ci);
        return true, lines;
      }
      waitOn := ownerWaitOn;
      if !(ci < MAX_THREADS && waitOn != 0) {
        return false, [];
      }
    }
  }

  // ----- which cycles are found

  lemma {:induction false} Parallel(s: Snapshot, t: nat, i: nat, j: nat, d: nat)
    requires Valid(s) && Hops(s, t, i) == Hops(s, t, j)
    ensures Hops(s, t, i + d) == Hops(s, t, j + d)
    decreases d
  {
    hide Hop;
    if d > 0 { Parallel(s, t, i, j, d - 1); }
  }

  lemma HopRange(s: Snapshot, t: nat, i: nat, k: nat)
    requires Valid(s) && 1 <= t <= MAX_THREADS && i <= k && Hops(s, t, k) == t
    ensures 1 <= Hops(s, t, i) <= MAX_THREADS
  {
    if Hops(s, t, i) == 0 { Ended(s, t, i, k); }
    hide Hop;
  }

  /** The first return comes after at most as many hops as there are threads. */
  lemma FirstReturn(s: Snapshot, t: nat, k: nat)
    requires Valid(s) && 1 <= t <= MAX_THREADS && k >= 1 && Hops(s, t, k) == t
    requires forall j :: 1 <= j < k ==> Hops(s, t, j) != t
    ensures k <= MAX_THREADS
  {
    hide Valid, Hop, Hops;
    forall i | 0 <= i < k
      ensures 1 <= Hops(s, t, i) <= MAX_THREADS
    {
      HopRange(s, t, i, k);
    }
    var q := seq(k, i requires 0 <= i < k => Hops(s, t, i) - 1);
    forall i, j | 0 <= i < j < k
      ensures Hops(s, t, i) != Hops(s, t, j)
    {
      if Hops(s, t, i) == Hops(s, t, j) { Parallel(s, t, i, j, k - j); }
    }
    DistinctBounded(q, MAX_THREADS);
  }

  /** The least number of hops that leads back. */
  lemma {:induction false} LeastReturn(s: Snapshot, t: nat, k: nat) returns (m: nat)
    requires Valid(s) && k >= 1 && Hops(s, t, k) == t
    ensures 1 <= m <= k && Hops(s, t, m) == t && forall j :: 1 <= j < m ==> Hops(s, t, j) != t
  {
    hide Valid, Hop, Hops;
    if j :| 1 <= j < k && Hops(s, t, j) == t {
      m := LeastReturn(s, t, j);
    } else {
      m := k;
    }
  }

  predicate Waiting(s: Snapshot, myid: nat, k: nat)
    requires Valid(s)
  {
    k >= 1 && Hops(s, myid, k) == myid
  }

  /** The caller is part of a waits-for cycle of whatever length if and only if the detector
      finds it, or the cycle takes 64 hops. */
  lemma FindsAllButFullCircle(s: Snapshot, myid: nat)
    requires Valid(s) && 1 <= myid <= MAX_THREADS
    ensures (exists k: nat :: Waiting(s, myid, k)) <==> Deadlocked(s, myid) || Waiting(s, myid, MAX_THREADS)
  {
    hide Valid, Hop, Hops;
    if k: nat :| Waiting(s, myid, k) {
      var m := LeastReturn(s, myid, k);
      FirstReturn(s, myid, m);
    }
    if Deadlocked(s, myid) {
      var k :| 1 <= k < MAX_THREADS && Hops(s, myid, k) == myid;
      assert Waiting(s, myid, k);
    }
  }

  // ----- the longest cycle is missed

  lemma {:induction false} OwnerAt(c: seq<Bucket>, i: nat, x: nat)
    requires WellOwned(c) && i < |c| && x < ENTRIES && c[i].key[x] != 0
    ensures OwnerOf(c, c[i].key[x]) == c[i].owner[x]
  {
    if i > 0 {
      assert !Absent(c[i], c[i].key[x]);
      OwnerAt(c[1..], i - 1, x);
    }
  }

  /** Address a is owned by the thread after thread a. */
  function RingBucket(i: nat): Bucket {
    Bucket([2 * i + 1, 2 * i + 2], [(2 * i + 1) % MAX_THREADS + 1, (2 * i + 2) % MAX_THREADS + 1])
  }

  /** All 64 threads in one circle: thread t waits for address t. */
  function Ring(): Snapshot {
    Snapshot([seq(MAX_THREADS / 2, i requires 0 <= i => RingBucket(i))], seq(MAX_THREADS, t => t + 1))
  }

  lemma RingHop(t: nat)
    requires 1 <= t <= MAX_THREADS
    ensures Valid(Ring()) && Hop(Ring(), t) == t % MAX_THREADS + 1
  {
    var c := Ring().chains[0];
    assert WellOwned(c);
    var i, x := (t - 1) / 2, (t - 1) % 2;
    assert c[i] == RingBucket(i);
    OwnerAt(c, i, x);
  }

  lemma {:induction false} CircleHops(s: Snapshot, k: nat)
    requires Valid(s) && (forall t :: 1 <= t <= MAX_THREADS ==> Hop(s, t) == t % MAX_THREADS + 1) && k <= MAX_THREADS
    ensures Hops(s, 1, k) == if k < MAX_THREADS then k + 1 else 1
  {
    hide Valid, Hop;
    if k > 0 { CircleHops(s, k - 1); }
  }

  /** The trace has room for 63 hops: a cycle of all 64 threads goes unreported. */
  lemma FullCircleMissed() returns (s: Snapshot)
    ensures Valid(s) && Hops(s, 1, MAX_THREADS) == 1 && !Deadlocked(s, 1)
  {
    s := Ring();
    forall t | 1 <= t <= MAX_THREADS
      ensures Valid(s) && Hop(s, t) == t % MAX_THREADS + 1
    {
      RingHop(t);
    }
    RingHop(1);
    hide Ring, Valid, Hop, Hops;
    CircleHops(s, MAX_THREADS);
    forall k | 1 <= k < MAX_THREADS
      ensures Hops(s, 1, k) != 1
    {
      CircleHops(s, k);
    }
  }
}
