/** A run in which a resize is due and never takes place. The first resize has made its table
    the current one and has yet to release resize_lock, while another thread fills that table
    up to its threshold: it finds resize_lock taken, and nobody will ask again. */
module ConcurrentTableLost {
  import opened Tables
  import opened ConcurrentTable
  import opened ConcurrentTableSafety
  import opened ConcurrentTableProgress

  // ----- one thread alone

  /** New tables get four buckets, as ht_status chooses them for the table of four keys in one
      bucket that is resized below: 133 % of its entries in use, over 40, is 3, rounded up to 4. */
  const GO := Advance(3)

  function Alone(v: View, k: nat): View
    decreases k
  {
    if k == 0 then v else Alone(StepThread(v.m, v.pc, GO), k - 1)
  }

  ghost predicate Leads(v: View, w: View) {
    exists k: nat :: Alone(v, k) == w
  }

  lemma Stays(v: View)
    ensures Leads(v, v)
  {
    assert Alone(v, 0) == v;
  }

  lemma Then(v: View, w: View, x: View)
    requires StepThread(v.m, v.pc, GO) == w && Leads(w, x)
    ensures Leads(v, x)
  {
    hide StepThread;
    var k: nat :| Alone(w, k) == x;
    assert Alone(v, k + 1) == x;
  }

  lemma {:induction false} AloneAdd(v: View, j: nat, k: nat)
    ensures Alone(v, j + k) == Alone(Alone(v, j), k)
    decreases j
  {
    hide StepThread;
    if j > 0 {
      var w := StepThread(v.m, v.pc, GO);
      AloneAdd(w, j - 1, k);
      assert Alone(v, j + k) == Alone(w, j - 1 + k);
    }
  }

  lemma LeadsTrans(v: View, w: View, x: View)
    requires Leads(v, w) && Leads(w, x)
    ensures Leads(v, x)
  {
    hide StepThread;
    var j: nat :| Alone(v, j) == w;
    var k: nat :| Alone(w, k) == x;
    AloneAdd(v, j, k);
  }

  // ----- a whole put, exactly

  /** The memory with the bucket of `key` in the current table, its count of expansions and the
      count of locks as given. */
  function Put(m: Mem, key: nat, bin: Bin, expands: nat, locks: nat): Mem
    requires HasVersion(m, m.cur)
  {
    var v := m.versions[m.cur];
    m.(versions := m.versions[m.cur := v.(bins := v.bins[Hash(|v.bins|, key) := bin], expands := expands)],
       locks := locks)
  }

  lemma PutFacts(m: Mem, key: nat, bin: Bin, e: nat, l: nat)
    requires HasVersion(m, m.cur)
    ensures var m' := Put(m, key, bin, e, l);
      && m'.cur == m.cur && m'.locks == l && HasVersion(m', m.cur)
      && BinOf(m', m.cur, key) == bin && Expands(m', m.cur) == e && Threshold(m', m.cur) == Threshold(m, m.cur)
      && Counted(m', m.cur) == Put(m, key, bin, e + 1, l)
      && m'.(locks := l + 1) == Put(m, key, bin, e, l + 1)
      && (forall lock :: Locked(m', m.cur, key, lock) == Put(m, key, bin.(lock := lock), e, l))
      && (forall slots :: Filled(m', m.cur, key, slots) == Put(m, key, bin.(slots := slots), e, l))
  {
    hide Hash;
    var v, m' := m.versions[m.cur], Put(m, key, bin, e, l);
    var b := Hash(|v.bins|, key);
    forall bin'
      ensures WithBin(m', m.cur, b, bin') == Put(m, key, bin', e, l)
    {
      assert v.bins[b := bin][b := bin'] == v.bins[b := bin'];
      assert WithBin(m', m.cur, b, bin').versions == Put(m, key, bin', e, l).versions;
    }
    assert Counted(m', m.cur).versions == Put(m, key, bin, e + 1, l).versions;
  }

  lemma PutSame(m: Mem, key: nat)
    requires HasVersion(m, m.cur)
    ensures Put(m, key, BinOf(m, m.cur, key), Expands(m, m.cur), m.locks) == m
  {
    hide Hash;
    var v := m.versions[m.cur];
    assert v.bins[Hash(|v.bins|, key) := BinOf(m, m.cur, key)] == v.bins;
    assert Put(m, key, BinOf(m, m.cur, key), Expands(m, m.cur), m.locks).versions == m.versions;
  }

  lemma {:induction false} Looks(m: Mem, key: nat, i: nat)
    requires var c := ChainOf(m, key); i <= |c| && NoKey(c, |c|, key)
    ensures Leads(View(m, PutScan(key, m.cur, i)), View(m, ImplRead(key, m.cur)))
    decreases |ChainOf(m, key)| - i
  {
    hide BinOf, Leads, StepHolder, StepResize;
    if i < |ChainOf(m, key)| {
      Looks(m, key, i + 1);
      Then(View(m, PutScan(key, m.cur, i)), View(m, PutScan(key, m.cur, i + 1)), View(m, ImplRead(key, m.cur)));
    } else {
      Stays(View(m, ImplRead(key, m.cur)));
      Then(View(m, PutScan(key, m.cur, i)), View(m, ImplRead(key, m.cur)), View(m, ImplRead(key, m.cur)));
    }
  }

  /** What the scan under the bucket lock has in hand. */
  function HoleSoFar(c: Slots, i: nat): int {
    if IndexOf(c, 0) < i then IndexOf(c, 0) else -1
  }

  function Found(m: Mem, key: nat): View {
    var c := ChainOf(m, key);
    var h := IndexOf(c, 0);
    View(m.(locks := m.locks + 1),
         if h < |c| then StoreVal(key, m.cur, m.cur, h, m.locks + 1) else Count(key, m.cur, m.cur, m.locks + 1))
  }

  lemma {:induction false} Scans(m: Mem, key: nat, i: nat)
    requires var c := ChainOf(m, key); i <= |c| && NoKey(c, |c|, key)
    ensures Leads(View(m, Scan(key, m.cur, m.cur, i, HoleSoFar(ChainOf(m, key), i))), Found(m, key))
    decreases |ChainOf(m, key)| - i
  {
    hide BinOf, Leads, StepFree, StepResize, IndexOf;
    var c := ChainOf(m, key);
    var v := View(m, Scan(key, m.cur, m.cur, i, HoleSoFar(c, i)));
    if i < |c| {
      Scans(m, key, i + 1);
      Then(v, View(m, Scan(key, m.cur, m.cur, i + 1, HoleSoFar(c, i + 1))), Found(m, key));
    } else {
      Stays(Found(m, key));
      Then(v, Found(m, key), Found(m, key));
    }
  }

  /** The memory after a put of a new key. */
  function Stored(m: Mem, key: nat): Mem
    requires HasVersion(m, m.cur)
  {
    var c, e, l := ChainOf(m, key), Expands(m, m.cur), m.locks + 1;
    var h := IndexOf(c, 0);
    if h < |c| then Put(m, key, Bin(Free, c[h := Slot(key, l)]), e, l)
    else Put(m, key, Bin(Free, c + [Slot(key, l), Slot(0, 0), Slot(0, 0)]), e + 1, l)
  }

  /** Whether it has to resize. */
  function EndOf(m: Mem, key: nat): Pc {
    var full := IndexOf(ChainOf(m, key), 0) == |ChainOf(m, key)|;
    if full && Expands(m, m.cur) + 1 == Threshold(m, m.cur) then RsRead(key, m.locks + 1, m.cur)
    else PutDone(key, m.locks + 1)
  }

  predicate NewKey(m: Mem, key: nat) {
    && HasVersion(m, m.cur) && BinOf(m, m.cur, key).lock == Free
    && NoKey(ChainOf(m, key), |ChainOf(m, key)|, key)
  }

  lemma Stores(m: Mem, key: nat, m1: Mem)
    requires NewKey(m, key) && m1 == Put(m, key, Bin(Update, ChainOf(m, key)), Expands(m, m.cur), m.locks)
    ensures Leads(Found(m1, key), View(Stored(m, key), EndOf(m, key)))
  {
    hide BinOf, Leads, Put, Hash, StepFree, StepResize, Locked, Filled, Counted, Expands, Threshold;
    var c, e, l, u := ChainOf(m, key), Expands(m, m.cur), m.locks + 1, m.cur;
    var h := IndexOf(c, 0);
    var w := View(Stored(m, key), EndOf(m, key));
    PutFacts(m, key, Bin(Update, c), e, m.locks);
    PutFacts(m, key, Bin(Update, c), e, l);
    Stays(w);
    if h < |c| {
      var c1, c2 := c[h := c[h].(val := l)], c[h := Slot(key, l)];
      PutFacts(m, key, Bin(Update, c1), e, l);
      PutFacts(m, key, Bin(Update, c2), e, l);
      assert c1[h := c1[h].(key := key)] == c2;
      var m2, m3 := Put(m, key, Bin(Update, c1), e, l), Put(m, key, Bin(Update, c2), e, l);
      Then(View(m3, Release(key, u, u, l, false)), w, w);
      Then(View(m2, StoreKey(key, u, u, h, l)), View(m3, Release(key, u, u, l, false)), w);
      Then(Found(m1, key), View(m2, StoreKey(key, u, u, h, l)), w);
    } else {
      var c2 := c + [Slot(key, l), Slot(0, 0), Slot(0, 0)];
      var due := e + 1 == Threshold(m, m.cur);
      PutFacts(m, key, Bin(Update, c), e + 1, l);
      PutFacts(m, key, Bin(Update, c2), e + 1, l);
      var m2, m3 := Put(m, key, Bin(Update, c), e + 1, l), Put(m, key, Bin(Update, c2), e + 1, l);
      Then(View(m3, Release(key, u, u, l, due)), w, w);
      Then(View(m2, Link(key, u, u, l, due)), View(m3, Release(key, u, u, l, due)), w);
      Then(Found(m1, key), View(m2, Link(key, u, u, l, due)), w);
    }
  }

  /** A put of a new key alone, from its first access to its end. */
  lemma Puts(m: Mem, key: nat)
    requires NewKey(m, key)
    ensures Leads(View(m, PutRead(key)), View(Stored(m, key), EndOf(m, key)))
  {
    hide BinOf, Leads, Put, Hash, StepHolder, StepResize, Locked, Filled, IndexOf;
    var c, u := ChainOf(m, key), m.cur;
    var m1 := Put(m, key, Bin(Update, c), Expands(m, u), m.locks);
    var w := View(Stored(m, key), EndOf(m, key));
    PutSame(m, key);
    PutFacts(m, key, BinOf(m, u, key), Expands(m, u), m.locks);
    PutFacts(m, key, Bin(Update, c), Expands(m, u), m.locks);
    Stores(m, key, m1);
    Scans(m1, key, 0);
    LeadsTrans(View(m1, Scan(key, u, u, 0, -1)), Found(m1, key), w);
    Then(View(m, Acquire(key, u, u)), View(m1, Scan(key, u, u, 0, -1)), w);
    Then(View(m, ImplRead(key, u)), View(m, Acquire(key, u, u)), w);
    Looks(m, key, 0);
    LeadsTrans(View(m, PutScan(key, u, 0)), View(m, ImplRead(key, u)), w);
    Then(View(m, PutRead(key)), View(m, PutScan(key, u, 0)), w);
  }

  // ----- the tables of the run: all keys are in one chain

  const EMPTY_SLOT := Slot(0, 0)

  function KeyNo(i: nat): nat {
    16 * (i + 1)
  }

  /** The chain after `n` puts. */
  function Chain(n: nat): Slots {
    seq(if n == 0 then 3 else 3 * Linkups(n) + 3, i => if 0 <= i < n then Slot(KeyNo(i), i + 1) else EMPTY_SLOT)
  }

  /** How often the chain of `n` keys has been extended. */
  function Linkups(n: nat): nat {
    if n == 0 then 0 else (n - 1) / 3
  }

  lemma SameBucket(i: nat)
    ensures Hash(1, KeyNo(i)) == 0 && Hash(4, KeyNo(i)) == 0
  {
    assert KeyNo(i) / 4 == 4 * (i + 1);
    assert And(4 * (i + 1), 0) == 0 && And(i + 1, 0) == 0;
    assert And(2 * (i + 1), 1) == 0;
    assert And(4 * (i + 1), 3) == 2 * And(2 * (i + 1), 1);
  }

  lemma NextHole(n: nat)
    ensures var c := Chain(n);
      && |c| >= n && NoKey(c, |c|, KeyNo(n))
      && IndexOf(c, 0) == n
      && (if n < |c| then Chain(n + 1) == c[n := Slot(KeyNo(n), n + 1)] && Linkups(n + 1) == Linkups(n)
          else Chain(n + 1) == c + [Slot(KeyNo(n), n + 1), EMPTY_SLOT, EMPTY_SLOT] && Linkups(n + 1) == Linkups(n) + 1)
  {
    var c := Chain(n);
    assert n < |c| ==> c[n].key == 0;
    assert forall i :: 0 <= i < n ==> c[i].key == KeyNo(i) != 0;
  }

  /** The current table has these keys and nothing else that matters. */
  predicate HasKeys(m: Mem, n: nat) {
    && HasVersion(m, m.cur) && (|m.versions[m.cur].bins| == 1 || |m.versions[m.cur].bins| == 4)
    && m.versions[m.cur].bins[0] == Bin(Free, Chain(n)) && m.versions[m.cur].expands == Linkups(n) && m.locks == n
  }

  function WithChain(m: Mem, n: nat): Mem
    requires HasVersion(m, m.cur)
  {
    var v := m.versions[m.cur];
    m.(versions := m.versions[m.cur := v.(bins := v.bins[0 := Bin(Free, Chain(n))], expands := Linkups(n))], locks := n)
  }

  lemma PutNext(m: Mem, n: nat)
    requires HasKeys(m, n)
    ensures NewKey(m, KeyNo(n)) && Stored(m, KeyNo(n)) == WithChain(m, n + 1) && HasKeys(WithChain(m, n + 1), n + 1)
    ensures EndOf(m, KeyNo(n)) ==
      if Linkups(n + 1) > Linkups(n) && Linkups(n + 1) == Threshold(m, m.cur) then RsRead(KeyNo(n), n + 1, m.cur)
      else PutDone(KeyNo(n), n + 1)
  {
    hide Chain, Hash, IndexOf, KeyNo;
    SameBucket(n);
    NextHole(n);
  }

  // ----- the run

  ghost predicate Reaches(s: State, s': State) {
    exists sched :: Run(s, sched) == s'
  }

  function After(s: State, t: nat, v: View): State
    requires t < |s.th|
  {
    State(v.m, s.th[t := v.pc])
  }

  lemma Extend(s0: State, s: State, e: Event) returns (s': State)
    requires Reaches(s0, s)
    ensures Reaches(s0, s') && s' == Step(s, e)
  {
    hide Step;
    s' := Step(s, e);
    var sched :| Run(s0, sched) == s;
    assert (sched + [e])[..|sched|] == sched;
    assert Run(s0, sched + [e]) == s';
  }

  lemma {:induction false} Go(s0: State, s: State, t: nat, k: nat) returns (s': State)
    requires Reaches(s0, s) && t < |s.th|
    ensures Reaches(s0, s') && s' == After(s, t, Alone(View(s.m, s.th[t]), k))
    decreases k
  {
    hide StepThread, Reaches;
    if k == 0 {
      s' := s;
      assert s.th[t := s.th[t]] == s.th;
    } else {
      var s1 := Extend(s0, s, Move(t, GO));
      s' := Go(s0, s1, t, k - 1);
      assert s1.th[t := s'.th[t]] == s.th[t := s'.th[t]];
    }
  }

  lemma GoTo(s0: State, s: State, t: nat, w: View) returns (s': State)
    requires Reaches(s0, s) && t < |s.th| && Leads(View(s.m, s.th[t]), w)
    ensures Reaches(s0, s') && s' == After(s, t, w)
  {
    hide Reaches, Alone;
    var k: nat :| Alone(View(s.m, s.th[t]), k) == w;
    s' := Go(s0, s, t, k);
  }

  /** A call of put with the next key, up to the end of clht_lp_put_impl. */
  lemma PutCall(s0: State, s: State, t: nat, n: nat) returns (s': State)
    requires Reaches(s0, s) && t < |s.th| && s.th[t] == Idle && HasKeys(s.m, n)
    ensures Reaches(s0, s') && HasKeys(s'.m, n + 1)
    ensures s' == After(s, t, View(WithChain(s.m, n + 1), EndOf(s.m, KeyNo(n))))
    ensures EndOf(s.m, KeyNo(n)) ==
      if Linkups(n + 1) > Linkups(n) && Linkups(n + 1) == Threshold(s.m, s.m.cur) then RsRead(KeyNo(n), n + 1, s.m.cur)
      else PutDone(KeyNo(n), n + 1)
  {
    hide Reaches, Leads, WithChain, EndOf, Stored, NewKey, StepHolder, StepResize, Threshold, Linkups, Chain;
    var s1 := Extend(s0, s, Move(t, ConcurrentTable.Put(KeyNo(n))));
    assert s1 == After(s, t, View(s.m, PutRead(KeyNo(n))));
    PutNext(s.m, n);
    Puts(s.m, KeyNo(n));
    s' := GoTo(s0, s1, t, View(WithChain(s.m, n + 1), EndOf(s.m, KeyNo(n))));
    assert s1.th[t := s'.th[t]] == s.th[t := s'.th[t]];
  }

  lemma WithSame(m: Mem, n: nat)
    requires HasKeys(m, n)
    ensures WithChain(m, n) == m
  {
    var v := m.versions[m.cur];
    assert v.bins[0 := Bin(Free, Chain(n))] == v.bins;
    assert WithChain(m, n).versions == m.versions;
  }

  lemma WithTwice(m: Mem, n: nat, k: nat)
    requires HasVersion(m, m.cur)
    ensures HasVersion(WithChain(m, n), m.cur) && WithChain(WithChain(m, n), k) == WithChain(m, k)
    ensures Threshold(WithChain(m, n), m.cur) == Threshold(m, m.cur)
  {
    var v := m.versions[m.cur];
    assert v.bins[0 := Bin(Free, Chain(n))][0 := Bin(Free, Chain(k))] == v.bins[0 := Bin(Free, Chain(k))];
    assert WithChain(WithChain(m, n), k).versions == WithChain(m, k).versions;
  }

  /** Puts that trigger no resize, by one thread. */
  lemma {:induction false} Fill(s0: State, s: State, t: nat, n: nat, upTo: nat) returns (s': State)
    requires Reaches(s0, s) && t < |s.th| && s.th[t] == Idle && HasKeys(s.m, n) && n <= upTo
    requires Linkups(upTo) < Threshold(s.m, s.m.cur)
    ensures Reaches(s0, s') && HasKeys(s'.m, upTo) && s' == State(WithChain(s.m, upTo), s.th)
    decreases upTo - n
  {
    if n == upTo {
      s' := s;
      WithSame(s.m, n);
    } else {
      hide Reaches, EndOf, StepHolder, StepResize, Chain, WithChain;
      var s1 := PutCall(s0, s, t, n);
      var s2 := Extend(s0, s1, Move(t, Return));
      assert s2 == State(s1.m, s.th) by { assert s.th[t := PutDone(KeyNo(n), n + 1)][t := Idle] == s.th; }
      WithTwice(s.m, n + 1, upTo);
      s' := Fill(s0, s2, t, n + 1, upTo);
    }
  }

  /** The memory while the first `j` keys of four have been copied. */
  function Copying4(j: nat): Mem {
    Mem([Version([Bin(Resize, Chain(4))], 1, 1, false),
         Version([Bin(Free, Chain(j)), EMPTY, EMPTY, EMPTY], Linkups(j), 4, false)], 0, true, 4)
  }

  lemma CopyOne(j: nat)
    requires j < 4
    ensures PutSeq(Copying4(j), 1, Slot(KeyNo(j), j + 1)) == Copying4(j + 1)
  {
    hide Chain, Hash, IndexOf, KeyNo;
    SameBucket(j);
    NextHole(j);
    var m, m' := Copying4(j), PutSeq(Copying4(j), 1, Slot(KeyNo(j), j + 1));
    assert BinOf(m, 1, KeyNo(j)) == Bin(Free, Chain(j));
    assert m'.versions[1].bins == Copying4(j + 1).versions[1].bins;
    assert m'.versions == Copying4(j + 1).versions;
  }

  lemma {:induction false} Copies(key: nat, lock: nat, j: nat, w: View)
    requires j <= 4 && Leads(View(Copying4(4), RsCopy(key, lock, 0, 1, 0, 4)), w)
    ensures Leads(View(Copying4(j), RsCopy(key, lock, 0, 1, 0, j)), w)
    decreases 4 - j
  {
    hide Leads, PutSeq, StepHolder, StepFree;
    if j < 4 {
      Copies(key, lock, j + 1, w);
      CopyOne(j);
      assert Chain(4)[j] == Slot(KeyNo(j), j + 1);
      var next := View(Copying4(j + 1), RsCopy(key, lock, 0, 1, 0, j + 1));
      Then(View(Copying4(j), RsCopy(key, lock, 0, 1, 0, j)), next, w);
    }
  }

  /** The resize of the first table, up to the store of table_new. */
  lemma Resizes(m: Mem, key: nat, lock: nat)
    requires m == Mem([Version([Bin(Free, Chain(4))], 1, 1, false)], 0, false, 4)
    ensures Leads(View(m, RsRead(key, lock, 0)), View(Copying4(4).(cur := 1), RsPublish(key, lock, 0, 1, false)))
  {
    hide Leads, PutSeq, StepHolder, StepFree, Chain;
    var m1 := m.(resizing := true);
    var m2 := m1.(versions := m.versions + [NewVersion(4)]);
    var m4 := Copying4(4);
    var w := View(m4.(cur := 1), RsPublish(key, lock, 0, 1, false));
    ChainSizes();
    Stays(w);
    Then(View(m4, RsSwap(key, lock, 0, 1, false)), w, w);
    Then(View(m4, RsCheck(key, lock, 0, 1)), View(m4, RsSwap(key, lock, 0, 1, false)), w);
    Then(View(m4, RsLock(key, lock, 0, 1, 1)), View(m4, RsCheck(key, lock, 0, 1)), w);
    Then(View(m4, RsCopy(key, lock, 0, 1, 0, 6)), View(m4, RsLock(key, lock, 0, 1, 1)), w);
    Then(View(m4, RsCopy(key, lock, 0, 1, 0, 5)), View(m4, RsCopy(key, lock, 0, 1, 0, 6)), w);
    Then(View(m4, RsCopy(key, lock, 0, 1, 0, 4)), View(m4, RsCopy(key, lock, 0, 1, 0, 5)), w);
    Copies(key, lock, 0, w);
    FirstLock(m2, key, lock);
    Then(View(m2, RsLock(key, lock, 0, 1, 0)), View(Copying4(0), RsCopy(key, lock, 0, 1, 0, 0)), w);
    Then(View(m1, RsCreate(key, lock, 0)), View(m2, RsLock(key, lock, 0, 1, 0)), w);
    Then(View(m, RsTry(key, lock, 0)), View(m1, RsCreate(key, lock, 0)), w);
    Then(View(m, RsRead(key, lock, 0)), View(m, RsTry(key, lock, 0)), w);
  }

  lemma FirstLock(m: Mem, key: nat, lock: nat)
    requires m == Mem([Version([Bin(Free, Chain(4))], 1, 1, false), NewVersion(4)], 0, true, 4)
    ensures StepThread(m, RsLock(key, lock, 0, 1, 0), GO) == View(Copying4(0), RsCopy(key, lock, 0, 1, 0, 0))
  {
    hide StepHolder, StepFree, Chain, NewVersion;
    NewTable();
    var m' := StepThread(m, RsLock(key, lock, 0, 1, 0), GO).m;
    assert m'.versions[0].bins == [Bin(Resize, Chain(4))];
    assert m'.versions == Copying4(0).versions;
  }

  lemma ChainSizes()
    ensures |Chain(4)| == 6 && Chain(4)[4].key == 0 && Chain(4)[5].key == 0
  {
  }

  lemma NewTable()
    ensures NewVersion(4) == Version([Bin(Free, Chain(0)), EMPTY, EMPTY, EMPTY], 0, 4, false)
  {
    assert Chain(0) == EMPTY.slots;
    assert NewVersion(4).bins == [EMPTY, EMPTY, EMPTY, EMPTY];
  }

  /** The first table with `k` keys in it. */
  function FirstTable(k: nat): Mem {
    Mem([Version([Bin(Free, Chain(k))], Linkups(k), 1, false)], 0, false, k)
  }

  lemma FirstTables(m: Mem, k: nat)
    requires HasKeys(m, k) && (m == FirstTable(k) || exists j :: m == WithChain(FirstTable(j), k))
    ensures m == FirstTable(k)
  {
    if j :| m == WithChain(FirstTable(j), k) {
      assert m.versions[0].bins == [Bin(Free, Chain(k))];
      assert m.versions == FirstTable(k).versions;
    }
  }

  lemma InitKeys(n: nat)
    ensures Init(n, 1).m == FirstTable(0) && HasKeys(FirstTable(0), 0)
  {
    assert Chain(0) == EMPTY.slots;
    assert NewVersion(1).bins == [Bin(Free, Chain(0))];
  }

  lemma ReachesSelf(s: State)
    ensures Reaches(s, s)
  {
    assert Run(s, []) == s;
  }

  /** Four puts by thread 0, and the resize they call for. */
  lemma FirstResize(n: nat) returns (s: State)
    requires n >= 2
    ensures var s0 := Init(n, 1);
      && Reaches(s0, s)
      && s == State(Copying4(4).(cur := 1), s0.th[0 := RsPublish(KeyNo(3), 4, 0, 1, false)])
  {
    hide Chain, Leads, Reaches, StepThread, KeyNo, WithChain, HasKeys;
    var s0 := Init(n, 1);
    ReachesSelf(s0);
    InitKeys(n);
    s := Fill(s0, s0, 0, 0, 3);
    FirstTables(s.m, 3);
    s := PutCall(s0, s, 0, 3);
    FirstTables(s.m, 4);
    assert s == After(s0, 0, View(FirstTable(4), RsRead(KeyNo(3), 4, 0)));
    Resizes(FirstTable(4), KeyNo(3), 4);
    s := GoTo(s0, s, 0, View(Copying4(4).(cur := 1), RsPublish(KeyNo(3), 4, 0, 1, false)));
    assert s.th == s0.th[0 := RsPublish(KeyNo(3), 4, 0, 1, false)];
  }

  lemma SecondTable()
    ensures HasKeys(Copying4(4).(cur := 1), 4)
  {
  }

  /** Nine more puts by thread 1 use up the four expansions of the new table, and the last of them
      finds resize_lock taken. */
  lemma LosesTrigger(n: nat) returns (s: State)
    requires n >= 2
    ensures Reaches(Init(n, 1), s) && Due(s.m) && !SomeTriggered(s) && s.m.cur == 1
  {
    hide Chain, Leads, Reaches, StepThread, KeyNo, WithChain, HasKeys, Copying4;
    var s0 := Init(n, 1);
    s := FirstResize(n);
    SecondTable();
    SecondFacts(12);
    SecondFacts(13);
    s := Fill(s0, s, 1, 4, 12);
    s := PutCall(s0, s, 1, 12);
    WithTwice(Copying4(4).(cur := 1), 12, 13);
    assert s.th[1] == RsRead(KeyNo(12), 13, 1) && s.m == WithChain(Copying4(4).(cur := 1), 13);
    var s13 := s;
    s := Extend(s0, s, Move(1, GO));
    s := Extend(s0, s, Move(1, GO));
    GivesUp(s13, KeyNo(12), 13);
    assert s.m == s13.m && s.th == s13.th[1 := PutDone(KeyNo(12), 13)];
  }

  lemma SecondFacts(k: nat)
    ensures var m := Copying4(4).(cur := 1);
      && HasVersion(m, 1) && m.resizing && Threshold(m, 1) == 4
      && WithChain(m, k).cur == 1 && WithChain(m, k).resizing && Threshold(WithChain(m, k), 1) == 4
      && Expands(WithChain(m, k), 1) == Linkups(k)
  {
  }

  lemma GivesUp(s: State, key: nat, lock: nat)
    requires |s.th| > 1 && s.th[1] == RsRead(key, lock, s.m.cur) && s.m.resizing
    ensures Step(Step(s, Move(1, GO)), Move(1, GO)) == State(s.m, s.th[1 := PutDone(key, lock)])
  {
    hide StepHolder, StepFree;
    assert s.th[1 := RsTry(key, lock, s.m.cur)][1 := PutDone(key, lock)] == s.th[1 := PutDone(key, lock)];
  }

  /** A resize that is due and never takes place: two threads, a first table of one bucket, and
      thirteen puts of different keys lead to a state from which no run of any length resizes the
      current table, although it has expanded as often as its threshold says. */
  lemma NeverResized(n: nat) returns (sched: seq<Event>)
    requires n >= 2
    ensures var s := Run(Init(n, 1), sched); s.m.cur == 1 && Due(s.m) && !SomeTriggered(s)
    ensures forall more :: Run(Run(Init(n, 1), sched), more).m.cur == 1
  {
    hide Due, SomeTriggered, Inv;
    var s := LosesTrigger(n);
    sched :| Run(Init(n, 1), sched) == s;
    ConcurrentTableSafety.Reachable(n, 1, sched);
    forall more
      ensures Run(s, more).m.cur == 1
    {
      LostForever(s, more);
    }
  }
}
