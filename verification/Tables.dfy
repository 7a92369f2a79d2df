/** The lock table of src/clht_lock_pointer.c as values: what its chains of buckets
    mean, and what inserting, removing and resizing do to that meaning. */
module Tables {
  import opened Sums

  const ENTRIES := 3          // ENTRIES_PER_BUCKET
  const PERC_FULL_HALVE := 5  // %
  const RATIO_HALVE := 8

  /** One entry of a bucket; key 0 is a hole, whose `val` means nothing. */
  datatype Slot = Slot(key: nat, val: nat)

  /** The entries of a bucket and of those linked behind it, in order. */
  type Slots = seq<Slot>

  /** Bitwise and. */
  function And(a: nat, b: nat): (r: nat)
    ensures r <= b
  {
    if a == 0 || b == 0 then 0 else 2 * And(a / 2, b / 2) + (a % 2) * (b % 2)
  }

  /** clht_lp_hash: defined for any number of buckets, not only powers of two. */
  function Hash(numBuckets: nat, key: nat): (bin: nat)
    requires numBuckets >= 1
    ensures bin < numBuckets
  {
    And(key / 4, numBuckets - 1)
  }

  // ----- one chain

  /** The first entry with this key, or the length of the chain. */
  function IndexOf(c: Slots, key: nat): (i: nat)
    ensures i <= |c| && (i < |c| ==> c[i].key == key)
    ensures forall j :: 0 <= j < i ==> c[j].key != key
  {
    if c == [] then 0 else if c[0].key == key then 0 else 1 + IndexOf(c[1..], key)
  }

  function Lookup(c: Slots, key: nat): nat {
    if IndexOf(c, key) < |c| then c[IndexOf(c, key)].val else 0
  }

  predicate Has(c: Slots, key: nat) {
    exists i :: 0 <= i < |c| && c[i].key == key
  }

  predicate Binds(c: Slots, key: nat, val: nat) {
    exists i :: 0 <= i < |c| && c[i] == Slot(key, val)
  }

  /** No key twice. */
  predicate Distinct(c: Slots) {
    forall i, j :: 0 <= i < j < |c| && c[i].key != 0 ==> c[i].key != c[j].key
  }

  /** A bucket with one entry in it linked at the end. */
  predicate Appended(c: Slots, c': Slots, key: nat, val: nat) {
    && |c'| == |c| + ENTRIES && c'[..|c|] == c && c'[|c|] == Slot(key, val)
    && forall i :: |c| < i < |c'| ==> c'[i].key == 0
  }

  /** Storing a new key: in the first hole, or in a bucket linked at the end. */
  predicate Inserted(c: Slots, c': Slots, key: nat, val: nat) {
    var h := IndexOf(c, 0);
    if h < |c| then c' == c[h := Slot(key, val)] else Appended(c, c', key, val)
  }

  predicate Removed(c: Slots, c': Slots, key: nat) {
    var i := IndexOf(c, key);
    if i < |c| then c' == c[i := Slot(0, c[i].val)] else c' == c
  }

  lemma InsertedBinds(c: Slots, c': Slots, key: nat, val: nat)
    requires key != 0 && Distinct(c) && !Has(c, key) && Inserted(c, c', key, val)
    ensures Distinct(c') && Binds(c', key, val)
    ensures forall k, v :: k != 0 && k != key ==> Binds(c', k, v) == Binds(c, k, v)
    ensures forall v :: Binds(c', key, v) ==> v == val
    ensures forall k :: k != 0 ==> Has(c', k) == (Has(c, k) || k == key)
  {
    var h := IndexOf(c, 0);
    if h < |c| {
      assert c'[h] == Slot(key, val);
      forall k, v | k != 0 && k != key && Binds(c, k, v)
        ensures Binds(c', k, v)
      {
        var i :| 0 <= i < |c| && c[i] == Slot(k, v);
        assert c'[i] == c[i];
      }
      forall k | k != 0 && Has(c, k)
        ensures Has(c', k)
      {
        var i :| 0 <= i < |c| && c[i].key == k;
        assert c'[i] == c[i];
      }
    } else {
      assert c'[|c|] == Slot(key, val);
      assert forall i :: 0 <= i < |c| ==> c'[i] == c[i];
      forall k, v | Binds(c, k, v)
        ensures Binds(c', k, v)
      {
        var i :| 0 <= i < |c| && c[i] == Slot(k, v);
        assert c'[i] == c[i];
      }
      forall k | Has(c, k)
        ensures Has(c', k)
      {
        var i :| 0 <= i < |c| && c[i].key == k;
        assert c'[i] == c[i];
      }
    }
  }

  lemma RemovedBinds(c: Slots, c': Slots, key: nat)
    requires key != 0 && Distinct(c) && Removed(c, c', key)
    ensures Distinct(c') && !Has(c', key) && |c'| == |c|
    ensures forall k, v :: k != 0 && k != key ==> Binds(c', k, v) == Binds(c, k, v)
  {
    var i := IndexOf(c, key);
    forall k, v | k != 0 && k != key && Binds(c, k, v)
      ensures Binds(c', k, v)
    {
      var j :| 0 <= j < |c| && c[j] == Slot(k, v);
      assert c'[j] == c[j];
    }
  }

  lemma LookupBinds(c: Slots, key: nat)
    requires key != 0 && Distinct(c)
    ensures Has(c, key) <==> IndexOf(c, key) < |c|
    ensures Has(c, key) ==> Binds(c, key, Lookup(c, key))
    ensures !Has(c, key) ==> Lookup(c, key) == 0
    ensures forall v :: Binds(c, key, v) ==> v == Lookup(c, key)
  {
  }

  // ----- the table

  /** The chains of a table, one per bin. */
  type Table = seq<Slots>

  /** No key twice in a chain, and every key in the chain of its hash. */
  predicate WellFormed(t: Table) {
    && |t| >= 1
    && (forall b :: 0 <= b < |t| ==> Distinct(t[b]))
    && (forall b, i :: 0 <= b < |t| && 0 <= i < |t[b]| && t[b][i].key != 0 ==> Hash(|t|, t[b][i].key) == b)
  }

  function Get(t: Table, key: nat): nat
    requires |t| >= 1
  {
    Lookup(t[Hash(|t|, key)], key)
  }

  function Keys(t: Table): set<nat> {
    set b, i | 0 <= b < |t| && 0 <= i < |t[b]| && t[b][i].key != 0 :: t[b][i].key
  }

  /** What the table means. */
  function Meaning(t: Table): map<nat, nat>
    requires |t| >= 1
  {
    map k | k in Keys(t) :: Get(t, k)
  }

  lemma KeysHashed(t: Table, key: nat)
    requires WellFormed(t)
    ensures key in Keys(t) <==> key != 0 && Has(t[Hash(|t|, key)], key)
  {
    if key != 0 && Has(t[Hash(|t|, key)], key) {
      var b := Hash(|t|, key);
      var i :| 0 <= i < |t[b]| && t[b][i].key == key;
      assert t[b][i].key in Keys(t);
    }
  }

  /** The meaning, entry by entry. */
  lemma MeaningBinds(t: Table, key: nat)
    requires WellFormed(t) && key != 0
    ensures key in Meaning(t) <==> Has(t[Hash(|t|, key)], key)
    ensures forall v :: (key in Meaning(t) && Meaning(t)[key] == v) <==> Binds(t[Hash(|t|, key)], key, v)
  {
    KeysHashed(t, key);
    LookupBinds(t[Hash(|t|, key)], key);
  }

  ghost predicate Bound(t: Table, key: nat, val: nat)
    requires |t| >= 1
  {
    key != 0 && Binds(t[Hash(|t|, key)], key, val)
  }

  lemma MeaningIs(t: Table, m: map<nat, nat>)
    requires WellFormed(t)
    requires forall k, v :: Bound(t, k, v) <==> k in m && m[k] == v
    ensures Meaning(t) == m
  {
    hide Hash;
    forall k
      ensures k in Meaning(t) <==> k in m
      ensures k in m ==> Meaning(t)[k] == m[k]
    {
      if k != 0 {
        MeaningBinds(t, k);
        if k in m { assert Bound(t, k, m[k]); }
        if k in Meaning(t) { assert Bound(t, k, Meaning(t)[k]); }
      } else {
        assert 0 !in Keys(t);
        assert 0 in m ==> Bound(t, 0, m[0]);
      }
    }
  }

  lemma MeaningBound(t: Table, k: nat, v: nat)
    requires WellFormed(t)
    ensures Bound(t, k, v) <==> k in Meaning(t) && Meaning(t)[k] == v
  {
    if k != 0 { MeaningBinds(t, k); } else { assert 0 !in Keys(t); }
  }

  lemma EmptyMeaning(t: Table)
    requires |t| >= 1 && forall b, i :: 0 <= b < |t| && 0 <= i < |t[b]| ==> t[b][i].key == 0
    ensures WellFormed(t) && Meaning(t) == map[]
  {
    hide Hash;
    assert Keys(t) == {};
  }

  /** get agrees with the map. */
  lemma GetMeaning(t: Table, key: nat)
    requires WellFormed(t) && key != 0
    ensures Get(t, key) == if key in Meaning(t) then Meaning(t)[key] else 0
  {
    KeysHashed(t, key);
    LookupBinds(t[Hash(|t|, key)], key);
  }

  /** Inserting a new key adds exactly one binding. */
  lemma InsertMeaning(t: Table, t': Table, key: nat, val: nat)
    requires WellFormed(t) && key != 0 && |t'| == |t|
    requires var b := Hash(|t|, key);
      !Has(t[b], key) && Inserted(t[b], t'[b], key, val) && forall c :: 0 <= c < |t| && c != b ==> t'[c] == t[c]
    ensures WellFormed(t') && Meaning(t') == Meaning(t)[key := val]
  {
    var b := Hash(|t|, key);
    InsertedBinds(t[b], t'[b], key, val);
    InsertKeepsForm(t, t', key, val);
    forall k, v
      ensures Bound(t', k, v) <==> k in Meaning(t)[key := val] && Meaning(t)[key := val][k] == v
    {
      MeaningBound(t, k, v);
      hide Hash, Meaning, Inserted;
    }
    MeaningIs(t', Meaning(t)[key := val]);
  }

  lemma InsertKeepsForm(t: Table, t': Table, key: nat, val: nat)
    requires WellFormed(t) && key != 0 && |t'| == |t|
    requires var b := Hash(|t|, key);
      !Has(t[b], key) && Inserted(t[b], t'[b], key, val) && forall c :: 0 <= c < |t| && c != b ==> t'[c] == t[c]
    ensures WellFormed(t')
  {
    var b := Hash(|t|, key);
    InsertedBinds(t[b], t'[b], key, val);
    forall i | 0 <= i < |t'[b]| && t'[b][i].key != 0
      ensures Hash(|t|, t'[b][i].key) == b
    {
      assert Has(t'[b], t'[b][i].key);
    }
  }

  /** Removing a key removes exactly its binding. */
  lemma RemoveMeaning(t: Table, t': Table, key: nat)
    requires WellFormed(t) && key != 0 && |t'| == |t|
    requires var b := Hash(|t|, key);
      Removed(t[b], t'[b], key) && forall c :: 0 <= c < |t| && c != b ==> t'[c] == t[c]
    ensures WellFormed(t') && Meaning(t') == Meaning(t) - {key}
  {
    var b := Hash(|t|, key);
    RemovedBinds(t[b], t'[b], key);
    RemoveKeepsForm(t, t', key);
    forall k, v
      ensures Bound(t', k, v) <==> k in Meaning(t) - {key} && (Meaning(t) - {key})[k] == v
    {
      MeaningBound(t, k, v);
      hide Hash, Meaning, Removed;
    }
    MeaningIs(t', Meaning(t) - {key});
  }

  lemma RemoveKeepsForm(t: Table, t': Table, key: nat)
    requires WellFormed(t) && key != 0 && |t'| == |t|
    requires var b := Hash(|t|, key);
      Removed(t[b], t'[b], key) && forall c :: 0 <= c < |t| && c != b ==> t'[c] == t[c]
    ensures WellFormed(t')
  {
    RemovedBinds(t[Hash(|t|, key)], t'[Hash(|t|, key)], key);
  }

  // ----- size

  function Count(c: Slots): nat {
    if c == [] then 0 else Count(c[..|c| - 1]) + if c[|c| - 1].key > 0 then 1 else 0
  }

  function Size(t: Table): nat {
    if t == [] then 0 else Size(t[..|t| - 1]) + Count(t[|t| - 1])
  }

  lemma CountOneMore(c: Slots, n: nat)
    requires n < |c|
    ensures Count(c[..n + 1]) == Count(c[..n]) + if c[n].key > 0 then 1 else 0
  {
    assert c[..n + 1][..n] == c[..n];
  }

  lemma SizeOneMore(t: Table, n: nat)
    requires n < |t|
    ensures Size(t[..n + 1]) == Size(t[..n]) + Count(t[n])
  {
    assert t[..n + 1][..n] == t[..n];
  }

  lemma Nothing()
    ensures Count([]) == 0 && Size([]) == 0
  {
  }

  function ChainKeys(c: Slots): set<nat> {
    set i | 0 <= i < |c| && c[i].key != 0 :: c[i].key
  }

  lemma {:induction false} CountKeys(c: Slots)
    requires Distinct(c)
    ensures Count(c) == |ChainKeys(c)|
  {
    if c != [] {
      CountKeys(c[..|c| - 1]);
      LastKey(c);
      hide Distinct, ChainKeys;
    }
  }

  lemma LastKey(c: Slots)
    requires Distinct(c) && c != []
    ensures Distinct(c[..|c| - 1])
    ensures var last := c[|c| - 1].key;
      if last != 0 then ChainKeys(c) == ChainKeys(c[..|c| - 1]) + {last} && last !in ChainKeys(c[..|c| - 1])
      else ChainKeys(c) == ChainKeys(c[..|c| - 1])
  {
    var d, last := c[..|c| - 1], c[|c| - 1].key;
    forall k | k in ChainKeys(d)
      ensures k in ChainKeys(c) && k != last
    {
      var i :| 0 <= i < |d| && d[i].key != 0 && d[i].key == k;
      assert c[i].key == k;
    }
    forall k | k in ChainKeys(c) && k != last
      ensures k in ChainKeys(d)
    {
      var i :| 0 <= i < |c| && c[i].key != 0 && c[i].key == k;
      assert d[i].key == k;
    }
    assert last != 0 ==> c[|c| - 1].key in ChainKeys(c);
  }

  /** Chains that share no key. */
  predicate Disjoint(t: Table) {
    && (forall b :: 0 <= b < |t| ==> Distinct(t[b]))
    && (forall b, c, i, j :: 0 <= b < c < |t| && 0 <= i < |t[b]| && 0 <= j < |t[c]| && t[b][i].key != 0 ==>
          t[b][i].key != t[c][j].key)
  }

  lemma {:induction false} SizeKeys(t: Table)
    requires Disjoint(t)
    ensures Size(t) == |Keys(t)|
  {
    if t != [] {
      SizeKeys(t[..|t| - 1]);
      CountKeys(t[|t| - 1]);
      LastChain(t);
      hide Disjoint, Keys, ChainKeys;
    }
  }

  lemma LastChain(t: Table)
    requires Disjoint(t) && t != []
    ensures Disjoint(t[..|t| - 1]) && Distinct(t[|t| - 1])
    ensures Keys(t) == Keys(t[..|t| - 1]) + ChainKeys(t[|t| - 1])
    ensures Keys(t[..|t| - 1]) !! ChainKeys(t[|t| - 1])
  {
    var u, last := t[..|t| - 1], t[|t| - 1];
    hide Distinct;
    forall k | k in Keys(t)
      ensures k in Keys(u) + ChainKeys(last)
    {
      var b, i :| 0 <= b < |t| && 0 <= i < |t[b]| && t[b][i].key != 0 && t[b][i].key == k;
      if b < |u| { assert u[b][i].key in Keys(u); } else { assert last[i].key in ChainKeys(last); }
    }
    forall k | k in Keys(u)
      ensures k in Keys(t) && k !in ChainKeys(last)
    {
      var b, i :| 0 <= b < |u| && 0 <= i < |u[b]| && u[b][i].key != 0 && u[b][i].key == k;
      assert t[b][i].key in Keys(t);
    }
    forall k | k in ChainKeys(last)
      ensures k in Keys(t)
    {
      var i :| 0 <= i < |last| && last[i].key != 0 && last[i].key == k;
      assert t[|t| - 1][i].key in Keys(t);
    }
  }

  /** clht_lp_size counts the bindings. */
  lemma SizeMeaning(t: Table)
    requires WellFormed(t)
    ensures Size(t) == |Meaning(t)|
  {
    forall b, c, i, j | 0 <= b < c < |t| && 0 <= i < |t[b]| && 0 <= j < |t[c]| && t[b][i].key != 0
      ensures t[b][i].key != t[c][j].key
    {
      assert t[c][j].key != 0 ==> Hash(|t|, t[c][j].key) == c;
      assert Hash(|t|, t[b][i].key) == b;
    }
    SizeKeys(t);
    assert Meaning(t).Keys == Keys(t);
  }

  // ----- resizing

  /** The bindings of `t` found in the bins below `b` and the first `i` entries of bin `b`. */
  predicate SeenAt(t: Table, b: int, i: int, c: int, j: int) {
    0 <= c < |t| && 0 <= j < |t[c]| && t[c][j].key != 0 && (c < b || (c == b && j < i))
  }

  /** `u` means exactly what has been seen of `t`. */
  ghost predicate CopiedUpTo(t: Table, b: nat, i: nat, u: Table) {
    && WellFormed(u)
    && (forall c, j :: SeenAt(t, b, i, c, j) ==> Binds(u[Hash(|u|, t[c][j].key)], t[c][j].key, t[c][j].val))
    && (forall k, v :: k != 0 && Binds(u[Hash(|u|, k)], k, v) ==>
          exists c, j :: SeenAt(t, b, i, c, j) && t[c][j] == Slot(k, v))
  }

  lemma NothingCopied(t: Table, u: Table)
    requires |u| >= 1 && forall b, i :: 0 <= b < |u| && 0 <= i < |u[b]| ==> u[b][i].key == 0
    ensures CopiedUpTo(t, 0, 0, u)
  {
  }

  /** One more entry copied, or a hole skipped. */
  lemma CopyEntry(t: Table, b: nat, i: nat, u: Table, u': Table)
    requires WellFormed(t) && b < |t| && i < |t[b]| && CopiedUpTo(t, b, i, u) && |u'| == |u|
    requires var s := t[b][i]; if s.key == 0 then u' == u
      else var d := Hash(|u|, s.key);
        Inserted(u[d], u'[d], s.key, s.val) && forall c :: 0 <= c < |u| && c != d ==> u'[c] == u[c]
    ensures CopiedUpTo(t, b, i + 1, u')
  {
    var s := t[b][i];
    if s.key == 0 {
      forall k, v | k != 0 && Binds(u'[Hash(|u'|, k)], k, v)
        ensures exists c, j :: SeenAt(t, b, i + 1, c, j) && t[c][j] == Slot(k, v)
      {
        var c, j :| SeenAt(t, b, i, c, j) && t[c][j] == Slot(k, v);
        assert SeenAt(t, b, i + 1, c, j);
      }
    } else {
      var d := Hash(|u|, s.key);
      NotYetCopied(t, b, i, u);
      InsertKeepsForm(u, u', s.key, s.val);
      InsertedBinds(u[d], u'[d], s.key, s.val);
      forall k, v | k != 0 && Binds(u'[Hash(|u'|, k)], k, v)
        ensures exists c, j :: SeenAt(t, b, i + 1, c, j) && t[c][j] == Slot(k, v)
      {
        if k == s.key {
          assert SeenAt(t, b, i + 1, b, i);
        } else {
          assert Binds(u[Hash(|u|, k)], k, v);
          var c, j :| SeenAt(t, b, i, c, j) && t[c][j] == Slot(k, v);
          assert SeenAt(t, b, i + 1, c, j);
        }
      }
      forall c, j | SeenAt(t, b, i + 1, c, j)
        ensures Binds(u'[Hash(|u'|, t[c][j].key)], t[c][j].key, t[c][j].val)
      {
        if !(c == b && j == i) {
          assert SeenAt(t, b, i, c, j);
          SameKeySameEntry(t, c, j, b, i);
        }
      }
    }
  }

  lemma SameKeySameEntry(t: Table, b: nat, i: nat, c: nat, j: nat)
    requires WellFormed(t) && b < |t| && i < |t[b]| && c < |t| && j < |t[c]|
    ensures t[b][i].key == t[c][j].key != 0 ==> b == c && i == j
  {
    assert t[b][i].key != 0 ==> Hash(|t|, t[b][i].key) == b;
    assert t[c][j].key != 0 ==> Hash(|t|, t[c][j].key) == c;
  }

  lemma NotYetCopied(t: Table, b: nat, i: nat, u: Table)
    requires WellFormed(t) && b < |t| && i < |t[b]| && t[b][i].key != 0 && CopiedUpTo(t, b, i, u)
    ensures !Has(u[Hash(|u|, t[b][i].key)], t[b][i].key)
  {
    var d := Hash(|u|, t[b][i].key);
    assert forall x :: 0 <= x < |u[d]| ==> Binds(u[d], u[d][x].key, u[d][x].val);
  }

  lemma NextBin(t: Table, b: nat, u: Table)
    requires b < |t| && CopiedUpTo(t, b, |t[b]|, u)
    ensures CopiedUpTo(t, b + 1, 0, u)
  {
    forall c, j
      ensures SeenAt(t, b + 1, 0, c, j) == SeenAt(t, b, |t[b]|, c, j)
    {
    }
  }

  /** A completed copy means the same, whatever the numbers of buckets. */
  lemma CopyMeaning(t: Table, u: Table)
    requires WellFormed(t) && CopiedUpTo(t, |t|, 0, u)
    ensures WellFormed(u) && Meaning(u) == Meaning(t)
  {
    forall k, v
      ensures Bound(u, k, v) <==> k in Meaning(t) && Meaning(t)[k] == v
    {
      MeaningBound(t, k, v);
      if k != 0 { CopyBinds(t, u, k, v); }
      hide Hash, Meaning, CopiedUpTo;
    }
    MeaningIs(u, Meaning(t));
  }

  lemma CopyBinds(t: Table, u: Table, k: nat, v: nat)
    requires WellFormed(t) && CopiedUpTo(t, |t|, 0, u) && k != 0
    ensures Bound(u, k, v) == Bound(t, k, v)
  {
    var b := Hash(|t|, k);
    if Bound(t, k, v) {
      var i :| 0 <= i < |t[b]| && t[b][i] == Slot(k, v);
      assert SeenAt(t, |t|, 0, b, i);
    }
    if Bound(u, k, v) {
      var c, j :| SeenAt(t, |t|, 0, c, j) && t[c][j] == Slot(k, v);
      assert Hash(|t|, t[c][j].key) == c;
    }
  }

  // ----- tables filled by clht_lp_put_seq alone

  /** Only the last bucket of the chain may have a hole. */
  predicate Dense(c: Slots) {
    |c| >= ENTRIES && |c| % ENTRIES == 0 && forall i :: 0 <= i < |c| - ENTRIES ==> c[i].key != 0
  }

  predicate AllDense(t: Table) {
    forall b :: 0 <= b < |t| ==> Dense(t[b])
  }

  /** The buckets linked behind the first one. */
  function Linked(c: Slots): nat {
    if |c| < ENTRIES then 0 else |c| / ENTRIES - 1
  }

  function AllLinked(t: Table): seq<nat> {
    seq(|t|, b requires 0 <= b < |t| => Linked(t[b]))
  }

  function Expansions(t: Table): nat {
    Sum(AllLinked(t))
  }

  lemma NothingExpanded(t: Table)
    requires forall b :: 0 <= b < |t| ==> |t[b]| == ENTRIES
    ensures AllDense(t) && Expansions(t) == 0
  {
    SumZero(AllLinked(t));
  }

  lemma InsertDense(t: Table, t': Table, d: nat, key: nat, val: nat)
    requires AllDense(t) && key != 0 && d < |t| == |t'|
    requires Inserted(t[d], t'[d], key, val) && forall c :: 0 <= c < |t| && c != d ==> t'[c] == t[c]
    ensures AllDense(t')
    ensures Expansions(t') == Expansions(t) + if IndexOf(t[d], 0) < |t[d]| then 0 else 1
  {
    SumUpdate(AllLinked(t), AllLinked(t'), d);
    assert Dense(t[d]);
    if IndexOf(t[d], 0) == |t[d]| {
      forall i | 0 <= i < |t'[d]| - ENTRIES
        ensures t'[d][i].key != 0
      {
        assert t'[d][..|t[d]|][i] == t[d][i];
      }
    }
  }

  lemma {:induction false} CountAtLeast(c: Slots, n: nat)
    requires n <= |c| && forall i :: 0 <= i < n ==> c[i].key != 0
    ensures Count(c) >= n
  {
    if c != [] { CountAtLeast(c[..|c| - 1], if n < |c| then n else n - 1); }
  }

  /** Every bucket but the last of its chain has all its entries in use. */
  lemma {:induction false} DenseSize(t: Table)
    requires AllDense(t)
    ensures ENTRIES * Expansions(t) <= Size(t)
  {
    if t != [] {
      var u, last := t[..|t| - 1], t[|t| - 1];
      DenseSize(u);
      assert Dense(last);
      CountAtLeast(last, |last| - ENTRIES);
      assert AllLinked(t)[..|t| - 1] == AllLinked(u);
    }
  }

  // ----- how ht_status chooses

  /** full_ratio is positive and below CLHT_PERC_FULL_HALVE. */
  predicate Sparse(numBuckets: nat, size: nat) {
    0 < size && 100 * size < PERC_FULL_HALVE * (numBuckets * ENTRIES)
  }

  /** Dividing the number of buckets by eight leaves none in exactly one case. */
  lemma HalvedToNothing(numBuckets: nat, size: nat)
    requires numBuckets >= 1
    ensures Sparse(numBuckets, size) && numBuckets / RATIO_HALVE == 0 <==> numBuckets == 7 && size == 1
  {
  }

  /** What put does to the meaning, whether or not the key is there. */
  lemma PutMeaning(t: Table, t': Table, key: nat, val: nat)
    requires WellFormed(t) && key != 0 && |t'| == |t|
    requires var b := Hash(|t|, key);
      && (forall c :: 0 <= c < |t| && c != b ==> t'[c] == t[c])
      && if IndexOf(t[b], key) < |t[b]| then t'[b] == t[b] else Inserted(t[b], t'[b], key, val)
    ensures WellFormed(t')
    ensures Meaning(t') == if key in Meaning(t) then Meaning(t) else Meaning(t)[key := val]
    ensures key in Meaning(t) <==> IndexOf(t[Hash(|t|, key)], key) < |t[Hash(|t|, key)]|
  {
    var b := Hash(|t|, key);
    LookupBinds(t[b], key);
    MeaningBinds(t, key);
    if Has(t[b], key) {
      assert t' == t;
    } else {
      InsertMeaning(t, t', key, val);
    }
  }

  /** A table in which a chain had to be extended binds two keys or more. */
  lemma ExpandedHasTwo(t: Table, t': Table, key: nat, val: nat)
    requires WellFormed(t) && WellFormed(t') && key != 0 && |t'| == |t|
    requires var c := t[Hash(|t|, key)]; |c| >= 1 && IndexOf(c, 0) == |c| && IndexOf(c, key) == |c|
    requires Inserted(t[Hash(|t|, key)], t'[Hash(|t|, key)], key, val)
    ensures |Meaning(t')| >= 2
  {
    var b := Hash(|t|, key);
    var c, c' := t[b], t'[b];
    assert c[0].key != 0 && c[0].key != key;
    assert c'[0] == c[0] && c'[|c|].key == key;
    hide Hash, WellFormed, Inserted, Keys, IndexOf, Get;
    TwoKeys(t', b, 0, |c|);
    assert Meaning(t').Keys == Keys(t');
  }

  lemma TwoKeys(t: Table, b: nat, i: nat, j: nat)
    requires b < |t| && i < |t[b]| && j < |t[b]| && t[b][i].key != t[b][j].key
    requires t[b][i].key != 0 && t[b][j].key != 0
    ensures |Keys(t)| >= 2
  {
    assert |{t[b][i].key, t[b][j].key}| == 2;
    SubsetSize({t[b][i].key, t[b][j].key}, Keys(t));
  }
}
