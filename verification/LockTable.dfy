/** The sequential operations of src/clht_lock_pointer.c on the heap: chains of linked
    buckets that are scanned, extended and copied in place. */
module LockTable {
  import opened Tables

  /** bucket_s; its key and val arrays are part of the struct. The ghost constants say
      which chain the bucket is in, and where: a bucket never moves. */
  class Bucket {
    var key: seq<nat>
    var val: seq<nat>
    var next: Bucket?
    ghost const home: nat
    ghost const rank: nat

    /** clht_lp_bucket_create */
    constructor (ghost home: nat, ghost rank: nat)
      ensures key == [0, 0, 0] && |val| == ENTRIES && next == null
      ensures this.home == home && this.rank == rank
    {
      key, val, next := [0, 0, 0], [0, 0, 0], null;
      this.home, this.rank := home, rank;
    }

    ghost predicate Sized()
      reads this
    {
      |key| == ENTRIES && |val| == ENTRIES
    }

    ghost function Entry(j: nat): Slot
      requires Sized() && j < ENTRIES
      reads this
    {
      Slot(key[j], val[j])
    }
  }

  /** A chain: linked in order, ending in null. */
  ghost predicate Chain(bs: seq<Bucket>, bin: nat)
    reads bs
  {
    && |bs| >= 1
    && (forall i :: 0 <= i < |bs| ==> bs[i].Sized() && bs[i].home == bin && bs[i].rank == i)
    && (forall i {:trigger bs[i].next} :: 0 <= i < |bs| ==> bs[i].next == if i + 1 < |bs| then bs[i + 1] else null)
  }

  /** The entries of a chain. */
  ghost function SlotsOf(bs: seq<Bucket>): (r: Slots)
    requires forall i :: 0 <= i < |bs| ==> bs[i].Sized()
    reads bs
    ensures |r| == ENTRIES * |bs|
    ensures forall i, j :: 0 <= i < |bs| && 0 <= j < ENTRIES ==> r[ENTRIES * i + j] == bs[i].Entry(j)
  {
    if bs == [] then []
    else
      var n := |bs| - 1;
      var r := SlotsOf(bs[..n]) + [bs[n].Entry(0), bs[n].Entry(1), bs[n].Entry(2)];
      assert forall i, j :: 0 <= i < n && 0 <= j < ENTRIES ==> r[ENTRIES * i + j] == bs[..n][i].Entry(j);
      r
  }

  /** Overwrite an entry: value first, then key. */
  method Store(ghost bs: seq<Bucket>, ghost bin: nat, ghost i: nat, bucket: Bucket, j: nat, key: nat, val: nat)
    requires Chain(bs, bin) && i < |bs| && bs[i] == bucket && j < ENTRIES
    modifies bucket
    ensures Chain(bs, bin) && SlotsOf(bs) == old(SlotsOf(bs))[ENTRIES * i + j := Slot(key, val)]
  {
    hide SlotsOf;
    ghost var before := SlotsOf(bs);
    bucket.val := bucket.val[j := val];
    bucket.key := bucket.key[j := key];
    ghost var after := SlotsOf(bs);
    assert forall x :: 0 <= x < |bs| ==> bs[x].next == old(bs[x].next);
    assert forall x :: 0 <= x < |bs| && x != i ==> bs[x] != bucket;
    forall x | 0 <= x < |after|
      ensures after[x] == before[ENTRIES * i + j := Slot(key, val)][x]
    {
      assert x == ENTRIES * (x / ENTRIES) + x % ENTRIES;
      assert bs[x / ENTRIES].Entry(x % ENTRIES) == after[x];
      assert old(bs[x / ENTRIES].Entry(x % ENTRIES)) == before[x];
    }
  }

  /** Link a new bucket, with one entry already in it, at the end of a chain. */
  method Extend(ghost bs: seq<Bucket>, ghost bin: nat, last: Bucket, key: nat, val: nat) returns (b: Bucket)
    requires Chain(bs, bin) && last == bs[|bs| - 1]
    modifies last
    ensures fresh(b) && Chain(bs + [b], bin)
    ensures Appended(old(SlotsOf(bs)), SlotsOf(bs + [b]), key, val)
  {
    hide SlotsOf;
    ghost var before := SlotsOf(bs);
    b := new Bucket(bin, |bs|);
    b.val := b.val[0 := val];
    b.key := b.key[0 := key];
    last.next := b;
    ghost var bs' := bs + [b];
    forall i | 0 <= i < |bs'|
      ensures bs'[i].Sized() && bs'[i].home == bin && bs'[i].rank == i
      ensures bs'[i].next == if i + 1 < |bs'| then bs'[i + 1] else null
    {
      if i < |bs| - 1 {
        assert bs[i].rank != last.rank;
        assert bs'[i].next == old(bs[i].next);
      }
    }
    assert Chain(bs', bin);
    ghost var c := SlotsOf(bs + [b]);
    forall x | 0 <= x < ENTRIES * |bs|
      ensures c[x] == before[x]
    {
      assert x == ENTRIES * (x / ENTRIES) + x % ENTRIES;
      assert (bs + [b])[x / ENTRIES] == bs[x / ENTRIES];
      assert (bs + [b])[x / ENTRIES].Entry(x % ENTRIES) == c[x];
      assert old(bs[x / ENTRIES].Entry(x % ENTRIES)) == before[x];
    }
    ghost var n := ENTRIES * |bs|;
    assert c[n + 0] == bs'[|bs|].Entry(0) == Slot(key, val);
    assert c[n + 1] == bs'[|bs|].Entry(1) && c[n + 2] == bs'[|bs|].Entry(2);
    assert c[..n] == before;
    forall i | n < i < |c|
      ensures c[i].key == 0
    {
      assert i == n + 1 || i == n + 2;
    }
  }

  /** clht_lp_hashtable_s */
  class HashTable {
    var numBuckets: nat
    var table: array<Bucket>
    var numExpands: nat
    var numExpandsThreshold: nat
    ghost var chains: seq<seq<Bucket>>
    ghost var buckets: set<Bucket>

    /** clht_lp_hashtable_create, once the number of buckets is known not to be 0. */
    constructor (numBuckets: nat)
      requires numBuckets >= 1
      ensures Valid() && fresh(table) && fresh(buckets)
      ensures this.numBuckets == numBuckets == numExpandsThreshold && numExpands == 0
      ensures forall b :: 0 <= b < numBuckets ==> |Value()[b]| == ENTRIES
      ensures forall b, i :: 0 <= b < numBuckets && 0 <= i < |Value()[b]| ==> Value()[b][i].key == 0
    {
      hide SlotsOf;
      var heads: seq<Bucket> := [];
      for i := 0 to numBuckets
        invariant |heads| == i && fresh(heads)
        invariant forall c :: 0 <= c < i ==> heads[c].key == [0, 0, 0] && Chain([heads[c]], c)
      {
        var b := new Bucket(i, 0);
        heads := heads + [b];
      }
      this.numBuckets, numExpands, numExpandsThreshold := numBuckets, 0, numBuckets;
      table := new Bucket[numBuckets](i requires 0 <= i < |heads| => heads[i]);
      chains := seq(numBuckets, c requires 0 <= c < |heads| => [heads[c]]);
      buckets := set b | b in heads;
      new;
      forall c, x | 0 <= c < numBuckets && 0 <= x < |Value()[c]|
        ensures Value()[c][x].key == 0
      {
        assert Value()[c][ENTRIES * 0 + x] == chains[c][0].Entry(x);
      }
    }

    ghost predicate Valid()
      reads this, table, buckets
    {
      && numBuckets >= 1
      && table.Length == |chains| == numBuckets
      && (forall c, i :: 0 <= c < |chains| && 0 <= i < |chains[c]| ==> chains[c][i] in buckets)
      && (forall c :: 0 <= c < |chains| ==> Chain(chains[c], c) && table[c] == chains[c][0])
    }

    /** The table as a value. */
    ghost function Value(): (t: Table)
      requires Valid()
      reads this, table, buckets
      ensures |t| == numBuckets && forall c :: 0 <= c < |t| ==> t[c] == SlotsOf(chains[c])
    {
      seq(|chains|, c requires 0 <= c < |chains| && Valid() reads this, table, buckets => SlotsOf(chains[c]))
    }

    /** Nothing but one chain has changed. */
    twostate predicate OnlyChain(bin: nat)
      requires old(Valid()) && Valid()
      reads this, table, buckets
    {
      && table == old(table) && numBuckets == old(numBuckets) && numExpandsThreshold == old(numExpandsThreshold)
      && forall c :: 0 <= c < numBuckets && c != bin ==> Value()[c] == old(Value())[c]
    }

    /** Store into one of this table's chains. */
    method Write(bin: nat, ghost i: nat, bucket: Bucket, j: nat, key: nat, val: nat)
      requires Valid() && bin < numBuckets && i < |chains[bin]| && chains[bin][i] == bucket && j < ENTRIES
      modifies bucket
      ensures Valid() && chains == old(chains) && buckets == old(buckets) && OnlyChain(bin)
      ensures Value()[bin] == old(Value())[bin][ENTRIES * i + j := Slot(key, val)]
    {
      hide SlotsOf;
      assert forall c, x :: 0 <= c < |chains| && 0 <= x < |chains[c]| && c != bin ==> chains[c][x] != bucket;
      Store(chains[bin], bin, i, bucket, j, key, val);
    }

    /** clht_bucket_create_stats, then link the new bucket; the caller asks for a resize
        when the count of expansions reaches the threshold exactly. */
    method AddBucket(bin: nat, last: Bucket, key: nat, val: nat) returns (resize: bool)
      requires Valid() && bin < numBuckets && last == chains[bin][|chains[bin]| - 1]
      modifies this, last
      ensures Valid() && fresh(buckets - old(buckets)) && OnlyChain(bin)
      ensures numExpands == old(numExpands) + 1 && resize == (numExpands == numExpandsThreshold)
      ensures Appended(old(Value())[bin], Value()[bin], key, val)
    {
      hide SlotsOf;
      numExpands := numExpands + 1;
      resize := numExpands == numExpandsThreshold;
      ghost var bs := chains[bin];
      var b := Extend(bs, bin, last, key, val);
      forall c | 0 <= c < |chains| && c != bin
        ensures Chain(chains[c], c) && SlotsOf(chains[c]) == old(SlotsOf(chains[c]))
      {
        assert forall x :: 0 <= x < |chains[c]| ==> chains[c][x] != last;
      }
      chains := chains[bin := bs + [b]];
      buckets := buckets + {b};
      assert Valid();
      assert SlotsOf(bs + [b])[ENTRIES * |bs|..] == SlotsOf(chains[bin])[ENTRIES * |bs|..];
      assert Appended(old(SlotsOf(bs)), SlotsOf(chains[bin]), key, val);
      assert OnlyChain(bin);
    }

    /** clht_lp_get, and the same scan in bucket_exists. */
    method Get(key: nat) returns (val: nat)
      requires Valid()
      ensures val == Tables.Get(Value(), key)
    {
      hide SlotsOf;
      var bin := Hash(numBuckets, key);
      var bucket: Bucket? := table[bin];
      ghost var bs, slots, i := chains[bin], SlotsOf(chains[bin]), 0;
      while bucket != null
        invariant 0 <= i <= |bs|
        invariant bucket == if i < |bs| then bs[i] else null
        invariant forall x :: 0 <= x < ENTRIES * i ==> slots[x].key != key
        decreases |bs| - i
      {
        var j := 0;
        while j < ENTRIES
          invariant 0 <= j <= ENTRIES
          invariant forall x :: 0 <= x < ENTRIES * i + j ==> slots[x].key != key
        {
          assert slots[ENTRIES * i + j] == bs[i].Entry(j);
          if bucket.key[j] == key {
            return bucket.val[j];
          }
          j := j + 1;
        }
        bucket := bucket.next;
        i := i + 1;
      }
      return 0;
    }

    /** clht_lp_size, and the count that ht_status makes. */
    method Size() returns (size: nat)
      requires Valid()
      ensures size == Tables.Size(Value())
    {
      hide SlotsOf, Count, Tables.Size;
      ghost var t := Value();
      Nothing();
      size := 0;
      for bin := 0 to numBuckets
        invariant size == Tables.Size(t[..bin])
      {
        var bucket: Bucket? := table[bin];
        ghost var bs, i := chains[bin], 0;
        assert t[bin][..0] == [];
        while bucket != null
          invariant 0 <= i <= |bs|
          invariant bucket == if i < |bs| then bs[i] else null
          invariant size == Tables.Size(t[..bin]) + Count(t[bin][..ENTRIES * i])
          decreases |bs| - i
        {
          for j := 0 to ENTRIES
            invariant size == Tables.Size(t[..bin]) + Count(t[bin][..ENTRIES * i + j])
          {
            assert t[bin][ENTRIES * i + j] == bs[i].Entry(j);
            CountOneMore(t[bin], ENTRIES * i + j);
            if bucket.key[j] > 0 {
              size := size + 1;
            }
          }
          bucket := bucket.next;
          i := i + 1;
        }
        assert t[bin][..ENTRIES * |bs|] == t[bin];
        SizeOneMore(t, bin);
      }
      assert t[..numBuckets] == t;
    }

    /** The part of clht_lp_put_impl under the bucket lock: the whole chain is scanned before
        the new lock goes into the first hole met, or into a new bucket. */
    method PutImpl(key: nat, newLock: nat) returns (val: nat, resize: bool)
      requires Valid() && key != 0
      modifies this, buckets
      ensures Valid() && fresh(buckets - old(buckets))
      ensures var bin := Hash(old(numBuckets), key);
        var c := old(Value())[bin];
        && OnlyChain(bin)
        && (if IndexOf(c, key) < |c|
            then val == Lookup(c, key) && Value()[bin] == c && numExpands == old(numExpands) && !resize
            else
              && val == newLock && Inserted(c, Value()[bin], key, newLock)
              && numExpands == old(numExpands) + (if IndexOf(c, 0) < |c| then 0 else 1)
              && resize == (IndexOf(c, 0) == |c| && numExpands == numExpandsThreshold))
    {
      hide SlotsOf;
      var bin := Hash(numBuckets, key);
      var bucket := table[bin];
      var empty: Bucket?, emptyAt := null, 0;
      ghost var bs, slots, i, ei := chains[bin], SlotsOf(chains[bin]), 0, 0;
      while true
        invariant 0 <= i < |bs| && bucket == bs[i]
        invariant forall x :: 0 <= x < ENTRIES * i ==> slots[x].key != key
        invariant FirstHole(bs, slots, ENTRIES * i, empty, emptyAt, ei)
        decreases |bs| - i
      {
        var j := 0;
        while j < ENTRIES
          invariant 0 <= j <= ENTRIES
          invariant forall x :: 0 <= x < ENTRIES * i + j ==> slots[x].key != key
          invariant FirstHole(bs, slots, ENTRIES * i + j, empty, emptyAt, ei)
        {
          assert slots[ENTRIES * i + j] == bs[i].Entry(j);
          if bucket.key[j] == key {
            return bucket.val[j], false;
          } else if empty == null && bucket.key[j] == 0 {
            empty, emptyAt, ei := bucket, j, i;
          }
          j := j + 1;
        }
        if bucket.next == null {
          if empty == null {
            resize := AddBucket(bin, bucket, key, newLock);
          } else {
            Write(bin, ei, empty, emptyAt, key, newLock);
            resize := false;
          }
          return newLock, resize;
        }
        bucket := bucket.next;
        i := i + 1;
      }
    }

    /** clht_lp_put_seq: no check for the key. */
    method PutSeq(key: nat, val: nat, bin: nat)
      requires Valid() && bin < numBuckets
      modifies this, buckets
      ensures Valid() && fresh(buckets - old(buckets))
      ensures OnlyChain(bin) && Inserted(old(Value())[bin], Value()[bin], key, val)
      ensures numExpands == old(numExpands) + if IndexOf(old(Value())[bin], 0) < |old(Value())[bin]| then 0 else 1
    {
      hide SlotsOf;
      var bucket := table[bin];
      ghost var bs, slots, i := chains[bin], SlotsOf(chains[bin]), 0;
      while true
        invariant 0 <= i < |bs| && bucket == bs[i]
        invariant forall x :: 0 <= x < ENTRIES * i ==> slots[x].key != 0
        decreases |bs| - i
      {
        var j := 0;
        while j < ENTRIES
          invariant 0 <= j <= ENTRIES
          invariant forall x :: 0 <= x < ENTRIES * i + j ==> slots[x].key != 0
        {
          assert slots[ENTRIES * i + j] == bs[i].Entry(j);
          if bucket.key[j] == 0 {
            Write(bin, i, bucket, j, key, val);
            return;
          }
          j := j + 1;
        }
        if bucket.next == null {
          var unused := AddBucket(bin, bucket, key, val);
          return;
        }
        bucket := bucket.next;
        i := i + 1;
      }
    }

    /** clht_lp_remove; the value stays behind in the hole. */
    method Remove(key: nat) returns (val: nat)
      requires Valid() && key != 0
      modifies buckets
      ensures Valid() && buckets == old(buckets) && val == Tables.Get(old(Value()), key)
      ensures var bin := Hash(old(numBuckets), key);
        OnlyChain(bin) && Removed(old(Value())[bin], Value()[bin], key)
    {
      hide SlotsOf;
      var bin := Hash(numBuckets, key);
      var bucket: Bucket? := table[bin];
      ghost var bs, slots, i := chains[bin], SlotsOf(chains[bin]), 0;
      while bucket != null
        invariant 0 <= i <= |bs|
        invariant bucket == if i < |bs| then bs[i] else null
        invariant forall x :: 0 <= x < ENTRIES * i ==> slots[x].key != key
        decreases |bs| - i
      {
        var j := 0;
        while j < ENTRIES
          invariant 0 <= j <= ENTRIES
          invariant forall x :: 0 <= x < ENTRIES * i + j ==> slots[x].key != key
        {
          assert slots[ENTRIES * i + j] == bs[i].Entry(j);
          if bucket.key[j] == key {
            val := bucket.val[j];
            Write(bin, i, bucket, j, 0, val);
            return;
          }
          j := j + 1;
        }
        bucket := bucket.next;
        i := i + 1;
      }
      return 0;
    }
  }

  // ----- resizing

  /** Two tables that share nothing. */
  ghost predicate Apart(from: HashTable, to: HashTable)
    reads from, to
  {
    from != to && from.table != to.table && from.buckets !! to.buckets
  }

  /** What copying into `to` leaves alone. */
  twostate predicate OnlyFills(from: HashTable, to: HashTable)
    requires old(from.Valid())
    reads from, from.table, from.buckets, to
  {
    && from.Valid() && from.chains == old(from.chains) && from.Value() == old(from.Value())
    && from.table == old(from.table)
    && to.table == old(to.table) && to.numBuckets == old(to.numBuckets)
    && to.numExpandsThreshold == old(to.numExpandsThreshold)
    && fresh(to.buckets - old(to.buckets))
  }

  /** The table has only been filled by clht_lp_put_seq, and its expansions have been counted. */
  ghost predicate Compact(h: HashTable)
    requires h.Valid()
    reads h, h.table, h.buckets
  {
    AllDense(h.Value()) && h.numExpands == Expansions(h.Value())
  }

  method CopySlot(from: HashTable, b: nat, to: HashTable, ghost x: nat, key: nat, val: nat)
    requires from.Valid() && to.Valid() && Apart(from, to) && WellFormed(from.Value())
    requires b < from.numBuckets && x < |from.Value()[b]| && from.Value()[b][x] == Slot(key, val)
    requires CopiedUpTo(from.Value(), b, x, to.Value()) && Compact(to)
    modifies to, to.buckets
    ensures OnlyFills(from, to) && to.Valid() && Apart(from, to)
    ensures CopiedUpTo(from.Value(), b, x + 1, to.Value()) && Compact(to)
  {
    hide SlotsOf, CopiedUpTo, WellFormed, Inserted, AllDense, Expansions;
    ghost var t, u := from.Value(), to.Value();
    if key != 0 {
      var bin := Hash(to.numBuckets, key);
      to.PutSeq(key, val, bin);
      InsertDense(u, to.Value(), bin, key, val);
    }
    CopyEntry(t, b, x, u, to.Value());
  }

  /** bucket_cpy: every key of one chain is put into the new table. */
  method BucketCopy(from: HashTable, b: nat, to: HashTable)
    requires from.Valid() && to.Valid() && Apart(from, to) && WellFormed(from.Value())
    requires b < from.numBuckets && CopiedUpTo(from.Value(), b, 0, to.Value()) && Compact(to)
    modifies to, to.buckets
    ensures OnlyFills(from, to) && to.Valid() && Apart(from, to)
    ensures CopiedUpTo(from.Value(), b + 1, 0, to.Value()) && Compact(to)
  {
    hide SlotsOf, CopiedUpTo, WellFormed, AllDense, Expansions;
    var bucket: Bucket? := from.table[b];
    ghost var t, bs, i := from.Value(), from.chains[b], 0;
    while bucket != null
      invariant 0 <= i <= |bs|
      invariant bucket == if i < |bs| then bs[i] else null
      invariant OnlyFills(from, to) && to.Valid() && Apart(from, to)
      invariant CopiedUpTo(t, b, ENTRIES * i, to.Value()) && Compact(to)
      decreases |bs| - i
    {
      var j := 0;
      while j < ENTRIES
        invariant 0 <= j <= ENTRIES
        invariant OnlyFills(from, to) && to.Valid() && Apart(from, to)
        invariant CopiedUpTo(t, b, ENTRIES * i + j, to.Value()) && Compact(to)
      {
        assert t[b][ENTRIES * i + j] == bs[i].Entry(j);
        CopySlot(from, b, to, ENTRIES * i + j, bucket.key[j], bucket.val[j]);
        j := j + 1;
      }
      bucket := bucket.next;
      i := i + 1;
    }
    NextBin(t, b, to.Value());
  }

  /** The part of ht_resize_pes between reading and replacing h->ht. The new table asks for
      another resize only if it holds at least three keys per bucket. */
  method Resize(from: HashTable, numBuckets: nat) returns (to: HashTable, again: bool)
    requires from.Valid() && WellFormed(from.Value()) && numBuckets >= 1
    ensures fresh(to) && fresh(to.table) && fresh(to.buckets)
    ensures to.Valid() && to.numBuckets == numBuckets && WellFormed(to.Value())
    ensures Meaning(to.Value()) == Meaning(from.Value())
    ensures again == (to.numExpands >= to.numExpandsThreshold)
    ensures again ==> ENTRIES * numBuckets <= |Meaning(from.Value())|
  {
    hide SlotsOf, CopiedUpTo, WellFormed, Meaning, AllDense, Expansions;
    to := new HashTable(numBuckets);
    ghost var t := from.Value();
    NothingCopied(t, to.Value());
    NothingExpanded(to.Value());
    for b := 0 to from.numBuckets
      invariant from.Valid() && from.Value() == t && from.numBuckets == |t|
      invariant fresh(to) && fresh(to.table) && fresh(to.buckets)
      invariant to.Valid() && to.numBuckets == numBuckets == to.numExpandsThreshold && Apart(from, to)
      invariant CopiedUpTo(t, b, 0, to.Value()) && Compact(to)
    {
      BucketCopy(from, b, to);
    }
    CopyMeaning(t, to.Value());
    again := to.numExpands >= to.numExpandsThreshold;
    DenseSize(to.Value());
    SizeMeaning(to.Value());
  }

  /** What the scan of put remembers: the first hole so far, if there is one. */
  ghost predicate FirstHole(bs: seq<Bucket>, slots: Slots, upTo: nat, empty: Bucket?, emptyAt: nat, i: nat)
    requires upTo <= |slots|
  {
    if empty == null then forall x :: 0 <= x < upTo ==> slots[x].key != 0
    else
      && i < |bs| && bs[i] == empty && emptyAt < ENTRIES && ENTRIES * i + emptyAt < upTo
      && slots[ENTRIES * i + emptyAt].key == 0
      && forall x :: 0 <= x < ENTRIES * i + emptyAt ==> slots[x].key != 0
  }

  // ----- the table of tables

  /** `r` is the least power of two that is not smaller than `x`. */
  predicate LeastPower(x: bv32, r: bv32) {
    r != 0 && r & (r - 1) == 0 && r >= x && (r >> 1 < x || r == 1)
  }

  /** pow2roundup */
  method Pow2RoundUp(x: bv32) returns (r: bv32)
    ensures x <= 0x8000_0000 ==> LeastPower(x, r)
    ensures x <= 1 ==> r == 1
    ensures x > 0x8000_0000 ==> r == 0
  {
    if x == 0 {
      return 1;
    }
    r := x - 1;
    r := r | (r >> 1);
    r := r | (r >> 2);
    r := r | (r >> 4);
    r := r | (r >> 8);
    r := r | (r >> 16);
    r := r + 1;
  }

  /** The number of buckets that ht_status asks for when it is called to increase the table:
      a sparse table shrinks all the same. `incBy` is the quotient of two floating-point
      ratios, cast to an integer. */
  method NewSize(numBuckets: nat, size: nat, incBy: bv32) returns (n: nat)
    requires numBuckets >= 1 && incBy <= 0x8000_0000
    ensures n == 0 <==> numBuckets == 7 && size == 1
    ensures if Sparse(numBuckets, size) then n == numBuckets / RATIO_HALVE
            else exists times :: LeastPower(AtLeastTwo(incBy), times) && n == Times(times, numBuckets)
    ensures !Sparse(numBuckets, size) ==> n >= 2 * numBuckets
  {
    hide LeastPower, AtLeastTwo, Times;
    HalvedToNothing(numBuckets, size);
    if 0 < size && 100 * size < PERC_FULL_HALVE * (numBuckets * ENTRIES) {
      n := numBuckets / RATIO_HALVE;
    } else {
      var times := Pow2RoundUp(incBy);
      PowerOrTwo(incBy, times);
      if times == 1 {
        times := 2;
      }
      TimesTwo(times, numBuckets);
      n := Times(times, numBuckets);
    }
  }

  function AtLeastTwo(x: bv32): bv32 {
    if x < 2 then 2 else x
  }

  function Times(times: bv32, numBuckets: nat): nat {
    times as nat * numBuckets
  }

  lemma TimesTwo(times: bv32, numBuckets: nat)
    requires times as nat >= 2
    ensures Times(times, numBuckets) >= 2 * numBuckets
  {
    AtLeastDouble(times as nat, numBuckets);
  }

  lemma AtLeastDouble(k: nat, n: nat)
    requires k >= 2
    ensures k * n >= 2 * n
  {
    assert k * n == 2 * n + (k - 2) * n;
  }

  lemma PowerOrTwo(x: bv32, r: bv32)
    requires LeastPower(x, r)
    ensures r == 1 ==> LeastPower(AtLeastTwo(x), 2) && 2 as bv32 as nat == 2
    ensures r != 1 ==> LeastPower(AtLeastTwo(x), r) && r as nat >= 2
  {
  }

  /** clht_lp_t, used by one thread. */
  class Clht {
    var ht: HashTable

    /** The table is in order; it may have asked for a resize. */
    ghost predicate Intact()
      reads this, ht, ht.table, ht.buckets
    {
      ht.Valid() && WellFormed(ht.Value())
    }

    /** Between two operations no resize is due. */
    ghost predicate Valid()
      reads this, ht, ht.table, ht.buckets
    {
      Intact() && ht.numExpands < ht.numExpandsThreshold
    }

    ghost function Map(): map<nat, nat>
      requires Intact()
      reads this, ht, ht.table, ht.buckets
    {
      Meaning(ht.Value())
    }

    /** clht_lp_create, for a number of buckets other than 0. */
    constructor (numBuckets: nat)
      requires numBuckets >= 1
      ensures Valid() && Map() == map[] && fresh(ht) && fresh(ht.table) && fresh(ht.buckets)
    {
      hide WellFormed, Meaning, SlotsOf, Hash;
      ht := new HashTable(numBuckets);
      new;
      EmptyMeaning(ht.Value());
    }

    /** clht_lp_get on the current table. */
    method Get(key: nat) returns (val: nat)
      requires Valid() && key != 0
      ensures val == if key in Map() then Map()[key] else 0
    {
      val := ht.Get(key);
      GetMeaning(ht.Value(), key);
    }

    /** clht_lp_size on the current table. */
    method Size() returns (size: nat)
      requires Intact()
      ensures size == |Map()|
    {
      size := ht.Size();
      SizeMeaning(ht.Value());
    }

    method Remove(key: nat) returns (val: nat)
      requires Valid() && key != 0
      modifies ht.buckets
      ensures Valid() && ht == old(ht) && Map() == old(Map()) - {key}
      ensures val == if key in old(Map()) then old(Map())[key] else 0
    {
      hide WellFormed, Meaning, Hash, Removed;
      ghost var t := ht.Value();
      val := ht.Remove(key);
      GetMeaning(t, key);
      RemoveMeaning(t, ht.Value(), key);
    }

    /** ht_status with resize_increase set, and the resizes that follow when the new table has
        already expanded too often: each has at least twice the buckets of the last one, they
        come to an end, and the last table asks for none. */
    method Status()
      requires Intact() && !(ht.numBuckets == 7 && |Map()| == 1)
      modifies this
      decreases |Map()| - ht.numBuckets
      ensures Valid() && Map() == old(Map()) && fresh(ht) && fresh(ht.table) && fresh(ht.buckets)
      ensures if Sparse(old(ht.numBuckets), |Map()|) then ht.numBuckets == old(ht.numBuckets) / RATIO_HALVE
              else ht.numBuckets >= 2 * old(ht.numBuckets)
    {
      hide WellFormed, Meaning, SlotsOf, Hash;
      var size := Size();
      var incBy: bv32 :| incBy <= 0x8000_0000;
      var n := NewSize(ht.numBuckets, size, incBy);
      var again;
      ht, again := Resize(ht, n);
      if again {
        Status();
      }
    }

    /** clht_lp_put_type when no other thread interferes. */
    method PutType(key: nat, newLock: nat) returns (val: nat)
      requires Valid() && key != 0
      modifies this, ht, ht.buckets
      ensures Valid() && Map() == if key in old(Map()) then old(Map()) else old(Map())[key := newLock]
      ensures val == Map()[key]
    {
      hide WellFormed, Meaning, Hash, Inserted;
      var curr := ht.Get(key);
      ghost var t := ht.Value();
      GetMeaning(t, key);
      if curr != 0 {
        return curr;
      }
      var resize;
      val, resize := ht.PutImpl(key, newLock);
      PutMeaning(t, ht.Value(), key, newLock);
      if resize {
        ExpandedHasTwo(t, ht.Value(), key, newLock);
        Status();
      }
    }
  }
}
