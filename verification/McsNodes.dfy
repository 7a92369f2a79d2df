/** The per-thread MCS nodes of src/glk.c and src/mcs_glk_in.c: up to 16 nested locks, each
    given a slot when its queue is joined and found again, by the lock's address, when it is
    left.

    A thread's block is one array of words, as the structure lays them out: 16 head pointers,
    then 16 nodes of two words, `waiting` and `next`. All loops run to index 16 inclusive, so
    their last probe, head[16], is the `waiting` word of the first node. Compiled with PADDING
    the nodes of mcs_glk_impl.h take 64 bytes each, `waiting` still being the first word. */
module McsNodes {
  import opened Sums

  const NESTED := 16
  const WORDS := NESTED + 2 * NESTED

  /** The first of the probed words that is `x`, or NESTED + 1. */
  function Probe(w: seq<nat>, x: nat): (i: nat)
    requires |w| == WORDS
    ensures i <= NESTED + 1 && (i <= NESTED ==> w[i] == x) && forall j :: 0 <= j < i ==> w[j] != x
  {
    ProbeFrom(w, x, 0)
  }

  function ProbeFrom(w: seq<nat>, x: nat, from: nat): (i: nat)
    requires |w| == WORDS && from <= NESTED + 1
    ensures from <= i <= NESTED + 1 && (i <= NESTED ==> w[i] == x) && forall j :: from <= j < i ==> w[j] != x
    decreases NESTED + 1 - from
  {
    if from > NESTED || w[from] == x then from else ProbeFrom(w, x, from + 1)
  }

  /** glk_mcs_lock_local_t; results are indices of nodes, NESTED + 1 for NULL. */
  class LocalNodes {
    var words: array<nat>

    constructor ()
      ensures fresh(words) && words.Length == WORDS && words[..] == seq(WORDS, i => 0)
    {
      words := new nat[WORDS](i => 0);
      new;
      assert words[..] == seq(WORDS, i => 0);
    }

    /** mcs_get_local_lock */
    method GetLocalLock(head: nat) returns (i: nat)
      requires words.Length == WORDS
      modifies words
      ensures i == Probe(old(words[..]), 0)
      ensures words[..] == if i <= NESTED then old(words[..])[i := head] else old(words[..])
    {
      i := 0;
      while i <= NESTED
        invariant i <= NESTED + 1 && words[..] == old(words[..])
        invariant forall j :: 0 <= j < i ==> words[j] != 0
      {
        if words[i] == 0 {
          words[i] := head;
          return;
        }
        i := i + 1;
      }
    }

    /** mcs_get_local_unlock */
    method GetLocalUnlock(head: nat) returns (i: nat)
      requires words.Length == WORDS
      modifies words
      ensures i == Probe(old(words[..]), head)
      ensures words[..] == if i <= NESTED then old(words[..])[i := 0] else old(words[..])
    {
      i := 0;
      while i <= NESTED
        invariant i <= NESTED + 1 && words[..] == old(words[..])
        invariant forall j :: 0 <= j < i ==> words[j] != head
      {
        if words[i] == head {
          words[i] := 0;
          return;
        }
        i := i + 1;
      }
    }

    /** mcs_get_local_nochange */
    method GetLocalNochange(head: nat) returns (i: nat)
      requires words.Length == WORDS
      ensures i == Probe(words[..], head)
    {
      i := 0;
      while i <= NESTED
        invariant i <= NESTED + 1
        invariant forall j :: 0 <= j < i ==> words[j] != head
      {
        if words[i] == head {
          return;
        }
        i := i + 1;
      }
    }
  }

  // ----- a thread's history

  /** The thread joins and leaves queues; anybody may write to its nodes meanwhile. */
  datatype Op = Join(head: nat) | Leave(head: nat) | NodeWrite(word: nat, value: nat)

  function Apply(w: seq<nat>, op: Op): (w': seq<nat>)
    requires |w| == WORDS
    ensures |w'| == WORDS
  {
    match op
    case Join(head) => if Probe(w, 0) <= NESTED then w[Probe(w, 0) := head] else w
    case Leave(head) => if Probe(w, head) <= NESTED then w[Probe(w, head) := 0] else w
    case NodeWrite(word, value) => if NESTED <= word < WORDS then w[word := value] else w
  }

  function Run(ops: seq<Op>): (w: seq<nat>)
    ensures |w| == WORDS
  {
    if ops == [] then seq(WORDS, i => 0) else Apply(Run(ops[..|ops| - 1]), ops[|ops| - 1])
  }

  /** The locks whose queues the thread is in, with the node it was given for each. */
  function Given(ops: seq<Op>): map<nat, nat> {
    if ops == [] then map[]
    else
      var before := ops[..|ops| - 1];
      match ops[|ops| - 1]
      case Join(head) => Given(before)[head := Probe(Run(before), 0)]
      case Leave(head) => Given(before) - {head}
      case NodeWrite(_, _) => Given(before)
  }

  /** Fewer than 16 locks are held when another is asked for, none of them twice, and only
      held locks are released. */
  predicate Disciplined(ops: seq<Op>) {
    ops == [] ||
    (var before := ops[..|ops| - 1];
     Disciplined(before) &&
     match ops[|ops| - 1]
     case Join(head) => head != 0 && head !in Given(before) && |Given(before)| < NESTED
     case Leave(head) => head in Given(before)
     case NodeWrite(word, _) => NESTED <= word < WORDS)
  }

  /** The head words are the inverse of the map from locks to nodes. */
  predicate Slotted(w: seq<nat>, given: map<nat, nat>)
    requires |w| == WORDS
  {
    && 0 !in given
    && (forall h :: h in given ==> given[h] < NESTED && w[given[h]] == h)
    && (forall i :: 0 <= i < NESTED && w[i] != 0 ==> w[i] in given && given[w[i]] == i)
  }

  /** With a free slot the probe stays inside the head words, and without one it does not. */
  lemma FreeSlot(w: seq<nat>, given: map<nat, nat>)
    requires |w| == WORDS && Slotted(w, given)
    ensures |given| <= NESTED
    ensures Probe(w, 0) < NESTED <==> |given| < NESTED
  {
    hide UpTo;
    var used := set i | 0 <= i < NESTED && w[i] != 0;
    var all := UpTo(NESTED);
    SlotCount(w, given, used);
    assert used <= all;
    SubsetSize(used, all);
    if Probe(w, 0) >= NESTED {
      assert used == all;
    } else {
      assert Probe(w, 0) in all - used;
      SubsetSize(used, all - {Probe(w, 0)});
    }
  }

  function UpTo(n: nat): (r: set<nat>)
    ensures |r| == n && forall i :: i in r <==> 0 <= i < n
  {
    if n == 0 then {} else UpTo(n - 1) + {n - 1}
  }

  /** As many used slots as locks. */
  lemma {:induction false} SlotCount(w: seq<nat>, given: map<nat, nat>, used: set<nat>)
    requires |w| == WORDS && (forall h :: h in given ==> given[h] in used && given[h] < NESTED && w[given[h]] == h)
    requires forall i :: i in used ==> i < NESTED && w[i] in given && given[w[i]] == i
    ensures |used| == |given|
    decreases used
  {
    if used == {} {
      assert given.Keys == {};
    } else {
      var i :| i in used;
      var rest := given - {w[i]};
      SlotCount(w, rest, used - {i});
      assert given.Keys == rest.Keys + {w[i]};
      assert |given| == |given.Keys| && |rest| == |rest.Keys|;
    }
  }

  lemma {:induction false} AlwaysSlotted(ops: seq<Op>)
    requires Disciplined(ops)
    ensures Slotted(Run(ops), Given(ops))
  {
    if ops != [] {
      var before := ops[..|ops| - 1];
      AlwaysSlotted(before);
      FreeSlot(Run(before), Given(before));
    }
  }

  /** Whatever is joined, left and written in between, the probe at unlock finds the very
      node that was given for this lock, and different locks have different nodes. */
  lemma UnlockFindsNode(ops: seq<Op>, head: nat, other: nat)
    requires Disciplined(ops) && head in Given(ops) && other in Given(ops)
    ensures Probe(Run(ops), head) == Given(ops)[head] < NESTED
    ensures head != other ==> Given(ops)[head] != Given(ops)[other]
  {
    AlwaysSlotted(ops);
  }

  /** The next lock gets a node of its own exactly when fewer than 16 are held; with 16 held,
      the off-by-one probe hands out a node behind the last one, after storing the lock's
      address in the `waiting` word of the first, or finds nothing. */
  lemma SeventeenthLock(ops: seq<Op>, head: nat)
    requires Disciplined(ops)
    ensures |Given(ops)| < NESTED <==> Probe(Run(ops), 0) < NESTED
    ensures |Given(ops)| < NESTED ==> forall h :: h in Given(ops) ==> Given(ops)[h] != Probe(Run(ops), 0)
    ensures |Given(ops)| >= NESTED && Run(ops)[NESTED] == 0 ==>
      Probe(Run(ops), 0) == NESTED && Apply(Run(ops), Join(head))[NESTED] == head
    ensures |Given(ops)| >= NESTED && Run(ops)[NESTED] != 0 ==> Probe(Run(ops), 0) == NESTED + 1
  {
    AlwaysSlotted(ops);
    FreeSlot(Run(ops), Given(ops));
  }
}
