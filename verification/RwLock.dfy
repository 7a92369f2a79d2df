/** The reader-writer lock of include/ttas_rw_in.h: readers add themselves to one 32-bit
    word, even while a writer holds it; the writer's flag is the top byte of the same word,
    written on its own at unlock, and unlock learns the caller's role from the word. */
module RwLock {
  import opened Sums

  const TWO16 := 0x1_0000
  const TWO24 := 0x100_0000
  const TWO32 := 0x1_0000_0000
  const WLOCKED := 0xFF00_0000

  datatype Pc =
    | Idle
      // ttas_rw_lock_rlock
    | RAdd
    | RSpin
      // ttas_rw_lock_tryrlock; masking the word with TTAS_RW_FREE leaves 0 whatever it is
    | TryRTest
    | TryRCas
      // ttas_rw_lock_wlock and ttas_rw_lock_trywlock
    | WTest(once: bool)
    | WCas(once: bool)
    | Reading
    | Writing
      // ttas_rw_lock_unlock: `writer` is the caller's role, which no step looks at
    | UTest(writer: bool)
    | UClear(writer: bool)
    | UCount(writer: bool)
    | USub(writer: bool)

  datatype State = State(val: nat, th: seq<Pc>)
  datatype View = View(val: nat, pc: Pc)

  datatype Choice = RLock | TryRLock | WLock | TryWLock | Unlock
  datatype Event = Move(t: nat, choice: Choice)

  /** lock.rw.w */
  function W(val: nat): nat {
    val / TWO24 % 0x100
  }

  /** lock.rw.nr */
  function Nr(val: nat): nat {
    val % TWO16
  }

  function StepThread(val: nat, pc: Pc, choice: Choice): View {
    match pc
    case Idle =>
      View(val, match choice
                case RLock => RAdd
                case TryRLock => TryRTest
                case WLock => WTest(false)
                case TryWLock => WTest(true)
                case Unlock => Idle)
    case RAdd => View((val + 1) % TWO32, RSpin)
    case RSpin => View(val, if W(val) != 0 then RSpin else Reading)
    case TryRTest => View(val, if W(val) == 0 then TryRCas else Idle)
    case TryRCas =>
      if val == 0 then View(1, Reading)
      else View(val, if W(val) != 0 then Idle else TryRTest)
    case WTest(once) => View(val, if val == 0 then WCas(once) else if once then Idle else pc)
    case WCas(once) =>
      if val == 0 then View(WLOCKED, Writing) else View(val, if once then Idle else WTest(once))
    case Reading => View(val, if choice == Unlock then UTest(false) else pc)
    case Writing => View(val, if choice == Unlock then UTest(true) else pc)
    case UTest(writer) => View(val, if W(val) != 0 then UClear(writer) else UCount(writer))
    case UClear(writer) => View(val % TWO24, Idle)
    case UCount(writer) => View(val, if Nr(val) > 0 then USub(writer) else Idle)
    case USub(writer) => View((val + TWO32 - 1) % TWO32, Idle)
  }

  function Step(s: State, e: Event): State {
    if e.t < |s.th| then
      var v := StepThread(s.val, s.th[e.t], e.choice);
      State(v.val, s.th[e.t := v.pc])
    else s
  }

  function Init(n: nat): State {
    State(0, seq(n, i => Idle))
  }

  function Run(s: State, sched: seq<Event>): State {
    if sched == [] then s else Step(Run(s, sched[..|sched| - 1]), sched[|sched| - 1])
  }

  // ----- who is counted

  /** The thread holds the lock for writing. */
  predicate IsWriter(pc: Pc) {
    pc.Writing? || ((pc.UTest? || pc.UClear? || pc.UCount? || pc.USub?) && pc.writer)
  }

  /** The thread holds the lock for reading. */
  predicate IsReader(pc: Pc) {
    pc.Reading? || ((pc.UTest? || pc.UClear? || pc.UCount? || pc.USub?) && !pc.writer)
  }

  function Writes(pc: Pc): nat {
    if IsWriter(pc) then 1 else 0
  }

  /** Readers that hold the lock or wait for it. */
  function Reads(pc: Pc): nat {
    if pc.RSpin? || IsReader(pc) then 1 else 0
  }

  function Writers(th: seq<Pc>): seq<nat> {
    seq(|th|, t requires 0 <= t < |th| => Writes(th[t]))
  }

  function Readers(th: seq<Pc>): seq<nat> {
    seq(|th|, t requires 0 <= t < |th| => Reads(th[t]))
  }

  /** The word counts the readers, waiting or holding, below the writer's flag. */
  predicate Counted(s: State) {
    s.val == WLOCKED * Sum(Writers(s.th)) + Sum(Readers(s.th))
  }

  /** A writer excludes everybody. */
  predicate Exclusive(s: State) {
    forall t, u :: 0 <= t < |s.th| && 0 <= u < |s.th| && t != u && IsWriter(s.th[t]) ==>
      !IsWriter(s.th[u]) && !IsReader(s.th[u])
  }

  /** unlock takes the branch of the caller's role, whatever other readers do meanwhile. */
  predicate RolesMatch(s: State) {
    forall t :: 0 <= t < |s.th| ==>
      (s.th[t].UClear? ==> s.th[t].writer) && (s.th[t].UCount? || s.th[t].USub? ==> !s.th[t].writer)
  }

  predicate Inv(s: State) {
    Counted(s) && Exclusive(s) && RolesMatch(s) && Sum(Writers(s.th)) <= 1
  }

  // ----- proofs

  lemma WordParts(writers: nat, readers: nat)
    requires writers <= 1 && readers < TWO16
    ensures var val := WLOCKED * writers + readers;
      && val < TWO32 - 1 && (W(val) != 0 <==> writers == 1) && Nr(val) == readers && val % TWO24 == readers
  {
  }

  lemma SumWriters(th: seq<Pc>, t: nat, pc: Pc)
    requires t < |th|
    ensures Sum(Writers(th[t := pc])) + Writes(th[t]) == Sum(Writers(th)) + Writes(pc)
    ensures Sum(Readers(th[t := pc])) + Reads(th[t]) == Sum(Readers(th)) + Reads(pc)
  {
    SumUpdate(Writers(th), Writers(th[t := pc]), t);
    SumUpdate(Readers(th), Readers(th[t := pc]), t);
  }

  lemma FewReaders(th: seq<Pc>)
    ensures Sum(Readers(th)) <= |th|
  {
    SumAtMost(Readers(th), 1);
  }

  lemma WriterCounts(th: seq<Pc>, t: nat)
    requires t < |th|
    ensures Writes(th[t]) <= Sum(Writers(th)) && Reads(th[t]) <= Sum(Readers(th))
  {
    SumAtLeast(Writers(th), t);
    SumAtLeast(Readers(th), t);
  }

  /** One thread's effect on the counts. */
  lemma StepCounts(val: nat, writers: nat, readers: nat, pc: Pc, choice: Choice)
    requires val == WLOCKED * writers + readers && writers <= 1 && readers + Reads(RSpin) - Reads(pc) < TWO16
    requires Writes(pc) <= writers && Reads(pc) <= readers
    requires (pc.UClear? ==> pc.writer) && (pc.UCount? || pc.USub? ==> !pc.writer)
    requires IsReader(pc) ==> writers == 0
    ensures var v := StepThread(val, pc, choice);
      var w, r := writers + Writes(v.pc) - Writes(pc), readers + Reads(v.pc) - Reads(pc);
      && v.val == WLOCKED * w + r && 0 <= w <= 1
      && (v.pc.UClear? ==> v.pc.writer) && (v.pc.UCount? || v.pc.USub? ==> !v.pc.writer)
      && (IsWriter(v.pc) && !IsWriter(pc) ==> val == 0)
      && (IsReader(v.pc) && !IsReader(pc) ==> writers == 0)
  {
    WordParts(writers, readers);
  }

  lemma ReadersExcludeWriters(s: State, t: nat)
    requires Exclusive(s) && t < |s.th| && IsReader(s.th[t]) && Writes(s.th[t]) == 0
    ensures Sum(Writers(s.th)) == 0
  {
    SumZero(Writers(s.th));
  }

  /** What the counts say about the others when `t` comes in as a writer or a reader. */
  lemma OthersOut(s: State, t: nat, u: nat)
    requires Inv(s) && t < |s.th| && u < |s.th| && t != u
    ensures s.val == 0 ==> !IsWriter(s.th[u]) && !IsReader(s.th[u])
    ensures Sum(Writers(s.th)) == 0 ==> !IsWriter(s.th[u])
  {
    WriterCounts(s.th, u);
  }

  lemma StepKeepsExclusive(s: State, t: nat, v: View)
    requires Inv(s) && t < |s.th|
    requires IsWriter(v.pc) && !IsWriter(s.th[t]) ==> s.val == 0
    requires IsReader(v.pc) && !IsReader(s.th[t]) ==> Sum(Writers(s.th)) == 0
    ensures Exclusive(State(v.val, s.th[t := v.pc]))
  {
    forall u | 0 <= u < |s.th| && u != t
      ensures IsWriter(s.th[u]) ==> !IsWriter(v.pc) && !IsReader(v.pc)
      ensures IsWriter(v.pc) ==> !IsWriter(s.th[u]) && !IsReader(s.th[u])
    {
      OthersOut(s, t, u);
    }
  }

  lemma StepKeepsInv(s: State, e: Event)
    requires Inv(s) && |s.th| < TWO16
    ensures Inv(Step(s, e))
  {
    hide StepThread, Exclusive;
    if e.t < |s.th| {
      var t, pc := e.t, s.th[e.t];
      var v := StepThread(s.val, pc, e.choice);
      SumWriters(s.th, t, RSpin);
      FewReaders(s.th[t := RSpin]);
      SumWriters(s.th, t, v.pc);
      WriterCounts(s.th, t);
      if IsReader(pc) { ReadersExcludeWriters(s, t); }
      StepCounts(s.val, Sum(Writers(s.th)), Sum(Readers(s.th)), pc, e.choice);
      StepKeepsExclusive(s, t, v);
    }
  }

  lemma {:induction false} Reachable(n: nat, sched: seq<Event>)
    requires n < TWO16
    ensures Inv(Run(Init(n), sched)) && |Run(Init(n), sched).th| == n
  {
    if sched == [] {
      SumZero(Writers(Init(n).th));
      SumZero(Readers(Init(n).th));
    } else {
      Reachable(n, sched[..|sched| - 1]);
      StepKeepsInv(Run(Init(n), sched[..|sched| - 1]), sched[|sched| - 1]);
    }
  }

  // ----- the bound on the number of threads is exact

  /** The word is at `base` although nobody holds the lock but the first `k` readers. */
  function Entered(n: nat, base: nat, k: nat): State {
    State(base + k, seq(n, i => if i < k then Reading else Idle))
  }

  lemma RunThree(s: State, sched: seq<Event>, a: Event, b: Event, c: Event)
    ensures Run(s, sched + [a, b, c]) == Step(Step(Step(Run(s, sched), a), b), c)
  {
    assert (sched + [a, b, c])[..|sched| + 2] == sched + [a, b];
    assert (sched + [a, b])[..|sched| + 1] == sched + [a];
    assert (sched + [a])[..|sched|] == sched;
    assert Run(s, sched + [a]) == Step(Run(s, sched), a);
    assert Run(s, sched + [a, b]) == Step(Run(s, sched + [a]), b);
  }

  /** The first `k` threads take the lock for reading, one after the other. */
  lemma {:induction false} FillReaders(n: nat, base: nat, k: nat, before: seq<Event>) returns (sched: seq<Event>)
    requires k <= n && base + k < TWO24 && Run(Init(n), before) == Entered(n, base, 0)
    ensures Run(Init(n), sched) == Entered(n, base, k)
  {
    if k == 0 {
      sched := before;
    } else {
      var enter := Move(k - 1, RLock);
      var filled := FillReaders(n, base, k - 1, before);
      sched := filled + [enter, enter, enter];
      RunThree(Init(n), filled, enter, enter, enter);
      OneEnters(n, base, k);
    }
  }

  lemma OneEnters(n: nat, base: nat, k: nat)
    requires 1 <= k <= n && base + k < TWO24
    ensures var enter := Move(k - 1, RLock);
      Step(Step(Step(Entered(n, base, k - 1), enter), enter), enter) == Entered(n, base, k)
  {
    var enter := Move(k - 1, RLock);
    var s := Entered(n, base, k - 1);
    var s2 := Step(Step(s, enter), enter);
    assert s2 == State(base + k, s.th[k - 1 := RSpin]);
    assert W(base + k) == 0;
    assert Step(s2, enter).th == Entered(n, base, k).th;
  }

  lemma {:induction false} CountReading(n: nat, m: nat)
    requires m <= n
    ensures Sum(Readers(seq(n, i => if 1 <= i < m then Reading else Idle))) == if m == 0 then 0 else m - 1
  {
    var th := seq(n, i => if 1 <= i < m then Reading else Idle);
    if n > 0 {
      var th' := seq(n - 1, i => if 1 <= i < m then Reading else Idle);
      assert Readers(th)[..n - 1] == Readers(th');
      if m == n {
        CountReading(n - 1, m - 1);
        assert th' == seq(n - 1, i => if 1 <= i < m - 1 then Reading else Idle);
      } else {
        CountReading(n - 1, m);
      }
    }
  }

  /** With 65536 readers inside, nr is 0: unlock takes the lock for free and leaves the
      departing reader in the count, for good. */
  lemma Overflow(n: nat) returns (sched: seq<Event>)
    requires n >= TWO16
    ensures !Counted(Run(Init(n), sched))
  {
    assert Run(Init(n), []) == Entered(n, 0, 0);
    var before := FillReaders(n, 0, TWO16, []);
    sched := before + [Move(0, Unlock), Move(0, Unlock), Move(0, Unlock)];
    RunThree(Init(n), before, Move(0, Unlock), Move(0, Unlock), Move(0, Unlock));
    var s := Run(Init(n), sched);
    assert s.val == TWO16;
    assert s.th == seq(n, i => if 1 <= i < TWO16 then Reading else Idle);
    CountReading(n, TWO16);
    SumZero(Writers(s.th));
  }

  /** In all runs the word counts the readers exactly, if and only if there are fewer than
      65536 threads. */
  lemma CountedIffBounded(n: nat)
    ensures (forall sched :: Counted(Run(Init(n), sched))) <==> n < TWO16
  {
    if n < TWO16 {
      forall sched
        ensures Counted(Run(Init(n), sched))
      {
        Reachable(n, sched);
      }
    } else {
      var sched := Overflow(n);
    }
  }

  /** 65536 readers, of which the first `k` have left without effect. */
  function Leaving(n: nat, base: nat, k: nat): State {
    State(base, seq(n, i => if k <= i < TWO16 then Reading else Idle))
  }

  /** While nr is 0, unlock does nothing. */
  lemma {:induction false} DrainReaders(n: nat, base: nat, k: nat, before: seq<Event>) returns (sched: seq<Event>)
    requires k <= TWO16 <= n && base < TWO24 && base % TWO16 == 0 && Run(Init(n), before) == Leaving(n, base, 0)
    ensures Run(Init(n), sched) == Leaving(n, base, k)
  {
    if k == 0 {
      sched := before;
    } else {
      var leave := Move(k - 1, Unlock);
      var drained := DrainReaders(n, base, k - 1, before);
      sched := drained + [leave, leave, leave];
      RunThree(Init(n), drained, leave, leave, leave);
      OneLeaves(n, base, k);
    }
  }

  lemma OneLeaves(n: nat, base: nat, k: nat)
    requires 1 <= k <= TWO16 <= n && base < TWO24 && base % TWO16 == 0
    ensures var leave := Move(k - 1, Unlock);
      Step(Step(Step(Leaving(n, base, k - 1), leave), leave), leave) == Leaving(n, base, k)
  {
    var leave := Move(k - 1, Unlock);
    var s := Leaving(n, base, k - 1);
    assert W(base) == 0 && Nr(base) == 0;
    assert Step(Step(s, leave), leave) == s.(th := s.th[k - 1 := UCount(false)]);
    assert s.th[k - 1 := Idle] == Leaving(n, base, k).th;
  }

  /** 65536 readers enter and leave, and the word has grown by 65536. */
  lemma {:induction false} Rounds(n: nat, r: nat) returns (sched: seq<Event>)
    requires r <= 255 && TWO16 <= n
    ensures Run(Init(n), sched) == Entered(n, r * TWO16, 0)
  {
    if r == 0 {
      sched := [];
      assert Init(n).th == Entered(n, 0, 0).th;
    } else {
      sched := Rounds(n, r - 1);
      sched := FillReaders(n, (r - 1) * TWO16, TWO16, sched);
      assert Entered(n, (r - 1) * TWO16, TWO16).th == Leaving(n, r * TWO16, 0).th;
      sched := DrainReaders(n, r * TWO16, TWO16, sched);
      assert Leaving(n, r * TWO16, TWO16).th == Entered(n, r * TWO16, 0).th;
    }
  }

  /** Three steps at the end of a run. */
  lemma Extend(n: nat, before: seq<Event>, s: State, a: Event, b: Event, c: Event) returns (sched: seq<Event>)
    requires Run(Init(n), before) == s
    ensures Run(Init(n), sched) == Step(Step(Step(s, a), b), c)
  {
    sched := before + [a, b, c];
    RunThree(Init(n), before, a, b, c);
  }

  /** With the count at 2^24 - 1, one more reader sets the writer's flag. */
  lemma FlagRaised(s: State, last: nat)
    requires 0 < last < |s.th| && s.val == TWO24 - 1 && s.th[last].Idle? && s.th[0].Reading?
    ensures Step(Step(Step(s, Move(last, RLock)), Move(last, RLock)), Move(0, Unlock)) ==
      State(TWO24, s.th[last := RSpin][0 := UTest(false)])
  {
    assert s.th[last := RAdd][last := RSpin] == s.th[last := RSpin];
  }

  lemma WordCleared(s: State)
    requires |s.th| > 0 && s.val == TWO24 && s.th[0] == UTest(false)
    ensures Step(Step(Step(s, Move(0, Unlock)), Move(0, Unlock)), Move(0, WLock)) == State(0, s.th[0 := WTest(false)])
  {
    assert s.th[0 := UClear(false)][0 := Idle][0 := WTest(false)] == s.th[0 := WTest(false)];
  }

  lemma WriterEnters(s: State)
    requires |s.th| > 0 && s.val == 0 && s.th[0] == WTest(false)
    ensures Step(Step(Step(s, Move(0, WLock)), Move(0, WLock)), Move(0, WLock)) == State(WLOCKED, s.th[0 := Writing])
  {
    assert s.th[0 := WCas(false)][0 := Writing][0 := Writing] == s.th[0 := Writing];
  }

  /** The count of readers runs into the writer's flag: a reader's unlock takes itself for a
      writer's and clears the word, and the next writer enters beside 65534 readers. */
  lemma Intrusion(n: nat) returns (sched: seq<Event>)
    requires n >= TWO16
    ensures !Exclusive(Run(Init(n), sched))
  {
    hide Run, Step;
    var last := TWO16 - 1;
    sched := Rounds(n, 255);
    sched := FillReaders(n, 255 * TWO16, last, sched);
    var s := Entered(n, 255 * TWO16, last);
    FlagRaised(s, last);
    sched := Extend(n, sched, s, Move(last, RLock), Move(last, RLock), Move(0, Unlock));
    s := Run(Init(n), sched);
    WordCleared(s);
    sched := Extend(n, sched, s, Move(0, Unlock), Move(0, Unlock), Move(0, WLock));
    s := Run(Init(n), sched);
    WriterEnters(s);
    sched := Extend(n, sched, s, Move(0, WLock), Move(0, WLock), Move(0, WLock));
    s := Run(Init(n), sched);
    assert IsWriter(s.th[0]) && IsReader(s.th[1]);
  }

  /** In all runs a writer coexists with no other writer and with no reader that holds the
      lock, if and only if there are fewer than 65536 threads. */
  lemma WriterAloneIffBounded(n: nat)
    ensures (forall sched :: Exclusive(Run(Init(n), sched))) <==> n < TWO16
  {
    hide Run, Exclusive;
    if n < TWO16 {
      forall sched
        ensures Exclusive(Run(Init(n), sched))
      {
        Reachable(n, sched);
      }
    } else {
      var sched := Intrusion(n);
    }
  }

  // ----- tryrlock

  predicate SomeReader(th: seq<Pc>) {
    exists t :: 0 <= t < |th| && Reads(th[t]) == 1
  }

  predicate SomeWriter(th: seq<Pc>) {
    exists t :: 0 <= t < |th| && Writes(th[t]) == 1
  }

  lemma SomeCounted(th: seq<Pc>)
    ensures Sum(Readers(th)) > 0 <==> SomeReader(th)
    ensures Sum(Writers(th)) > 0 <==> SomeWriter(th)
  {
    if !SomeReader(th) { SumZero(Readers(th)); }
    if !SomeWriter(th) { SumZero(Writers(th)); }
    forall t | 0 <= t < |th|
      ensures Writes(th[t]) <= Sum(Writers(th)) && Reads(th[t]) <= Sum(Readers(th))
    {
      WriterCounts(th, t);
    }
  }

  /** The compare-and-swap of tryrlock takes the lock exactly when nobody is counted, gives up
      exactly beside a writer, and otherwise, beside readers alone, starts over. */
  lemma TryReadNeedsFree(n: nat, sched: seq<Event>, t: nat, choice: Choice)
    requires n < TWO16 && t < n
    ensures var s := Run(Init(n), sched);
      |s.th| == n && (s.th[t].TryRCas? ==>
        var pc := StepThread(s.val, TryRCas, choice).pc;
        && (pc == Reading <==> !SomeReader(s.th) && !SomeWriter(s.th))
        && (pc == TryRTest <==> SomeReader(s.th) && !SomeWriter(s.th))
        && (pc == Idle <==> SomeWriter(s.th)))
  {
    hide Run, SomeReader, SomeWriter;
    Reachable(n, sched);
    var s := Run(Init(n), sched);
    FewReaders(s.th);
    SomeCounted(s.th);
    WordParts(Sum(Writers(s.th)), Sum(Readers(s.th)));
  }

  /** The other tests: a writer's two accesses go on exactly when nobody is counted, and
      otherwise trywlock gives up and wlock waits; a reader's go on exactly when there is no
      writer, and otherwise tryrlock gives up and rlock waits. */
  lemma EntryTests(n: nat, sched: seq<Event>, t: nat, choice: Choice)
    requires n < TWO16 && t < n
    ensures var s := Run(Init(n), sched);
      var nobody := !SomeReader(s.th) && !SomeWriter(s.th);
      && |s.th| == n
      && var pc, pc' := s.th[t], StepThread(s.val, s.th[t], choice).pc;
      && (pc.WTest? ==> pc' == if nobody then WCas(pc.once) else if pc.once then Idle else WTest(false))
      && (pc.WCas? ==> pc' == if nobody then Writing else if pc.once then Idle else WTest(false))
      && (pc.TryRTest? ==> pc' == if SomeWriter(s.th) then Idle else TryRCas)
      && (pc.RSpin? ==> pc' == if SomeWriter(s.th) then RSpin else Reading)
  {
    hide Run, SomeReader, SomeWriter;
    Reachable(n, sched);
    var s := Run(Init(n), sched);
    FewReaders(s.th);
    SomeCounted(s.th);
    WordParts(Sum(Writers(s.th)), Sum(Readers(s.th)));
  }

  /** `k` steps of thread `t` alone. */
  function Solo(s: State, t: nat, choice: Choice, k: nat): State
    decreases k
  {
    if k == 0 then s else Solo(Step(s, Move(t, choice)), t, choice, k - 1)
  }

  lemma {:induction false} GoesRound(s: State, t: nat, choice: Choice, k: nat)
    requires t < |s.th| && s.th[t].TryRTest? && W(s.val) == 0 && s.val != 0
    ensures Solo(s, t, choice, k) == if k % 2 == 0 then s else s.(th := s.th[t := TryRCas])
  {
    var s1 := Step(s, Move(t, choice));
    var s2 := Step(s1, Move(t, choice));
    assert s1.th == s.th[t := TryRCas] && s2.th == s.th;
    if k == 1 {
      assert Solo(s1, t, choice, 0) == s1;
    } else if k > 1 {
      assert Solo(s1, t, choice, k - 1) == Solo(s2, t, choice, k - 2);
      GoesRound(s, t, choice, k - 2);
    }
  }

  /** tryrlock beside a reader that holds the lock does not return, however long it runs: it
      alternates between the test and the compare-and-swap, and nothing else changes. */
  lemma TryReadNeverReturns(n: nat, sched: seq<Event>, t: nat, u: nat, choice: Choice, k: nat)
    requires n < TWO16 && t < n && u < n
    requires var s := Run(Init(n), sched); |s.th| == n && s.th[t].TryRTest? && IsReader(s.th[u])
    ensures var s := Run(Init(n), sched);
      Solo(s, t, choice, k) == if k % 2 == 0 then s else s.(th := s.th[t := TryRCas])
  {
    hide Run, Solo;
    Reachable(n, sched);
    var s := Run(Init(n), sched);
    FewReaders(s.th);
    WriterCounts(s.th, u);
    ReadersExcludeWriters(s, u);
    WordParts(Sum(Writers(s.th)), Sum(Readers(s.th)));
    GoesRound(s, t, choice, k);
  }

  /** Each of the four calls on a free lock takes three steps. */
  lemma CallAlone(n: nat, sched: seq<Event>, t: nat, choice: Choice)
    requires n < TWO16 && choice != Unlock
    requires var s := Run(Init(n), sched); t < |s.th| && s.th[t].Idle? && !SomeReader(s.th) && !SomeWriter(s.th)
    ensures var s' := Solo(Run(Init(n), sched), t, choice, 3);
      t < |s'.th| && s'.th[t] == if choice.RLock? || choice.TryRLock? then Reading else Writing
  {
    hide Run, SomeReader, SomeWriter;
    Reachable(n, sched);
    var s := Run(Init(n), sched);
    FewReaders(s.th);
    SomeCounted(s.th);
    var e := Move(t, choice);
    var s1 := Step(s, e);
    var s2 := Step(s1, e);
    assert s.val == 0 && W(1) == 0;
    assert Solo(s, t, choice, 3) == Solo(s1, t, choice, 2) == Solo(s2, t, choice, 1);
    assert Solo(s2, t, choice, 1) == Solo(Step(s2, e), t, choice, 0);
  }

  lemma WriterLeaves(s: State, t: nat)
    requires t < |s.th| && s.th[t].Writing? && W(s.val) != 0
    ensures Solo(s, t, Unlock, 3) == State(s.val % TWO24, s.th[t := Idle])
  {
    var e := Move(t, Unlock);
    var s1 := Step(s, e);
    var s2 := Step(s1, e);
    var s3 := Step(s2, e);
    assert s3.th == s.th[t := Idle];
    assert Solo(s3, t, Unlock, 0) == s3 && Solo(s2, t, Unlock, 1) == s3;
    assert Solo(s, t, Unlock, 3) == Solo(s1, t, Unlock, 2) == s3;
  }

  lemma ReaderLeaves(s: State, t: nat)
    requires t < |s.th| && s.th[t].Reading? && W(s.val) == 0 && Nr(s.val) > 0
    ensures Solo(s, t, Unlock, 4) == State((s.val + TWO32 - 1) % TWO32, s.th[t := Idle])
  {
    var e := Move(t, Unlock);
    var s1 := Step(s, e);
    var s2 := Step(s1, e);
    var s3 := Step(s2, e);
    var s4 := Step(s3, e);
    assert s4.th == s.th[t := Idle];
    assert Solo(s4, t, Unlock, 0) == s4 && Solo(s3, t, Unlock, 1) == s4;
    assert Solo(s, t, Unlock, 4) == Solo(s1, t, Unlock, 3) == Solo(s2, t, Unlock, 2) == s4;
  }

  /** ttas_rw_lock_unlock takes three steps for a writer and four for a reader, and they take
      away exactly what the caller had added. */
  lemma UnlockAlone(n: nat, sched: seq<Event>, t: nat)
    requires n < TWO16
    requires var s := Run(Init(n), sched); t < |s.th| && (s.th[t].Reading? || s.th[t].Writing?)
    ensures var s := Run(Init(n), sched);
      var writer := s.th[t].Writing?;
      var s' := Solo(s, t, Unlock, if writer then 3 else 4);
      t < |s'.th| && s'.th[t].Idle? && s'.val == s.val - if writer then WLOCKED else 1
  {
    hide Run, Exclusive, Solo, StepThread;
    Reachable(n, sched);
    var s := Run(Init(n), sched);
    FewReaders(s.th);
    WriterCounts(s.th, t);
    WordParts(Sum(Writers(s.th)), Sum(Readers(s.th)));
    if s.th[t].Reading? {
      ReadersExcludeWriters(s, t);
      ReaderLeaves(s, t);
    } else {
      WriterLeaves(s, t);
    }
  }

  lemma UnlockStep(val: nat, readers: nat, pc: Pc, choice: Choice)
    requires pc.UTest? || pc.UClear? || pc.UCount? || pc.USub?
    requires (pc.UClear? ==> pc.writer) && (pc.UCount? || pc.USub? ==> !pc.writer)
    requires readers < TWO16 && val == (if pc.writer then WLOCKED else 0) + readers && (!pc.writer ==> readers > 0)
    ensures var v := StepThread(val, pc, choice);
      if v.pc.Idle? then v.val == val - if pc.writer then WLOCKED else 1
      else
        && v.val == val
        && v.pc == (if pc.UCount? then USub(false) else if pc.writer then UClear(true) else UCount(false))
  {
    WordParts(if pc.writer then 1 else 0, readers);
  }

  /** unlock sees the caller's own role, and undoes exactly what the caller did. */
  lemma UnlockUndoes(n: nat, sched: seq<Event>, t: nat, choice: Choice)
    requires n < TWO16
    requires var th := Run(Init(n), sched).th;
      t < |th| && (th[t].UTest? || th[t].UClear? || th[t].UCount? || th[t].USub?)
    ensures var s := Run(Init(n), sched);
      var writer, v := s.th[t].writer, StepThread(s.val, s.th[t], choice);
      if v.pc.Idle? then v.val == s.val - if writer then WLOCKED else 1
      else
        && v.val == s.val
        && v.pc == (if s.th[t].UCount? then USub(false) else if writer then UClear(true) else UCount(false))
  {
    hide Run, StepThread, Exclusive;
    var s := Run(Init(n), sched);
    Reachable(n, sched);
    WriterCounts(s.th, t);
    FewReaders(s.th);
    if IsReader(s.th[t]) { ReadersExcludeWriters(s, t); }
    UnlockStep(s.val, Sum(Readers(s.th)), s.th[t], choice);
  }
}
