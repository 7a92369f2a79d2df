/** The adaptation of include/mutexee_in.h between spinning and futex mode. */
module MutexeeTraining {

  const SPINS := 8192
  const SPINS_MIN := 256
  const SPINS_UNLOCK := 384
  const SPINS_UNLOCK_MIN := 128
  const EPOCH := 2048             // MUTEXEE_ADAP_EVERY + 1
  const RETRY_EVERY := 8
  const RETRY_EVERY_MAX := 32
  const FUTEX_LIM := 128
  const FUTEX_LIM_MAX := 256
  const TWO32 := 0x1_0000_0000
  const TWO64 := 0x1_0000_0000_0000_0000

  datatype Tuning = Tuning(
    spins: nat, spinsUnlock: nat, acquired: nat, missed: nat, missLimit: nat, isFutex: nat, retryEvery: nat)

  const INITIAL := Tuning(SPINS, SPINS_UNLOCK, 0, 0, FUTEX_LIM, 0, RETRY_EVERY)

  function Trained(v: Tuning): Tuning {
    var w := v.(acquired := (v.acquired + 1) % TWO64);
    if w.acquired % EPOCH == 0 then Adapted(w).(missed := 0) else w
  }

  /** What an epoch boundary does. */
  function Adapted(v: Tuning): Tuning {
    if v.isFutex == 0 then
      if v.missed > v.missLimit then v.(spins := SPINS_MIN, spinsUnlock := SPINS_UNLOCK_MIN, isFutex := 1) else v
    else if v.isFutex == v.retryEvery then
      v.(retryEvery := if v.retryEvery < RETRY_EVERY_MAX then v.retryEvery * 2 else v.retryEvery,
         missLimit := if v.missLimit < FUTEX_LIM_MAX then v.missLimit + 1 else v.missLimit,
         isFutex := 0, spins := SPINS, spinsUnlock := SPINS_UNLOCK)
    else v.(isFutex := (v.isFutex + 1) % TWO32)
  }

  /** The fields of mutexee_lock_t that the training uses. */
  class Mutexee {
    var nSpins: nat
    var nSpinsUnlock: nat
    var nAcq: nat
    var nMiss: nat
    var nMissLimit: nat
    var isFutex: nat
    var retrySpinEvery: nat

    function Fields(): Tuning
      reads this
    {
      Tuning(nSpins, nSpinsUnlock, nAcq, nMiss, nMissLimit, isFutex, retrySpinEvery)
    }

    constructor ()
      ensures Fields() == INITIAL && Valid(Fields())
    {
      nSpins, nSpinsUnlock, nAcq, nMiss := SPINS, SPINS_UNLOCK, 0, 0;
      nMissLimit, isFutex, retrySpinEvery := FUTEX_LIM, 0, RETRY_EVERY;
    }

    /** mutexee_lock_training, run by the holder before it releases: the mode changes at epoch
        boundaries only, to futex mode after too many misses, back to spinning when the count
        had reached retry_spin_every, and only then do the limits change. */
    method LockTraining()
      requires Valid(Fields())
      modifies this
      ensures Valid(Fields()) && Fields() == Trained(old(Fields()))
      ensures nAcq == (old(nAcq) + 1) % TWO64 && nMiss == if nAcq % EPOCH == 0 then 0 else old(nMiss)
      ensures old(isFutex) == 0 ==> (isFutex != 0 <==> nAcq % EPOCH == 0 && old(nMiss > nMissLimit))
      ensures old(isFutex) != 0 ==> (isFutex == 0 <==> nAcq % EPOCH == 0 && old(isFutex == retrySpinEvery))
      ensures old(isFutex) != 0 && isFutex != 0 ==> isFutex == old(isFutex) + if nAcq % EPOCH == 0 then 1 else 0
      ensures retrySpinEvery != old(retrySpinEvery) || nMissLimit != old(nMissLimit) ==>
        old(isFutex) != 0 && isFutex == 0
      ensures old(retrySpinEvery) <= retrySpinEvery && old(nMissLimit) <= nMissLimit
    {
      nAcq := (nAcq + 1) % TWO64;
      if nAcq % EPOCH == 0 {
        if isFutex == 0 {
          if nMiss > nMissLimit {
            nSpins := SPINS_MIN;
            nSpinsUnlock := SPINS_UNLOCK_MIN;
            isFutex := 1;
          }
        } else {
          var re := retrySpinEvery;
          var was := isFutex;
          isFutex := (isFutex + 1) % TWO32;
          if was == re {
            if re < RETRY_EVERY_MAX {
              re := re * 2;
            }
            retrySpinEvery := re;
            if nMissLimit < FUTEX_LIM_MAX {
              nMissLimit := nMissLimit + 1;
            }
            isFutex := 0;
            nSpins := SPINS;
            nSpinsUnlock := SPINS_UNLOCK;
          }
        }
        nMiss := 0;
      }
    }
  }

  // ----- runs

  /** `Train` is one training; `Miss` is an unlocker's unsynchronised update of n_miss,
      which may leave any value behind. */
  datatype Event = Train | Miss(count: nat)

  function Run(v: Tuning, events: seq<Event>): Tuning {
    if events == [] then v
    else
      var w := Run(v, events[..|events| - 1]);
      match events[|events| - 1]
      case Train => Trained(w)
      case Miss(count) => w.(missed := count)
  }

  function Trainings(events: seq<Event>): nat {
    if events == [] then 0
    else Trainings(events[..|events| - 1]) + if events[|events| - 1].Train? then 1 else 0
  }

  /** The number of epoch boundaries that `k` trainings cross. */
  function Boundaries(v: Tuning, k: nat): nat {
    (v.acquired % EPOCH + k) / EPOCH
  }

  predicate Valid(v: Tuning) {
    && (v.isFutex == 0 ==> v.spins == SPINS && v.spinsUnlock == SPINS_UNLOCK)
    && (v.isFutex != 0 ==> v.spins == SPINS_MIN && v.spinsUnlock == SPINS_UNLOCK_MIN)
    && v.retryEvery in {8, 16, 32}
    && FUTEX_LIM <= v.missLimit <= FUTEX_LIM_MAX
    && v.isFutex <= v.retryEvery
  }

  /** Along every run, the spin settings tell the mode, futex mode spins far less than spinning
      mode, and the limits stay in range. */
  lemma {:induction false} ValidAlways(events: seq<Event>)
    ensures Valid(Run(INITIAL, events))
    ensures var v := Run(INITIAL, events);
      && (v.spins, v.spinsUnlock) == (if v.isFutex == 0 then (8192, 384) else (256, 128))
      && 128 <= v.missLimit <= 256 && v.retryEvery <= 32
  {
    if events != [] { ValidAlways(events[..|events| - 1]); }
  }

  lemma AcquiredCounts(v: Tuning, k: nat)
    ensures (v.acquired % EPOCH + k + 1) % EPOCH == ((v.acquired % EPOCH + k) % EPOCH + 1) % EPOCH
    ensures Boundaries(v, k + 1) == Boundaries(v, k) + if (v.acquired % EPOCH + k + 1) % EPOCH == 0 then 1 else 0
  {
  }

  lemma OneMore(a: nat, k: nat, b: nat)
    requires b % EPOCH == (a % EPOCH + k) % EPOCH
    ensures (b + 1) % TWO64 % EPOCH == (a % EPOCH + k + 1) % EPOCH
  {
    assert TWO64 % EPOCH == 0;
  }

  lemma {:induction false} RunCounts(v: Tuning, events: seq<Event>)
    ensures Run(v, events).acquired % EPOCH == (v.acquired % EPOCH + Trainings(events)) % EPOCH
  {
    if events != [] {
      var before := events[..|events| - 1];
      RunCounts(v, before);
      OneMore(v.acquired, Trainings(before), Run(v, before).acquired);
      assert Run(v, events).acquired ==
        if events[|events| - 1].Train? then (Run(v, before).acquired + 1) % TWO64 else Run(v, before).acquired;
    }
  }

  /** What remains of v's limits once it has fallen back to spinning. */
  predicate FellBack(v: Tuning, w: Tuning) {
    && w.isFutex == 0 && w.spins == SPINS && w.spinsUnlock == SPINS_UNLOCK
    && w.retryEvery == (if v.retryEvery < RETRY_EVERY_MAX then 2 * v.retryEvery else RETRY_EVERY_MAX)
    && w.missLimit == (if v.missLimit < FUTEX_LIM_MAX then v.missLimit + 1 else FUTEX_LIM_MAX)
  }

  /** Where `b` epoch boundaries take a mutex that was in futex mode. */
  predicate After(v: Tuning, b: nat, w: Tuning) {
    && (v.isFutex + b <= v.retryEvery ==>
          w.isFutex == v.isFutex + b && w.retryEvery == v.retryEvery && w.missLimit == v.missLimit && Valid(w))
    && (v.isFutex + b == v.retryEvery + 1 ==> FellBack(v, w))
  }

  lemma TrainedAfter(v: Tuning, b: nat, w: Tuning)
    requires Valid(v) && v.isFutex > 0 && After(v, b, w)
    ensures After(v, b + if (w.acquired + 1) % TWO64 % EPOCH == 0 then 1 else 0, Trained(w))
  {
  }

  /** Futex mode lasts exactly retry_spin_every epochs, whatever the misses are: it counts
      one per boundary, and at the boundary after the count reaches retry_spin_every the
      mutex is back to spinning, with a longer stay next time. */
  lemma {:induction false} FutexModeLasts(v: Tuning, events: seq<Event>)
    requires Valid(v) && v.isFutex > 0
    ensures After(v, Boundaries(v, Trainings(events)), Run(v, events))
  {
    if events != [] {
      var before := events[..|events| - 1];
      var w := Run(v, before);
      FutexModeLasts(v, before);
      RunCounts(v, before);
      AcquiredCounts(v, Trainings(before));
      if events[|events| - 1].Train? {
        RunCounts(v, events);
        TrainedAfter(v, Boundaries(v, Trainings(before)), w);
      }
    }
  }
}
