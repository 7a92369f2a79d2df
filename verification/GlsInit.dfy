/** The lazy start of the locking service in src/gls.c: whoever calls first creates the one
    shared table, everybody else waits for it. */
module GlsInit {

  datatype Pc =
    | Start
    | Cas
    | Create
    | SetInitialized
    | Spin
    | ReadTable
    | Using(table: nat)

  /** `table` is gls_hashtable, 0 for NULL; `created` counts the tables ever created. */
  datatype Mem = Mem(initializing: bool, initialized: bool, table: nat, created: nat)
  datatype State = State(m: Mem, th: seq<Pc>)
  datatype View = View(m: Mem, pc: Pc)

  /** GLS_INIT_ONCE, gls_init, and the first use of the table. */
  function StepThread(m: Mem, pc: Pc): View {
    match pc
    case Start => View(m, if m.initialized then ReadTable else Cas)
    case Cas => if m.initializing then View(m, Spin) else View(m.(initializing := true), Create)
    case Create => View(m.(table := m.created + 1, created := m.created + 1), SetInitialized)
    case SetInitialized => View(m.(initialized := true), ReadTable)
    case Spin => View(m, if m.initialized then ReadTable else Spin)
    case ReadTable => View(m, Using(m.table))
    case Using(_) => View(m, pc)
  }

  function Step(s: State, t: nat): State {
    if t < |s.th| then
      var v := StepThread(s.m, s.th[t]);
      State(v.m, s.th[t := v.pc])
    else s
  }

  function Init(n: nat): State {
    State(Mem(false, false, 0, 0), seq(n, i => Start))
  }

  function Run(s: State, sched: seq<nat>): State {
    if sched == [] then s else Step(Run(s, sched[..|sched| - 1]), sched[|sched| - 1])
  }

  predicate Initializes(pc: Pc) {
    pc.Create? || pc.SetInitialized?
  }

  predicate MemOk(m: Mem) {
    && m.created <= 1 && m.table == m.created
    && (m.initialized ==> m.created == 1)
    && (!m.initializing ==> m.created == 0)
  }

  predicate ThreadOk(m: Mem, pc: Pc) {
    && (Initializes(pc) ==> m.initializing && !m.initialized)
    && (pc.Create? ==> m.created == 0)
    && (pc.SetInitialized? ==> m.created == 1)
    && (pc.ReadTable? || pc.Using? ==> m.initialized)
    && (pc.Using? ==> pc.table == 1)
  }

  predicate Inv(s: State) {
    && MemOk(s.m)
    && (forall t :: 0 <= t < |s.th| ==> ThreadOk(s.m, s.th[t]))
    && (forall t, u :: 0 <= t < |s.th| && 0 <= u < |s.th| && t != u ==> !(Initializes(s.th[t]) && Initializes(s.th[u])))
  }

  lemma {:induction false} Reachable(n: nat, sched: seq<nat>)
    ensures Inv(Run(Init(n), sched)) && |Run(Init(n), sched).th| == n
  {
    if sched != [] {
      Reachable(n, sched[..|sched| - 1]);
      var s, t := Run(Init(n), sched[..|sched| - 1]), sched[|sched| - 1];
      if t < |s.th| {
        assert ThreadOk(s.m, s.th[t]);
        var s' := Step(s, t);
        forall u | 0 <= u < |s'.th|
          ensures ThreadOk(s'.m, s'.th[u])
        {
          assert ThreadOk(s.m, s.th[u]);
        }
      }
    }
  }

  /** However many threads call in at once, one table is created, and every thread uses it. */
  lemma OneTable(n: nat, sched: seq<nat>, t: nat)
    requires t < n
    ensures var s := Run(Init(n), sched);
      |s.th| == n && s.m.created <= 1 && (s.th[t].Using? ==> s.m.created == 1 && s.th[t].table == s.m.table == 1)
  {
    Reachable(n, sched);
    var s := Run(Init(n), sched);
    assert ThreadOk(s.m, s.th[t]);
  }

  /** Somebody has initialised the service, or is doing it, or will at its next access. */
  predicate UnderWay(s: State) {
    || s.m.initialized
    || (exists t :: 0 <= t < |s.th| && Initializes(s.th[t]))
    || (!s.m.initializing && forall t :: 0 <= t < |s.th| ==> s.th[t].Start? || s.th[t].Cas?)
  }

  lemma UnderWayKept(s: State, t: nat)
    requires Inv(s) && UnderWay(s)
    ensures UnderWay(Step(s, t))
  {
    var s' := Step(s, t);
    if t < |s.th| && !s'.m.initialized {
      assert ThreadOk(s.m, s.th[t]);
      if u :| 0 <= u < |s.th| && Initializes(s.th[u]) {
        assert Initializes(s'.th[u]);
      } else {
        assert Initializes(s'.th[t]) || s'.th[t].Start? || s'.th[t].Cas?;
      }
    }
  }

  lemma InitUnderWay(n: nat)
    ensures UnderWay(Init(n))
  {
  }

  lemma {:induction false} AlwaysUnderWay(n: nat, sched: seq<nat>)
    ensures Inv(Run(Init(n), sched)) && UnderWay(Run(Init(n), sched)) && |Run(Init(n), sched).th| == n
  {
    hide Step, Inv, UnderWay;
    Reachable(n, sched);
    if sched == [] {
      InitUnderWay(n);
    } else {
      AlwaysUnderWay(n, sched[..|sched| - 1]);
      UnderWayKept(Run(Init(n), sched[..|sched| - 1]), sched[|sched| - 1]);
    }
  }

  /** `k` steps of thread `t` alone. */
  function Solo(s: State, t: nat, k: nat): State
    decreases k
  {
    if k == 0 then s else Solo(Step(s, t), t, k - 1)
  }

  lemma Three(s: State, t: nat)
    ensures Solo(s, t, 0) == s
    ensures Solo(s, t, 1) == Step(s, t)
    ensures Solo(s, t, 2) == Step(Step(s, t), t)
    ensures Solo(s, t, 3) == Step(Step(Step(s, t), t), t)
    ensures Solo(s, t, 4) == Step(Step(Step(Step(s, t), t), t), t)
  {
    assert Solo(Step(Step(Step(s, t), t), t), t, 1) == Solo(Step(Step(Step(Step(s, t), t), t), t), t, 0);
    assert Solo(Step(Step(s, t), t), t, 1) == Solo(Step(Step(Step(s, t), t), t), t, 0);
    assert Solo(Step(Step(s, t), t), t, 2) == Solo(Step(Step(Step(s, t), t), t), t, 1);
    assert Solo(Step(s, t), t, 1) == Solo(Step(Step(s, t), t), t, 0);
    assert Solo(Step(s, t), t, 2) == Solo(Step(Step(s, t), t), t, 1);
    assert Solo(Step(s, t), t, 3) == Solo(Step(Step(s, t), t), t, 2);
  }

  /** Nobody waits in vain: as soon as there is a caller, some thread completes the start with
      at most four steps of its own. */
  lemma SomebodyStarts(n: nat, sched: seq<nat>) returns (u: nat, k: nat)
    requires n >= 1
    ensures var s := Run(Init(n), sched); u < |s.th| && k <= 4 && Solo(s, u, k).m.initialized
  {
    hide Run;
    AlwaysUnderWay(n, sched);
    var s := Run(Init(n), sched);
    u, k := 0, 0;
    if !s.m.initialized {
      if w :| 0 <= w < |s.th| && Initializes(s.th[w]) {
        u := w;
        k := if s.th[w].Create? then 2 else 1;
        Three(s, u);
      } else {
        k := if s.th[0].Start? then 4 else 3;
        Three(s, 0);
      }
    } else {
      Three(s, 0);
    }
  }

  /** Once the service has started, every call gets to the table by itself. */
  lemma CallersProceed(n: nat, sched: seq<nat>, t: nat) returns (k: nat)
    requires var s := Run(Init(n), sched); t < |s.th| && s.m.initialized
    ensures k <= 3 && var s' := Solo(Run(Init(n), sched), t, k); t < |s'.th| && s'.th[t] == Using(1)
  {
    hide Run;
    Reachable(n, sched);
    var s := Run(Init(n), sched);
    assert ThreadOk(s.m, s.th[t]);
    Three(s, t);
    k := if s.th[t].Using? then 0 else if s.th[t].ReadTable? then 1 else if s.th[t].Cas? then 3 else 2;
  }
}
