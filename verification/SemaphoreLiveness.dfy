/**
  Wake-ups, deadlock and termination of the semaphore in thread/semaphore/sem.c.

  `semaphore_post` signals only when it finds count == 0 (line 55). Whether a sleeper can be
  forgotten therefore depends on the clients. The invariant `Covered` says that as long as
  somebody sleeps, every unit of count has a waiter on its way to take it.
 */
module SemaphoreLiveness {
  import opened Folds
  import opened Options
  import opened Semaphore
  import A = AtomicSemaphore

  function InFlight(t: Thread): int {
    if t.pc == Woken || t.pc == WTest || t.pc == WDec then 1 else 0
  }

  function AtInc(t: Thread): int {
    if t.pc == PInc then 1 else 0
  }

  /** Units of count, including the one an unfinished post is about to add. */
  function Supply(s: State): int {
    s.count + Sum(s.threads, AtInc)
  }

  ghost predicate Covered(s: State) {
    Sleepers(s.threads) != {} ==> Supply(s) <= Sum(s.threads, InFlight)
  }

  /**
    What a caller has to check before an unsignalled post: nobody sleeps, or more waiters
    are on their way than there are units to take.
   */
  ghost predicate Careful(s: State, a: Action)
    requires Enabled(s, a)
  {
    a.Step? && s.threads[a.tid].pc == PTest && s.count != 0
    ==> Sleepers(s.threads) == {} || s.count < Sum(s.threads, InFlight)
  }

  // ---- how one action changes the sums ----

  /** Only the mutex owner can be about to increment. */
  lemma AtIncIsOwner(s: State)
    requires Inv(s)
    ensures Sum(s.threads, AtInc) == if s.owner.Some? then AtInc(s.threads[s.owner.value]) else 0
  {
    var ts := s.threads;
    assert forall k :: 0 <= k < |ts| && s.owner != Some(k) ==> ThreadOk(s, k) && AtInc(ts[k]) == 0;
    if s.owner.Some? {
      var i := s.owner.value;
      var cleared := ts[i := Thread(Idle, [])];
      SumConstant(cleared, AtInc, 0);
      SumUpdate(ts, AtInc, i, Thread(Idle, []));
    } else {
      SumConstant(ts, AtInc, 0);
    }
  }

  lemma InFlightNonNegative(s: State)
    ensures 0 <= Sum(s.threads, InFlight)
  {
    SumNonNegative(s.threads, InFlight);
  }

  /** An action other than a signal changes the sums through the acting thread alone. */
  lemma OneThreadMoves(s: State, a: Action, f: Thread -> int)
    requires Enabled(s, a) && !a.Signal?
    ensures var s' := Apply(s, a);
            Sum(s'.threads, f) == Sum(s.threads, f) - f(s.threads[a.tid]) + f(s'.threads[a.tid])
  {
    var s' := Apply(s, a);
    assert s'.threads == s.threads[a.tid := s'.threads[a.tid]];
    SumUpdate(s.threads, f, a.tid, s'.threads[a.tid]);
  }

  lemma WakeAddsFlight(threads: seq<Thread>, woken: set<nat>)
    requires woken <= Sleepers(threads)
    ensures Sum(threads, InFlight) <= Sum(Wake(threads, woken), InFlight)
    ensures woken != {} ==> Sum(threads, InFlight) < Sum(Wake(threads, woken), InFlight)
  {
    var woke := Wake(threads, woken);
    assert forall k :: 0 <= k < |threads| ==> InFlight(threads[k]) <= InFlight(woke[k]);
    SumRise(woke, threads, InFlight, 0);
    if woken != {} {
      var j :| j in woken;
      SumStrictRise(threads, woke, InFlight, j);
    }
  }

  /** A signal puts at least one sleeper, if there is one, on its way. */
  lemma SignalAddsFlight(s: State, a: Action)
    requires Enabled(s, a) && a.Signal?
    ensures var s' := Apply(s, a);
            && Sum(s.threads, InFlight) <= Sum(s'.threads, InFlight)
            && (Sleepers(s.threads) != {} ==> Sum(s.threads, InFlight) < Sum(s'.threads, InFlight))
  {
    WakeAddsFlight(s.threads, a.woken);
    SignalMoves(s, a, InFlight);
  }

  /** A signal changes a sum through the woken threads and then through the poster. */
  lemma SignalMoves(s: State, a: Action, f: Thread -> int)
    requires Enabled(s, a) && a.Signal?
    ensures var t := s.threads[a.tid];
            Sum(Apply(s, a).threads, f) == Sum(Wake(s.threads, a.woken), f) - f(t) + f(t.(pc := PInc))
  {
    var woke := Wake(s.threads, a.woken);
    assert a.tid !in a.woken && woke[a.tid] == s.threads[a.tid];
    SumUpdate(woke, f, a.tid, woke[a.tid].(pc := PInc));
  }

  lemma SleepersAfter(s: State, a: Action)
    requires Enabled(s, a)
    ensures Sleepers(Apply(s, a).threads) ==
            if a.Signal? then Sleepers(s.threads) - a.woken
            else if a.Step? && s.threads[a.tid].pc == WTest && s.count == 0 then Sleepers(s.threads) + {a.tid}
            else Sleepers(s.threads) - {a.tid}
  {
  }

  /** The condition variable may do all that POSIX allows: wake any set of sleepers, and one for no reason. */
  lemma WakesAreFree(s: State, i: nat, woken: set<nat>)
    requires Inv(s) && woken <= Sleepers(s.threads) && woken != {}
    ensures i < |s.threads| && s.threads[i].pc == PSignal ==>
              && Enabled(s, Signal(i, woken))
              && Sleepers(Apply(s, Signal(i, woken)).threads) == Sleepers(s.threads) - woken
    ensures forall j :: j in woken ==>
              Enabled(s, Spurious(j)) && Sleepers(Apply(s, Spurious(j)).threads) == Sleepers(s.threads) - {j}
  {
    if i < |s.threads| && s.threads[i].pc == PSignal {
      SleepersAfter(s, Signal(i, woken));
    }
    forall j | j in woken
      ensures Enabled(s, Spurious(j)) && Sleepers(Apply(s, Spurious(j)).threads) == Sleepers(s.threads) - {j}
    {
      SleepersAfter(s, Spurious(j));
    }
  }

  // ---- the exact condition under which a wake-up is never lost ----

  /** For arbitrary clients: an action keeps every sleeper covered if and only if it is careful. */
  lemma CoveredIffCareful(s: State, a: Action)
    requires Inv(s) && Covered(s) && Enabled(s, a)
    ensures Covered(Apply(s, a)) <==> Careful(s, a)
  {
    var s' := Apply(s, a);
    InvKept(s, a);
    AtIncIsOwner(s);
    AtIncIsOwner(s');
    SleepersAfter(s, a);
    InFlightNonNegative(s);
    InFlightNonNegative(s');
    assert ThreadOk(s, a.tid) && ThreadOk(s', a.tid);
    if a.Signal? {
      SignalAddsFlight(s, a);
    } else {
      OneThreadMoves(s, a, InFlight);
      OneThreadMoves(s, a, AtInc);
    }
  }

  ghost predicate CarefulRun(s: State, run: seq<Action>)
    requires ValidRun(s, run)
    decreases |run|
  {
    run != [] ==> Careful(s, run[0]) && CarefulRun(Apply(s, run[0]), run[1..])
  }

  lemma {:induction false} CoveredAlways(s: State, run: seq<Action>)
    requires Inv(s) && Covered(s) && ValidRun(s, run) && CarefulRun(s, run)
    ensures Covered(Exec(s, run))
    decreases |run|
  {
    if run != [] {
      CoveredIffCareful(s, run[0]);
      InvKept(s, run[0]);
      CoveredAlways(Apply(s, run[0]), run[1..]);
    }
  }

  lemma InitCovered(programs: seq<seq<Op>>)
    ensures Covered(Init(programs))
  {
    assert Sleepers(Init(programs).threads) == {};
  }

  /** If somebody sleeps although the mutex is free and count > 0, somebody else is already awake. */
  lemma CoveredMeansWoken(s: State) returns (j: nat)
    requires Inv(s) && Covered(s)
    requires s.owner == None && 0 < s.count && Sleepers(s.threads) != {}
    ensures j < |s.threads| && s.threads[j].pc == Woken
  {
    AtIncIsOwner(s);
    j := SumPositiveWitness(s.threads, InFlight);
    assert ThreadOk(s, j);
  }

  // ---- what a careless post costs ----

  function Posts(todo: seq<Op>): nat {
    if todo == [] then 0 else (if todo[0] == A.Post then 1 else 0) + Posts(todo[1..])
  }

  function PostsLeft(t: Thread): int {
    Posts(Pending(t))
  }

  /** The largest value count can still reach without waits: at most 2^32 - 1 means no wrap-around. */
  function Budget(s: State): int {
    s.count + Sum(s.threads, PostsLeft)
  }

  /** Nobody wakes up for no reason and nobody starts a wait. */
  predicate Quiet(s: State, a: Action)
    requires Enabled(s, a)
  {
    && !a.Spurious?
    && (a.Step? && s.threads[a.tid].pc == Idle ==> s.threads[a.tid].todo[0] == A.Post)
  }

  ghost predicate QuietRun(s: State, run: seq<Action>)
    requires ValidRun(s, run)
    decreases |run|
  {
    run != [] ==> Quiet(s, run[0]) && QuietRun(Apply(s, run[0]), run[1..])
  }

  lemma PostsLeftNonNegative(s: State)
    ensures 0 <= Sum(s.threads, PostsLeft)
    ensures forall i :: 0 <= i < |s.threads| ==> PostsLeft(s.threads[i]) <= Sum(s.threads, PostsLeft)
  {
    SumNonNegative(s.threads, PostsLeft);
    forall i | 0 <= i < |s.threads|
      ensures PostsLeft(s.threads[i]) <= Sum(s.threads, PostsLeft)
    {
      SumAtLeast(s.threads, PostsLeft, i);
    }
  }

  lemma PostsLeftAfter(s: State, a: Action)
    requires Inv(s) && Enabled(s, a) && !a.Signal?
    ensures PostsLeft(Apply(s, a).threads[a.tid]) ==
            PostsLeft(s.threads[a.tid]) - if a.Step? && s.threads[a.tid].pc == PInc then 1 else 0
    ensures a.Step? && s.threads[a.tid].pc == PInc ==> 1 <= PostsLeft(s.threads[a.tid])
  {
    PendingAfter(s, a, a.tid);
    assert ThreadOk(s, a.tid);
  }

  lemma WakeKeepsPosts(threads: seq<Thread>, woken: set<nat>)
    requires woken <= Sleepers(threads)
    ensures Sum(Wake(threads, woken), PostsLeft) == Sum(threads, PostsLeft)
  {
    var woke := Wake(threads, woken);
    forall k | 0 <= k < |threads|
      ensures PostsLeft(threads[k]) == PostsLeft(woke[k])
    {
      assert Pending(threads[k]) == Pending(woke[k]);
    }
    SumSame(threads, PostsLeft, woke, PostsLeft);
  }

  /** Waking up and signalling leave what is pending alone. */
  lemma SignalKeepsBudget(s: State, a: Action)
    requires Enabled(s, a) && a.Signal?
    ensures Budget(Apply(s, a)) == Budget(s)
  {
    var t := s.threads[a.tid];
    WakeKeepsPosts(s.threads, a.woken);
    SignalMoves(s, a, PostsLeft);
    assert Pending(t) == Pending(t.(pc := PInc));
  }

  /** Within the budget no post wraps count round. */
  lemma BudgetKept(s: State, a: Action)
    requires Inv(s) && Budget(s) <= 4_294_967_295 && Enabled(s, a)
    ensures Budget(Apply(s, a)) <= 4_294_967_295
    ensures a.Step? && s.threads[a.tid].pc == PInc ==> s.count < 4_294_967_295
  {
    if a.Signal? {
      SignalKeepsBudget(s, a);
    } else {
      assert ThreadOk(s, a.tid);
      PostsLeftNonNegative(s);
      PostsLeftAfter(s, a);
      OneThreadMoves(s, a, PostsLeft);
    }
  }

  /** Uncovered sleepers are never signalled: no post can find count == 0. */
  lemma LostIsUnsignalled(s: State, a: Action)
    requires Inv(s) && !Covered(s) && Enabled(s, a)
    ensures !a.Signal?
  {
    AtIncIsOwner(s);
    InFlightNonNegative(s);
    assert ThreadOk(s, a.tid);
  }

  /** Once a sleeper is uncovered, it stays uncovered. */
  lemma LostKept(s: State, a: Action)
    requires Inv(s) && !Covered(s) && Budget(s) <= 4_294_967_295
    requires Enabled(s, a) && Quiet(s, a)
    ensures !a.Signal?
    ensures !Covered(Apply(s, a)) && Budget(Apply(s, a)) <= 4_294_967_295
  {
    LostIsUnsignalled(s, a);
    BudgetKept(s, a);
    assert ThreadOk(s, a.tid);
    AtIncIsOwner(s);
    InFlightNonNegative(s);
    SleepersAfter(s, a);
    OneThreadMoves(s, a, InFlight);
    OneThreadMoves(s, a, AtInc);
    assert a.tid !in Sleepers(s.threads);
  }

  /**
    A lost wake-up is permanent: however many posts follow, nothing is signalled any more,
    a sleeper remains, and with the mutex free count is above 0.
   */
  lemma {:induction false} LostForever(s: State, run: seq<Action>)
    requires Inv(s) && !Covered(s) && Budget(s) <= 4_294_967_295
    requires ValidRun(s, run) && QuietRun(s, run)
    ensures forall k :: 0 <= k < |run| ==> !run[k].Signal?
    ensures var s' := Exec(s, run);
            && !Covered(s')
            && Sleepers(s'.threads) != {}
            && (s'.owner == None ==> 0 < s'.count)
    decreases |run|
  {
    if run == [] {
      AtIncIsOwner(s);
      InFlightNonNegative(s);
    } else {
      LostKept(s, run[0]);
      InvKept(s, run[0]);
      LostForever(Apply(s, run[0]), run[1..]);
      assert forall k :: 1 <= k < |run| ==> run[k] == run[1..][k - 1];
    }
  }

  // ---- every run is bounded ----

  function CallCost(n: nat, op: Op): nat {
    if op == A.Post then 5 + 2 * n else 6
  }

  function ProgramCost(n: nat, todo: seq<Op>): nat {
    if todo == [] then 0 else CallCost(n, todo[0]) + ProgramCost(n, todo[1..])
  }

  /** What the call in progress may still cost; a signal pays for waking all n threads. */
  function PcCost(n: nat, pc: Pc): nat {
    match pc
    case Idle => 0
    case PTest => 4 + 2 * n
    case PSignal => 3 + 2 * n
    case PInc => 2
    case PUnlock => 1
    case Woken => 5
    case WTest => 4
    case Asleep => 3
    case WDec => 3
    case WUnlock => 2
  }

  function Weight(n: nat, t: Thread): int {
    if t.pc == Idle || t.todo == [] then ProgramCost(n, t.todo) else PcCost(n, t.pc) + ProgramCost(n, t.todo[1..])
  }

  function WeightOf(n: nat): Thread -> int {
    t => Weight(n, t)
  }

  function Measure(s: State): int {
    Sum(s.threads, WeightOf(|s.threads|))
  }

  lemma MeasureNonNegative(s: State)
    ensures 0 <= Measure(s)
  {
    SumNonNegative(s.threads, WeightOf(|s.threads|));
  }

  /** Waking all sleepers at most costs two units per thread, which the signal has set aside. */
  lemma SignalPays(s: State, a: Action)
    requires Inv(s) && Enabled(s, a) && a.Signal?
    ensures Measure(Apply(s, a)) < Measure(s)
  {
    var n, t := |s.threads|, s.threads[a.tid];
    var f, woke := WeightOf(n), Wake(s.threads, a.woken);
    forall k | 0 <= k < n
      ensures f(woke[k]) <= f(s.threads[k]) + 2
    {
      assert ThreadOk(s, k);
    }
    SumRise(s.threads, woke, f, 2);
    SignalMoves(s, a, f);
    assert ThreadOk(s, a.tid);
    assert f(t.(pc := PInc)) == f(t) - (1 + 2 * n);
  }

  lemma StepPays(s: State, a: Action)
    requires Inv(s) && Enabled(s, a) && !a.Signal?
    ensures Weight(|s.threads|, Apply(s, a).threads[a.tid])
            <= Weight(|s.threads|, s.threads[a.tid]) + if a.Spurious? then 2 else -1
  {
    assert ThreadOk(s, a.tid);
  }

  /** Every action costs at least one unit, except that a spurious wake-up puts two back. */
  lemma MeasureDrops(s: State, a: Action)
    requires Inv(s) && Enabled(s, a)
    ensures Measure(Apply(s, a)) <= Measure(s) + if a.Spurious? then 2 else -1
  {
    if a.Signal? {
      SignalPays(s, a);
    } else {
      StepPays(s, a);
      OneThreadMoves(s, a, WeightOf(|s.threads|));
    }
  }

  function SpuriousCount(run: seq<Action>): nat {
    if run == [] then 0 else (if run[0].Spurious? then 1 else 0) + SpuriousCount(run[1..])
  }

  /** For arbitrary clients: without spurious wake-ups a run has at most `Measure` actions. */
  lemma {:induction false} RunIsBounded(s: State, run: seq<Action>)
    requires Inv(s) && ValidRun(s, run)
    ensures |run| + Measure(Exec(s, run)) <= Measure(s) + 3 * SpuriousCount(run)
    ensures |run| <= Measure(s) + 3 * SpuriousCount(run)
    decreases |run|
  {
    MeasureNonNegative(Exec(s, run));
    if run != [] {
      MeasureDrops(s, run[0]);
      InvKept(s, run[0]);
      RunIsBounded(Apply(s, run[0]), run[1..]);
    }
  }

  // ---- where a run can stop ----

  /** Nothing can happen any more, except a wake-up for no reason. */
  ghost predicate Stuck(s: State) {
    forall a: Action :: Enabled(s, a) ==> a.Spurious?
  }

  predicate Finished(t: Thread) {
    t.pc == Idle && t.todo == []
  }

  lemma StuckIff(s: State)
    requires Inv(s)
    ensures Stuck(s) <==>
            s.owner == None && forall i :: 0 <= i < |s.threads| ==> s.threads[i].pc == Asleep || Finished(s.threads[i])
  {
    if Stuck(s) {
      if s.owner.Some? {
        var i := s.owner.value;
        assert ThreadOk(s, i);
        assert Enabled(s, if s.threads[i].pc == PSignal then Signal(i, Sleepers(s.threads)) else Step(i));
        assert false;
      }
      forall i | 0 <= i < |s.threads|
        ensures s.threads[i].pc == Asleep || Finished(s.threads[i])
      {
        assert ThreadOk(s, i);
        assert !Enabled(s, Step(i));
      }
    }
  }

  /** The next action of client i, if it is allowed one. */
  function Next(s: State, i: nat): Action
    requires i < |s.threads|
  {
    if s.threads[i].pc == PSignal then Signal(i, Sleepers(s.threads)) else Step(i)
  }

  /** Only the mutex and the sleep keep anybody waiting: in every reachable state all other clients can go on. */
  lemma BlockedIff(programs: seq<seq<Op>>, run: seq<Action>, i: nat)
    requires ValidRun(Init(programs), run) && i < |Exec(Init(programs), run).threads|
    ensures var s := Exec(Init(programs), run);
            var t := s.threads[i];
            Enabled(s, Next(s, i)) <==>
              && !Finished(t) && t.pc != Asleep
              && (t.pc == Idle || t.pc == Woken ==> forall j :: 0 <= j < |s.threads| ==> !InCritical(s.threads[j].pc))
  {
    var s := Exec(Init(programs), run);
    InitInv(programs);
    InvAlways(Init(programs), run);
    forall j | 0 <= j < |s.threads|
      ensures InCritical(s.threads[j].pc) <==> s.owner == Some(j)
    {
      assert ThreadOk(s, j);
    }
  }

  /** In a stuck state `Covered` means what it is for: nobody sleeps while there is something to take. */
  lemma StrandedIffUncovered(s: State)
    requires Inv(s) && Stuck(s)
    ensures Covered(s) <==> (Sleepers(s.threads) != {} ==> s.count == 0)
  {
    StuckIff(s);
    AtIncIsOwner(s);
    SumConstant(s.threads, InFlight, 0);
  }

  /** Careful clients, whatever their programs, never stop with a sleeper and count above 0. */
  lemma CarefulClientsStop(programs: seq<seq<Op>>, run: seq<Action>)
    requires ValidRun(Init(programs), run) && CarefulRun(Init(programs), run)
    ensures var s := Exec(Init(programs), run);
            Stuck(s) ==> forall i :: 0 <= i < |s.threads| ==>
              Finished(s.threads[i]) || (s.threads[i].pc == Asleep && s.count == 0)
  {
    var s := Exec(Init(programs), run);
    InitInv(programs);
    InitCovered(programs);
    CoveredAlways(Init(programs), run);
    InvAlways(Init(programs), run);
    if Stuck(s) {
      StuckIff(s);
      StrandedIffUncovered(s);
      assert forall i :: 0 <= i < |s.threads| && s.threads[i].pc == Asleep ==> i in Sleepers(s.threads);
    }
  }

  /**
    The exact condition, for arbitrary clients, once no new wait starts and nobody wakes for no reason: the
    sleepers stay covered along the run if and only if each of its posts was careful.
   */
  lemma {:induction false} CoveredIffCarefulRun(s: State, run: seq<Action>)
    requires Inv(s) && Covered(s) && Budget(s) <= 4_294_967_295
    requires ValidRun(s, run) && QuietRun(s, run)
    ensures Covered(Exec(s, run)) <==> CarefulRun(s, run)
    decreases |run|
  {
    if run != [] {
      var a := run[0];
      CoveredIffCareful(s, a);
      InvKept(s, a);
      BudgetKept(s, a);
      if Careful(s, a) {
        CoveredIffCarefulRun(Apply(s, a), run[1..]);
      } else {
        LostForever(Apply(s, a), run[1..]);
      }
    }
  }

  /** Such a run ends with a client asleep over an available unit if and only if one of its posts was careless. */
  lemma StrandedIffCareless(s: State, run: seq<Action>)
    requires Inv(s) && Covered(s) && Budget(s) <= 4_294_967_295
    requires ValidRun(s, run) && QuietRun(s, run)
    ensures var s' := Exec(s, run);
            Stuck(s') ==> ((Sleepers(s'.threads) != {} && 0 < s'.count) <==> !CarefulRun(s, run))
  {
    CoveredIffCarefulRun(s, run);
    InvAlways(s, run);
    if Stuck(Exec(s, run)) {
      StrandedIffUncovered(Exec(s, run));
    }
  }

  // ---- disciplined clients: no lost wake-up, no deadlock, termination ----

  /** A disciplined client posts only what it took, so every post finds count == 0 and signals. */
  lemma DisciplinedIsCareful(s: State, a: Action)
    requires Inv(s) && A.OneToken(Abs(s)) && Enabled(s, a)
    ensures Careful(s, a)
  {
    var t := s.threads[a.tid];
    assert ThreadOk(s, a.tid);
    A.OneTokenExcludes(Abs(s));
    assert Abs(s).todo[a.tid] == Pending(t);
  }

  lemma {:induction false} DisciplinedRunIsCareful(s: State, run: seq<Action>)
    requires Inv(s) && A.OneToken(Abs(s)) && ValidRun(s, run)
    ensures CarefulRun(s, run)
    decreases |run|
  {
    if run != [] {
      DisciplinedIsCareful(s, run[0]);
      OneTokenAlways(s, run[..1]);
      assert Exec(s, run[..1]) == Apply(s, run[0]) by { assert run[..1][1..] == []; }
      InvKept(s, run[0]);
      DisciplinedRunIsCareful(Apply(s, run[0]), run[1..]);
    }
  }

  /** No lost wake-up in any reachable state, spurious and multiple wake-ups included. */
  lemma NoLostWakeup(programs: seq<seq<Op>>, run: seq<Action>)
    requires Disciplined(programs) && ValidRun(Init(programs), run)
    ensures var s := Exec(Init(programs), run);
            && Covered(s)
            && (s.owner == None && 0 < s.count && Sleepers(s.threads) != {}
                ==> exists j :: 0 <= j < |s.threads| && s.threads[j].pc == Woken)
  {
    var s0, s := Init(programs), Exec(Init(programs), run);
    InitInv(programs);
    InitOneToken(programs);
    InitCovered(programs);
    DisciplinedRunIsCareful(s0, run);
    CoveredAlways(s0, run);
    InvAlways(s0, run);
    if s.owner == None && 0 < s.count && Sleepers(s.threads) != {} {
      var j := CoveredMeansWoken(s);
    }
  }

  /**
    Disciplined clients terminate: a run has a bounded number of actions, and the only states
    in which it can stop are those with every client finished and count back at 1.
   */
  lemma DisciplinedClientsFinish(programs: seq<seq<Op>>, run: seq<Action>)
    requires Disciplined(programs) && ValidRun(Init(programs), run)
    ensures |run| <= Measure(Init(programs)) + 3 * SpuriousCount(run)
    ensures var s := Exec(Init(programs), run);
            Stuck(s) <==> s.count == 1 && s.owner == None && forall i :: 0 <= i < |s.threads| ==> Finished(s.threads[i])
  {
    var s0, s := Init(programs), Exec(Init(programs), run);
    InitInv(programs);
    InvAlways(s0, run);
    RunIsBounded(s0, run);
    StuckIff(s);
    if Stuck(s) {
      MutualExclusion(programs, run);
      InitOneToken(programs);
      OneTokenAlways(s0, run);
      NoLostWakeup(programs, run);
      forall i | 0 <= i < |s.threads|
        ensures A.Holder(Abs(s).todo[i]) == 0
      {
        assert ThreadOk(s, i);
      }
      SumConstant(Abs(s).todo, A.Holder, 0);
      assert Sleepers(s.threads) == {};
      forall i | 0 <= i < |s.threads|
        ensures Finished(s.threads[i])
      {
        assert i !in Sleepers(s.threads);
      }
    }
  }
}
