/**
  The home-made semaphore of thread/semaphore/sem.c: a mutex, a condition variable
  `nonzero` and an unsigned `count`, shared by any number of clients.

  One `Action` is one step between two interleaving points. The condition variable follows
  POSIX.1-2017: `pthread_cond_wait` releases the mutex and sleeps in one step,
  `pthread_cond_signal` wakes at least one sleeper if there is one, and a
  sleeper may also wake for no reason.
 */
module Semaphore {
  import opened Folds
  import opened Options
  import A = AtomicSemaphore

  type Op = A.Op

  /** Where a client is: the comments give the statement it executes next in sem.c. */
  datatype Pc =
    | Idle     // between calls, or blocked on the mutex of the next call (lines 54, 63)
    | PTest    // line 55, mutex held
    | PSignal  // line 56, mutex held
    | PInc     // line 57, mutex held
    | PUnlock  // line 58, mutex held
    | WTest    // line 64, mutex held
    | Asleep   // inside pthread_cond_wait, line 65, mutex released
    | Woken    // inside pthread_cond_wait, taking the mutex again
    | WDec     // line 66, mutex held
    | WUnlock  // line 67, mutex held

  /** `todo[0]` is the call in progress until it returns. */
  datatype Thread = Thread(pc: Pc, todo: seq<Op>)

  datatype State = State(count: nat, owner: Option<nat>, threads: seq<Thread>)

  datatype Action =
    | Step(tid: nat)
    | Signal(tid: nat, woken: set<nat>)
    | Spurious(tid: nat)

  predicate InCritical(pc: Pc) {
    pc != Idle && pc != Asleep && pc != Woken
  }

  predicate InPost(pc: Pc) {
    pc == PTest || pc == PSignal || pc == PInc || pc == PUnlock
  }

  function Sleepers(threads: seq<Thread>): set<nat> {
    set i: nat | i < |threads| && threads[i].pc == Asleep
  }

  predicate Enabled(s: State, a: Action) {
    && a.tid < |s.threads|
    && var t := s.threads[a.tid];
    match a
    case Spurious(_) => t.pc == Asleep
    case Signal(_, woken) =>
      && t.pc == PSignal
      && woken <= Sleepers(s.threads)
      && (Sleepers(s.threads) != {} ==> woken != {})
    case Step(_) =>
      match t.pc
      case Idle => t.todo != [] && s.owner == None
      case Woken => s.owner == None
      case Asleep => false
      case PSignal => false
      case _ => true
  }

  function Wake(threads: seq<Thread>, woken: set<nat>): (r: seq<Thread>)
    ensures |r| == |threads|
  {
    seq(|threads|, i requires 0 <= i < |threads| =>
      if i in woken then threads[i].(pc := Woken) else threads[i])
  }

  function Move(s: State, i: nat, pc: Pc): State
    requires i < |s.threads|
  {
    s.(threads := s.threads[i := s.threads[i].(pc := pc)])
  }

  function Return(s: State, i: nat): State
    requires i < |s.threads|
  {
    var todo := s.threads[i].todo;
    s.(owner := None, threads := s.threads[i := Thread(Idle, if todo == [] then [] else todo[1..])])
  }

  function Apply(s: State, a: Action): State
    requires Enabled(s, a)
  {
    var i := a.tid;
    match a
    case Spurious(_) => Move(s, i, Woken)
    case Signal(_, woken) => Move(s.(threads := Wake(s.threads, woken)), i, PInc)
    case Step(_) =>
      match s.threads[i].pc
      case Idle => Move(s.(owner := Some(i)), i, if s.threads[i].todo[0] == A.Post then PTest else WTest)
      case Woken => Move(s.(owner := Some(i)), i, WTest)
      case PTest => Move(s, i, if s.count == 0 then PSignal else PInc)
      case PInc => Move(s.(count := (s.count + 1) % A.MODULUS), i, PUnlock)
      case WTest => if s.count == 0 then Move(s.(owner := None), i, Asleep) else Move(s, i, WDec)
      case WDec => Move(s.(count := if s.count == 0 then A.UINT_MAX else s.count - 1), i, WUnlock)
      case PUnlock => Return(s, i)
      case WUnlock => Return(s, i)
  }

  predicate ValidRun(s: State, run: seq<Action>)
    decreases |run|
  {
    run != [] ==> Enabled(s, run[0]) && ValidRun(Apply(s, run[0]), run[1..])
  }

  function Exec(s: State, run: seq<Action>): State
    requires ValidRun(s, run)
    decreases |run|
  {
    if run == [] then s else Exec(Apply(s, run[0]), run[1..])
  }

  /** The state after `semaphore_create`, with one program per client. */
  function Init(programs: seq<seq<Op>>): State {
    State(1, None, seq(|programs|, i requires 0 <= i < |programs| => Thread(Idle, programs[i])))
  }

  // ---- what every interleaving keeps, for arbitrary clients ----

  ghost predicate ThreadOk(s: State, i: nat)
    requires i < |s.threads|
  {
    var t := s.threads[i];
    && (InCritical(t.pc) <==> s.owner == Some(i))
    && (t.pc != Idle ==> t.todo != [] && (t.todo[0] == A.Post <==> InPost(t.pc)))
    && (t.pc == PSignal ==> s.count == 0)
    && (t.pc == WDec ==> 0 < s.count)
  }

  ghost predicate Inv(s: State) {
    && s.count <= A.UINT_MAX
    && (s.owner.Some? ==> s.owner.value < |s.threads|)
    && forall i :: 0 <= i < |s.threads| ==> ThreadOk(s, i)
  }

  lemma InitInv(programs: seq<seq<Op>>)
    ensures Inv(Init(programs))
  {
  }

  lemma InvKept(s: State, a: Action)
    requires Inv(s) && Enabled(s, a)
    ensures Inv(Apply(s, a))
  {
    var s' := Apply(s, a);
    assert ThreadOk(s, a.tid);
    forall i | 0 <= i < |s'.threads|
      ensures ThreadOk(s', i)
    {
      assert ThreadOk(s, i);
    }
  }

  lemma {:induction false} InvAlways(s: State, run: seq<Action>)
    requires Inv(s) && ValidRun(s, run)
    ensures Inv(Exec(s, run))
    decreases |run|
  {
    if run != [] {
      InvKept(s, run[0]);
      InvAlways(Apply(s, run[0]), run[1..]);
    }
  }

  // ---- refinement of the atomic semaphore ----

  /** An operation takes effect at its increment or decrement, before its call returns. */
  function Pending(t: Thread): seq<Op> {
    if (t.pc == PUnlock || t.pc == WUnlock) && t.todo != [] then t.todo[1..] else t.todo
  }

  function Abs(s: State): A.State {
    A.State(s.count, seq(|s.threads|, i requires 0 <= i < |s.threads| => Pending(s.threads[i])))
  }

  predicate TakesEffect(s: State, a: Action)
    requires Enabled(s, a)
  {
    a.Step? && (s.threads[a.tid].pc == PInc || s.threads[a.tid].pc == WDec)
  }

  /** The atomic operations that a run performs, in the order in which they take effect. */
  function Trace(s: State, run: seq<Action>): seq<A.Event>
    requires ValidRun(s, run)
    decreases |run|
  {
    if run == [] then [] else
      var rest := Trace(Apply(s, run[0]), run[1..]);
      if TakesEffect(s, run[0])
      then [A.Event(run[0].tid, if s.threads[run[0].tid].pc == PInc then A.Post else A.Wait)] + rest
      else rest
  }

  /** An action changes what is pending for the acting thread at most, and only where it takes effect. */
  lemma PendingAfter(s: State, a: Action, i: nat)
    requires Inv(s) && Enabled(s, a) && i < |s.threads|
    ensures var s' := Apply(s, a);
            && |s'.threads| == |s.threads|
            && (i == a.tid && TakesEffect(s, a) ==>
                  s.threads[i].todo != [] && Pending(s.threads[i]) == s.threads[i].todo
                  && Pending(s'.threads[i]) == s.threads[i].todo[1..])
            && (!(i == a.tid && TakesEffect(s, a)) ==> Pending(s'.threads[i]) == Pending(s.threads[i]))
  {
    assert ThreadOk(s, a.tid);
  }

  lemma StepRefines(s: State, a: Action)
    requires Inv(s) && Enabled(s, a)
    ensures !TakesEffect(s, a) ==> Abs(Apply(s, a)) == Abs(s)
    ensures TakesEffect(s, a) ==>
              var e := A.Event(a.tid, if s.threads[a.tid].pc == PInc then A.Post else A.Wait);
              A.Enabled(Abs(s), e) && A.Apply(Abs(s), e) == Abs(Apply(s, a))
  {
    var s' := Apply(s, a);
    assert ThreadOk(s, a.tid);
    PendingAfter(s, a, a.tid);
    forall i | 0 <= i < |s.threads| && i != a.tid
      ensures Pending(s'.threads[i]) == Pending(s.threads[i])
    {
      PendingAfter(s, a, i);
    }
    if TakesEffect(s, a) {
      assert Abs(s').todo == Abs(s).todo[a.tid := Abs(s).todo[a.tid][1..]];
    } else {
      assert Abs(s').todo == Abs(s).todo;
    }
  }

  /** Every interleaved run, for arbitrary clients, performs a run of the atomic semaphore. */
  lemma {:induction false} RunRefines(s: State, run: seq<Action>)
    requires Inv(s) && ValidRun(s, run)
    ensures A.ValidRun(Abs(s), Trace(s, run))
    ensures A.Exec(Abs(s), Trace(s, run)) == Abs(Exec(s, run))
    decreases |run|
  {
    if run != [] {
      StepRefines(s, run[0]);
      InvKept(s, run[0]);
      RunRefines(Apply(s, run[0]), run[1..]);
    }
  }

  /** From `semaphore_create`, count is 1 + posts - waits for as long as that fits an `unsigned`. */
  lemma CountIsExact(programs: seq<seq<Op>>, run: seq<Action>)
    requires ValidRun(Init(programs), run)
    ensures var s, trace := Init(programs), Trace(Init(programs), run);
            && A.ValidRun(A.State(1, programs), trace)
            && Exec(s, run).count == (1 + A.Balance(trace)) % 4_294_967_296
            && (Exec(s, run).count == 1 + A.Balance(trace) <==> 1 + A.Balance(trace) <= 4_294_967_295)
  {
    var s := Init(programs);
    InitInv(programs);
    RunRefines(s, run);
    assert Abs(s).todo == programs;
    A.Ledger(Abs(s), Trace(s, run));
  }

  /**
    Each call takes effect once, after it starts and before it returns, in program order: what client i has
    performed, followed by what it has still to perform, is its program, and its calls return in step.
   */
  lemma EffectsInProgramOrder(programs: seq<seq<Op>>, run: seq<Action>, i: nat)
    requires ValidRun(Init(programs), run) && i < |programs|
    ensures var s, trace := Exec(Init(programs), run), Trace(Init(programs), run);
            && |s.threads| == |programs|
            && programs[i] == A.OpsOf(trace, i) + Pending(s.threads[i])
            && |Pending(s.threads[i])| <= |s.threads[i].todo| <= |Pending(s.threads[i])| + 1
            && (s.threads[i].pc == Idle ==> Pending(s.threads[i]) == s.threads[i].todo)
  {
    var s0, s := Init(programs), Exec(Init(programs), run);
    InitInv(programs);
    RunRefines(s0, run);
    assert Abs(s0).todo == programs;
    A.ProgramOrder(Abs(s0), Trace(s0, run), i);
    assert Abs(s).todo[i] == Pending(s.threads[i]);
  }

  // ---- mutual exclusion of the client in thread/semaphore/main.c ----

  /** Client i has returned from (or is returning from) its wait and has not yet posted. */
  predicate Inside(s: State, i: nat)
    requires i < |s.threads|
  {
    A.Owes(Pending(s.threads[i]))
  }

  lemma {:induction false} OneTokenAlways(s: State, run: seq<Action>)
    requires Inv(s) && A.OneToken(Abs(s)) && ValidRun(s, run)
    ensures A.OneToken(Abs(Exec(s, run)))
    decreases |run|
  {
    if run != [] {
      var a := run[0];
      StepRefines(s, a);
      InvKept(s, a);
      if TakesEffect(s, a) {
        A.OneTokenKept(Abs(s), A.Event(a.tid, if s.threads[a.tid].pc == PInc then A.Post else A.Wait));
      }
      OneTokenAlways(Apply(s, a), run[1..]);
    }
  }

  ghost predicate Disciplined(programs: seq<seq<Op>>) {
    forall i :: 0 <= i < |programs| ==> A.Balanced(programs[i])
  }

  /** n copies of the program in thread/semaphore/main.c are disciplined clients. */
  lemma MainIsDisciplined(n: nat)
    ensures Disciplined(seq(n, i => [A.Wait, A.Post]))
  {
    var rest: seq<Op> := [A.Wait, A.Post][2..];
    assert A.Balanced(rest) && A.Balanced([A.Wait, A.Post]);
  }

  lemma InitOneToken(programs: seq<seq<Op>>)
    requires Disciplined(programs)
    ensures A.OneToken(Abs(Init(programs)))
  {
    assert Abs(Init(programs)).todo == programs;
    SumConstant(programs, A.Holder, 0);
  }

  /** In every reachable state of disciplined clients: count is 0 or 1 and at most one is inside. */
  lemma MutualExclusion(programs: seq<seq<Op>>, run: seq<Action>)
    requires Disciplined(programs) && ValidRun(Init(programs), run)
    ensures var s := Exec(Init(programs), run);
            && s.count + Sum(Abs(s).todo, A.Holder) == 1
            && s.count <= 1
            && (forall i :: 0 <= i < |s.threads| && Inside(s, i) ==> s.count == 0)
            && (forall i, j :: 0 <= i < j < |s.threads| ==> !(Inside(s, i) && Inside(s, j)))
  {
    InitInv(programs);
    InitOneToken(programs);
    OneTokenAlways(Init(programs), run);
    var s := Exec(Init(programs), run);
    A.OneTokenExcludes(Abs(s));
    forall i | 0 <= i < |s.threads|
      ensures Abs(s).todo[i] == Pending(s.threads[i])
    {
    }
    forall i, j | 0 <= i < j < |s.threads|
      ensures !(Inside(s, i) && Inside(s, j))
    {
      assert !(A.Owes(Abs(s).todo[i]) && A.Owes(Abs(s).todo[j]));
    }
  }

  // ---- the shared object itself ----

  /** `semaphore_t` as mapped by every client, together with where each client is. */
  class SharedSemaphore {
    var count: nat
    var owner: Option<nat>
    var threads: seq<Thread>

    function View(): State
      reads this
    {
      State(count, owner, threads)
    }

    constructor Create(programs: seq<seq<Op>>)
      ensures View() == Init(programs)
    {
      count, owner := 1, None;
      threads := seq(|programs|, i requires 0 <= i < |programs| => Thread(Idle, programs[i]));
    }

    method Goto(i: nat, pc: Pc)
      requires i < |threads|
      modifies this`threads
      ensures threads == old(threads)[i := old(threads)[i].(pc := pc)]
    {
      threads := threads[i := threads[i].(pc := pc)];
    }

    method Unlock(i: nat)
      requires i < |threads|
      modifies this`owner, this`threads
      ensures View() == Return(old(View()), i)
    {
      var todo := threads[i].todo;
      owner := None;
      threads := threads[i := Thread(Idle, if todo == [] then [] else todo[1..])];
    }

    method Act(a: Action)
      requires Enabled(View(), a)
      modifies this
      ensures View() == Apply(old(View()), a)
    {
      var i := a.tid;
      match a {
        case Spurious(_) => Goto(i, Woken);
        case Signal(_, woken) =>
          threads := Wake(threads, woken);
          Goto(i, PInc);
        case Step(_) =>
          match threads[i].pc {
            case Idle =>
              owner := Some(i);
              Goto(i, if threads[i].todo[0] == A.Post then PTest else WTest);
            case Woken =>
              owner := Some(i);
              Goto(i, WTest);
            case PTest => Goto(i, if count == 0 then PSignal else PInc);
            case PInc =>
              count := (count + 1) % A.MODULUS;
              Goto(i, PUnlock);
            case WTest =>
              if count == 0 {
                owner := None;
                Goto(i, Asleep);
              } else {
                Goto(i, WDec);
              }
            case WDec =>
              count := if count == 0 then A.UINT_MAX else count - 1;
              Goto(i, WUnlock);
            case PUnlock => Unlock(i);
            case WUnlock => Unlock(i);
          }
      }
    }

    /** Any schedule, run in place, is a run of the atomic semaphore. */
    method Run(schedule: seq<Action>)
      requires Inv(View()) && ValidRun(View(), schedule)
      modifies this
      ensures View() == Exec(old(View()), schedule) && Inv(View())
      ensures var trace := Trace(old(View()), schedule);
              A.ValidRun(Abs(old(View())), trace) && A.Exec(Abs(old(View())), trace) == Abs(View())
    {
      ghost var s0 := View();
      RunRefines(s0, schedule);
      for k := 0 to |schedule|
        invariant Inv(View()) && ValidRun(View(), schedule[k..])
        invariant Exec(View(), schedule[k..]) == Exec(s0, schedule)
      {
        assert schedule[k..][0] == schedule[k] && schedule[k..][1..] == schedule[k + 1..];
        InvKept(View(), schedule[k]);
        Act(schedule[k]);
      }
    }
  }
}
