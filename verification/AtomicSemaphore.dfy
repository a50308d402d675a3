/**
  The reference semaphore: every P (wait) and V (post) is one indivisible step.
  The lock-and-condition-variable semaphore of thread/semaphore/sem.c is proved
  to simulate it in module `Semaphore`.
 */
module AtomicSemaphore {
  import opened Folds

  /** `count` is an `unsigned`, so an increment wraps at this modulus. */
  const MODULUS: nat := 0x1_0000_0000
  const UINT_MAX: nat := MODULUS - 1

  datatype Op = Post | Wait

  /** `todo[i]` is what client i has still to do, in program order. */
  datatype State = State(value: nat, todo: seq<seq<Op>>)

  datatype Event = Event(tid: nat, op: Op)

  predicate Enabled(s: State, e: Event) {
    && e.tid < |s.todo|
    && s.todo[e.tid] != []
    && s.todo[e.tid][0] == e.op
    && (e.op == Wait ==> 0 < s.value)
  }

  function Apply(s: State, e: Event): State
    requires Enabled(s, e)
  {
    State(if e.op == Post then (s.value + 1) % MODULUS else s.value - 1,
          s.todo[e.tid := s.todo[e.tid][1..]])
  }

  predicate ValidRun(s: State, trace: seq<Event>)
    decreases |trace|
  {
    trace != [] ==> Enabled(s, trace[0]) && ValidRun(Apply(s, trace[0]), trace[1..])
  }

  function Exec(s: State, trace: seq<Event>): State
    requires ValidRun(s, trace)
    decreases |trace|
  {
    if trace == [] then s else Exec(Apply(s, trace[0]), trace[1..])
  }

  /** Completed posts minus completed waits. */
  function Balance(trace: seq<Event>): int {
    if trace == [] then 0
    else (if trace[0].op == Post then 1 else -1) + Balance(trace[1..])
  }

  /** How often a post has wrapped the value round to 0. */
  function Wraps(s: State, trace: seq<Event>): nat
    requires ValidRun(s, trace)
    decreases |trace|
  {
    if trace == [] then 0
    else (if trace[0].op == Post && s.value == UINT_MAX then 1 else 0)
         + Wraps(Apply(s, trace[0]), trace[1..])
  }

  lemma {:induction false} LedgerWithWraps(s: State, trace: seq<Event>)
    requires s.value <= UINT_MAX && ValidRun(s, trace)
    ensures Exec(s, trace).value <= UINT_MAX
    ensures s.value + Balance(trace) == Exec(s, trace).value + MODULUS * Wraps(s, trace)
    decreases |trace|
  {
    if trace != [] {
      LedgerWithWraps(Apply(s, trace[0]), trace[1..]);
    }
  }

  /**
    Conservation: the value is start + posts - waits exactly as long as that number
    still fits in an `unsigned`, and otherwise it is that number reduced by the wraps.
   */
  lemma Ledger(s: State, trace: seq<Event>)
    requires s.value <= 4_294_967_295 && ValidRun(s, trace)
    ensures 0 <= Exec(s, trace).value <= s.value + Balance(trace)
    ensures Exec(s, trace).value == (s.value + Balance(trace)) % 4_294_967_296
    ensures Exec(s, trace).value == s.value + Balance(trace)
            <==> s.value + Balance(trace) <= 4_294_967_295
  {
    LedgerWithWraps(s, trace);
    assert MODULUS * Wraps(s, trace) == 0 || MODULUS * Wraps(s, trace) >= MODULUS;
  }

  /** The operations of client i in a trace, in order. */
  function OpsOf(trace: seq<Event>, i: nat): seq<Op> {
    if trace == [] then []
    else (if trace[0].tid == i then [trace[0].op] else []) + OpsOf(trace[1..], i)
  }

  /** Every client performs its own program, in its own order, up to where it has got. */
  lemma {:induction false} ProgramOrder(s: State, trace: seq<Event>, i: nat)
    requires ValidRun(s, trace) && i < |s.todo|
    ensures |Exec(s, trace).todo| == |s.todo|
    ensures s.todo[i] == OpsOf(trace, i) + Exec(s, trace).todo[i]
    decreases |trace|
  {
    if trace != [] {
      ProgramOrder(Apply(s, trace[0]), trace[1..], i);
      if trace[0].tid == i {
        assert s.todo[i] == [trace[0].op] + s.todo[i][1..];
      }
    }
  }

  // ---- the client of thread/semaphore/main.c: wait, critical section, post ----

  /** Between rounds: the rest of the program is wait/post pairs. */
  predicate Balanced(todo: seq<Op>) {
    todo == [] || (2 <= |todo| && todo[0] == Wait && todo[1] == Post && Balanced(todo[2..]))
  }

  /** Inside a round: the wait is done, the matching post is the next operation. */
  predicate Owes(todo: seq<Op>) {
    todo != [] && todo[0] == Post && Balanced(todo[1..])
  }

  function Holder(todo: seq<Op>): int {
    if Owes(todo) then 1 else 0
  }

  /** Every client follows the wait-then-post discipline and one token is shared by all. */
  ghost predicate OneToken(s: State) {
    && (forall i :: 0 <= i < |s.todo| ==> Balanced(s.todo[i]) || Owes(s.todo[i]))
    && s.value + Sum(s.todo, Holder) == 1
  }

  lemma OneTokenKept(s: State, e: Event)
    requires OneToken(s) && Enabled(s, e)
    ensures OneToken(Apply(s, e))
  {
    var rest := s.todo[e.tid][1..];
    SumUpdate(s.todo, Holder, e.tid, rest);
    SumNonNegative(s.todo, Holder);
    assert Balanced(s.todo[e.tid]) ==> rest[1..] == s.todo[e.tid][2..];
  }

  /** The value is 0 or 1, and at most one client is between its wait and its post. */
  lemma OneTokenExcludes(s: State)
    requires OneToken(s)
    ensures s.value <= 1
    ensures forall i :: 0 <= i < |s.todo| && Owes(s.todo[i]) ==> s.value == 0
    ensures forall i, j :: 0 <= i < j < |s.todo| ==> !(Owes(s.todo[i]) && Owes(s.todo[j]))
  {
    SumNonNegative(s.todo, Holder);
    forall i | 0 <= i < |s.todo| && Owes(s.todo[i])
      ensures s.value == 0
    {
      SumAtLeast(s.todo, Holder, i);
    }
    forall i, j | 0 <= i < j < |s.todo|
      ensures !(Owes(s.todo[i]) && Owes(s.todo[j]))
    {
      SumAtLeastTwo(s.todo, Holder, i, j);
    }
  }
}
