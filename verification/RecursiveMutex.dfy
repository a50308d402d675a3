/**
  thread/mutex/main.c: a PTHREAD_MUTEX_RECURSIVE mutex, taken twice and released twice by `main`, and
  then used by worker threads that increment one counter.

  `counter++` is a load and a store. `main` is thread k of a program with workers 0 .. k-1.
 */
module RecursiveMutex {
  import opened Folds
  import opened Options

  const EPERM: int := 1
  const EAGAIN: int := 11
  const EBUSY: int := 16

  /** The most nested locks one thread can hold; one more answers EAGAIN. */
  const MAX_DEPTH: nat := 0xFFFF_FFFF

  datatype Mutex = Mutex(owner: Option<nat>, depth: nat)

  datatype Call = Lock | TryLock | Unlock

  const FREE: Mutex := Mutex(None, 0)

  /** A lock call blocks while another thread owns the mutex; the other calls never block. */
  predicate Returns(m: Mutex, t: nat, c: Call) {
    c == Lock ==> m.owner == None || m.owner == Some(t)
  }

  /** The return code of a call that returns. */
  function Code(m: Mutex, t: nat, c: Call): int {
    match c
    case Unlock => if m.owner == Some(t) then 0 else EPERM
    case _ =>
      if m.owner == None then 0
      else if m.owner != Some(t) then EBUSY
      else if m.depth < MAX_DEPTH then 0 else EAGAIN
  }

  function After(m: Mutex, t: nat, c: Call): Mutex {
    if Code(m, t, c) != 0 then m
    else if c == Unlock then (if m.depth <= 1 then FREE else Mutex(m.owner, m.depth - 1))
    else Mutex(Some(t), if m.owner == None then 1 else m.depth + 1)
  }

  ghost predicate Consistent(m: Mutex) {
    (m.owner == None <==> m.depth == 0) && m.depth <= MAX_DEPTH
  }

  // ---- any sequence of calls by any threads ----

  predicate ValidCalls(m: Mutex, calls: seq<(nat, Call)>)
    decreases |calls|
  {
    calls != [] ==> Returns(m, calls[0].0, calls[0].1) && ValidCalls(After(m, calls[0].0, calls[0].1), calls[1..])
  }

  function AfterAll(m: Mutex, calls: seq<(nat, Call)>): Mutex
    decreases |calls|
  {
    if calls == [] then m else AfterAll(After(m, calls[0].0, calls[0].1), calls[1..])
  }

  /** Successful locks minus successful unlocks of thread t. */
  function Net(m: Mutex, calls: seq<(nat, Call)>, t: nat): int
    decreases |calls|
  {
    if calls == [] then 0 else
      var (u, c) := calls[0];
      (if u != t || Code(m, u, c) != 0 then 0 else if c == Unlock then -1 else 1)
      + Net(After(m, u, c), calls[1..], t)
  }

  function Held(m: Mutex, t: nat): nat {
    if m.owner == Some(t) then m.depth else 0
  }

  /** Owner and depth are exactly the balance of successful calls, thread by thread. */
  lemma {:induction false} DepthIsBalance(m: Mutex, calls: seq<(nat, Call)>, t: nat)
    requires Consistent(m) && ValidCalls(m, calls)
    ensures Consistent(AfterAll(m, calls))
    ensures Held(AfterAll(m, calls), t) == Held(m, t) + Net(m, calls, t)
    decreases |calls|
  {
    if calls != [] {
      DepthIsBalance(After(m, calls[0].0, calls[0].1), calls[1..], t);
    }
  }

  /** From a free mutex: t owns it if and only if t's successful calls are unbalanced. */
  lemma OwnerIsUnbalanced(calls: seq<(nat, Call)>, t: nat)
    requires ValidCalls(FREE, calls)
    ensures AfterAll(FREE, calls).owner == Some(t) <==> Net(FREE, calls, t) != 0
    ensures 0 <= Net(FREE, calls, t)
    ensures AfterAll(FREE, calls).owner == Some(t) ==> AfterAll(FREE, calls).depth == Net(FREE, calls, t)
  {
    DepthIsBalance(FREE, calls, t);
  }

  function Times(t: nat, c: Call, k: nat): seq<(nat, Call)> {
    if k == 0 then [] else [(t, c)] + Times(t, c, k - 1)
  }

  /** k lock or trylock calls in a row by the owner, j deep already. */
  lemma {:induction false} NestedCalls(t: nat, c: Call, j: nat, k: nat)
    requires c != Unlock && j + k <= 4_294_967_295
    ensures var m := if j == 0 then FREE else Mutex(Some(t), j);
            && ValidCalls(m, Times(t, c, k))
            && AfterAll(m, Times(t, c, k)) == if j + k == 0 then FREE else Mutex(Some(t), j + k)
    decreases k
  {
    if k > 0 {
      assert Times(t, c, k)[1..] == Times(t, c, k - 1);
      NestedCalls(t, c, j + 1, k - 1);
    }
  }

  /**
    A thread may nest up to 2^32 - 1 calls; the next one answers 11, EAGAIN. Meanwhile another thread's lock
    blocks, its trylock answers 16, EBUSY, and its unlock 1, EPERM. None of these changes the mutex.
   */
  lemma NestingLimit(t: nat, u: nat, c: Call, k: nat)
    requires c != Unlock && t != u && 1 <= k <= 4_294_967_295
    ensures ValidCalls(FREE, Times(t, c, k))
    ensures var m := AfterAll(FREE, Times(t, c, k));
            && m == Mutex(Some(t), k)
            && Code(m, t, c) == (if k < 4_294_967_295 then 0 else 11)
            && !Returns(m, u, Lock) && Code(m, u, TryLock) == 16 && Code(m, u, Unlock) == 1
            && After(m, u, TryLock) == m && After(m, u, Unlock) == m
            && (k == 4_294_967_295 ==> After(m, t, c) == m)
  {
    NestedCalls(t, c, 0, k);
  }

  // ---- the whole program ----

  datatype MainPc =
    | MLock        // line 66
    | MTry         // line 70
    | MInner       // line 74
    | MOuter       // line 81
    | MSpawn(next: nat)  // lines 90-94
    | MJoin(next: nat)   // lines 96-97
    | MDone
    | MFailed      // line 86

  datatype WorkerPc =
    | Loop    // line 15
    | Take    // line 17
    | Load    // line 24, read counter
    | Store   // line 24, write counter
    | Give    // line 26
    | Finished
    | Broken  // lines 21 and 30

  datatype Worker = Worker(pc: WorkerPc, i: int, reg: int)

  datatype State = State(max: nat, mutex: Mutex, counter: int, main: MainPc, workers: seq<Worker>)

  datatype Action = Main | Work(id: nat)

  function Init(max: nat, k: nat): State {
    State(max, FREE, 0, MLock, seq(k, i => Worker(Loop, 0, 0)))
  }

  predicate Started(s: State, w: nat) {
    s.main.MJoin? || s.main.MDone? || (s.main.MSpawn? && w < s.main.next)
  }

  predicate Enabled(s: State, a: Action) {
    match a
    case Work(w) =>
      && w < |s.workers| && Started(s, w)
      && s.workers[w].pc != Finished && s.workers[w].pc != Broken
      && (s.workers[w].pc == Take ==> Returns(s.mutex, w, Lock))
    case Main =>
      match s.main
      case MLock => Returns(s.mutex, |s.workers|, Lock)
      case MJoin(j) => j < |s.workers| ==> s.workers[j].pc == Finished || s.workers[j].pc == Broken
      case MDone => false
      case MFailed => false
      case _ => true
  }

  function MainStep(s: State): State {
    var me, k, m := |s.workers|, |s.workers|, s.mutex;
    match s.main
    case MLock => s.(mutex := After(m, me, Lock), main := if Code(m, me, Lock) == 0 then MTry else MFailed)
    case MTry => s.(mutex := After(m, me, TryLock), main := if Code(m, me, TryLock) == 0 then MInner else MOuter)
    case MInner => s.(mutex := After(m, me, Unlock), main := MOuter)
    case MOuter => s.(mutex := After(m, me, Unlock), main := MSpawn(0))
    case MSpawn(j) => s.(main := if j < k then MSpawn(j + 1) else MJoin(0))
    case MJoin(j) => s.(main := if j < k then MJoin(j + 1) else MDone)
    case _ => s
  }

  function WorkStep(s: State, w: nat): State
    requires w < |s.workers|
  {
    var t, m := s.workers[w], s.mutex;
    match t.pc
    case Loop => s.(workers := s.workers[w := t.(pc := if t.i < s.max then Take else Finished)])
    case Take => s.(mutex := After(m, w, Lock),
                    workers := s.workers[w := t.(pc := if Code(m, w, Lock) == 0 then Load else Broken)])
    case Load => s.(workers := s.workers[w := t.(pc := Store, reg := s.counter)])
    case Store => s.(counter := t.reg + 1, workers := s.workers[w := t.(pc := Give)])
    case Give => s.(mutex := After(m, w, Unlock),
                    workers := s.workers[w := if Code(m, w, Unlock) == 0
                                              then t.(pc := Loop, i := t.i + 1) else t.(pc := Broken)])
    case _ => s
  }

  function Apply(s: State, a: Action): State
    requires Enabled(s, a)
  {
    if a.Main? then MainStep(s) else WorkStep(s, a.id)
  }

  predicate ValidRun(s: State, run: seq<Action>)
    decreases |run|
  {
    run != [] ==> Enabled(s, run[0]) && ValidRun(Apply(s, run[0]), run[1..])
  }

  function Exec(s: State, run: seq<Action>): State
    requires ValidRun(s, run)
    decreases |run|
  {
    if run == [] then s else Exec(Apply(s, run[0]), run[1..])
  }

  // ---- the invariant ----

  predicate HasLock(pc: WorkerPc) {
    pc == Load || pc == Store || pc == Give
  }

  function Stores(w: Worker): int {
    w.i + if w.pc == Give then 1 else 0
  }

  /** The nesting that `main` has built up so far. */
  function MainDepth(pc: MainPc): nat {
    match pc
    case MTry => 1
    case MInner => 2
    case MOuter => 1
    case _ => 0
  }

  ghost predicate WorkerOk(s: State, w: nat)
    requires w < |s.workers|
  {
    var t := s.workers[w];
    && Held(s.mutex, w) == (if HasLock(t.pc) then 1 else 0)
    && 0 <= t.i <= s.max
    && (HasLock(t.pc) || t.pc == Take ==> t.i < s.max)
    && (t.pc == Finished ==> t.i == s.max)
    && t.pc != Broken
    && (t.pc == Store ==> t.reg == s.counter)
    && (!Started(s, w) ==> t.pc == Loop)
  }

  ghost predicate Inv(s: State) {
    && Consistent(s.mutex)
    && Held(s.mutex, |s.workers|) == MainDepth(s.main)
    && (s.mutex.owner.Some? ==> s.mutex.owner.value <= |s.workers|)
    && s.main != MFailed
    && (s.main.MSpawn? ==> s.main.next <= |s.workers|)
    && (forall w :: 0 <= w < |s.workers| ==> WorkerOk(s, w))
    && (s.main.MJoin? ==> s.main.next <= |s.workers|)
    && (forall w :: 0 <= w < |s.workers| ==>
          (s.main.MDone? || (s.main.MJoin? && w < s.main.next) ==> s.workers[w].pc == Finished))
    && s.counter == Sum(s.workers, Stores)
  }

  lemma InitInv(max: nat, k: nat)
    ensures Inv(Init(max, k))
  {
    SumConstant(Init(max, k).workers, Stores, 0);
  }

  lemma CounterKept(s: State, a: Action)
    requires Inv(s) && Enabled(s, a)
    ensures var s' := Apply(s, a);
            && |s'.workers| == |s.workers| && s'.max == s.max
            && s'.counter == Sum(s'.workers, Stores)
  {
    if a.Work? {
      assert WorkerOk(s, a.id);
      SumUpdate(s.workers, Stores, a.id, Apply(s, a).workers[a.id]);
    }
  }

  lemma WorkerKept(s: State, a: Action, w: nat)
    requires Inv(s) && Enabled(s, a) && w < |s.workers|
    ensures |Apply(s, a).workers| == |s.workers| && WorkerOk(Apply(s, a), w)
  {
    assert WorkerOk(s, w);
    assert a.Work? ==> WorkerOk(s, a.id);
  }

  lemma MutexKept(s: State, a: Action)
    requires Inv(s) && Enabled(s, a)
    ensures var s' := Apply(s, a);
            && Consistent(s'.mutex)
            && Held(s'.mutex, |s.workers|) == MainDepth(s'.main)
            && (s'.mutex.owner.Some? ==> s'.mutex.owner.value <= |s.workers|)
            && s'.main != MFailed
  {
    assert a.Work? ==> WorkerOk(s, a.id);
    assert forall w :: 0 <= w < |s.workers| && s.mutex.owner == Some(w) ==> WorkerOk(s, w);
  }

  lemma InvKept(s: State, a: Action)
    requires Inv(s) && Enabled(s, a)
    ensures Inv(Apply(s, a))
  {
    var s' := Apply(s, a);
    CounterKept(s, a);
    MutexKept(s, a);
    forall w | 0 <= w < |s.workers|
      ensures WorkerOk(s', w)
    {
      WorkerKept(s, a, w);
    }
    assert a.Main? && s.main.MJoin? && s.main.next < |s.workers| ==> WorkerOk(s, s.main.next);
  }

  lemma {:induction false} InvAlways(s: State, run: seq<Action>)
    requires Inv(s) && ValidRun(s, run)
    ensures Inv(Exec(s, run))
    ensures Exec(s, run).max == s.max && |Exec(s, run).workers| == |s.workers|
    decreases |run|
  {
    if run != [] {
      InvKept(s, run[0]);
      CounterKept(s, run[0]);
      InvAlways(Apply(s, run[0]), run[1..]);
    }
  }

  // ---- every run is bounded and can only stop with the full count ----

  function WorkerCost(max: nat, w: Worker): int {
    6 * (max - w.i) +
    match w.pc
    case Loop => 1
    case Take => 0
    case Load => -1
    case Store => -2
    case Give => -3
    case Finished => 0
    case Broken => -6
  }

  function CostOf(max: nat): Worker -> int {
    w => WorkerCost(max, w)
  }

  function MainCost(k: nat, pc: MainPc): int {
    match pc
    case MLock => 2 * k + 7
    case MTry => 2 * k + 6
    case MInner => 2 * k + 5
    case MOuter => 2 * k + 4
    case MSpawn(j) => 2 * k - j + 3
    case MJoin(j) => k - j + 1
    case _ => 0
  }

  function Measure(s: State): int {
    MainCost(|s.workers|, s.main) + Sum(s.workers, CostOf(s.max))
  }

  lemma MeasureNonNegative(s: State)
    requires Inv(s)
    ensures 0 <= Measure(s)
  {
    forall w | 0 <= w < |s.workers|
      ensures 0 <= CostOf(s.max)(s.workers[w])
    {
      assert WorkerOk(s, w);
    }
    SumNonNegative(s.workers, CostOf(s.max));
  }

  lemma MeasureDrops(s: State, a: Action)
    requires Inv(s) && Enabled(s, a)
    ensures Measure(Apply(s, a)) < Measure(s)
  {
    if a.Work? {
      assert WorkerOk(s, a.id);
      SumUpdate(s.workers, CostOf(s.max), a.id, Apply(s, a).workers[a.id]);
    }
  }

  lemma {:induction false} RunIsBounded(s: State, run: seq<Action>)
    requires Inv(s) && ValidRun(s, run)
    ensures |run| <= Measure(s)
    decreases |run|
  {
    MeasureNonNegative(s);
    if run != [] {
      MeasureDrops(s, run[0]);
      InvKept(s, run[0]);
      RunIsBounded(Apply(s, run[0]), run[1..]);
    }
  }

  /** No deadlock: the program can only stop when `main` has joined every worker. */
  lemma StuckIff(s: State)
    requires Inv(s)
    ensures (forall a: Action :: !Enabled(s, a)) <==> s.main == MDone
  {
    if forall a: Action :: !Enabled(s, a) {
      assert !Enabled(s, Main);
      assert s.main == MLock ==> s.mutex.owner == None by {
        assert forall w :: 0 <= w < |s.workers| && s.mutex.owner == Some(w) ==> WorkerOk(s, w);
      }
      if s.main.MJoin? {
        var j := s.main.next;
        assert WorkerOk(s, j) && !Enabled(s, Work(j));
        assert s.workers[j].pc == Take && s.mutex.owner.Some?;
        var o := s.mutex.owner.value;
        assert o < |s.workers| && WorkerOk(s, o);
        assert Enabled(s, Work(o));
        assert false;
      }
    }
  }

  /**
    The whole program, for k workers of `max` turns each: bounded, without deadlock, no call of `main` or of
    a worker ever answers an error, the nested prelude leaves the mutex free, and the counter is k * max.
   */
  lemma ProgramCounts(max: nat, k: nat, run: seq<Action>)
    requires ValidRun(Init(max, k), run)
    ensures |run| <= 2 * k + 7 + (6 * max + 1) * k
    ensures var s := Exec(Init(max, k), run);
            && s.main != MFailed
            && (forall w :: 0 <= w < |s.workers| ==> s.workers[w].pc != Broken)
            && (s.main == MLock && Enabled(s, Main) ==> Code(s.mutex, k, Lock) == 0)
            && (s.main == MTry ==> Code(s.mutex, k, TryLock) == 0)
            && (s.main == MInner || s.main == MOuter ==> Code(s.mutex, k, Unlock) == 0)
            && (s.main.MSpawn? && s.main.next == 0 ==> s.mutex == FREE)
            && ((forall a: Action :: !Enabled(s, a)) <==> s.main == MDone)
            && (s.main == MDone ==> s.counter == max * k && s.mutex == FREE)
  {
    var s0, s := Init(max, k), Exec(Init(max, k), run);
    InitInv(max, k);
    InvAlways(s0, run);
    RunIsBounded(s0, run);
    SumConstant(s0.workers, CostOf(max), 6 * max + 1);
    StuckIff(s);
    forall w | 0 <= w < |s.workers|
      ensures s.workers[w].pc != Broken
      ensures s.main == MDone ==> Stores(s.workers[w]) == max
      ensures s.mutex.owner == Some(w) ==> HasLock(s.workers[w].pc)
      ensures s.main.MSpawn? && s.main.next == 0 ==> s.workers[w].pc == Loop
    {
      assert WorkerOk(s, w);
    }
    if s.main == MDone {
      SumConstant(s.workers, Stores, max);
    }
  }

  /**
    Who is kept waiting, in every reachable state: a worker that has been started only by another thread
    between its lock and its unlock, and `main` only by a worker it joins.
   */
  lemma BlockedIff(max: nat, k: nat, run: seq<Action>)
    requires ValidRun(Init(max, k), run)
    ensures |Exec(Init(max, k), run).workers| == k
    ensures var s := Exec(Init(max, k), run);
            && (forall w :: 0 <= w < k ==>
                  (Enabled(s, Work(w)) <==>
                    && (s.main.MJoin? || s.main.MDone? || (s.main.MSpawn? && w < s.main.next))
                    && s.workers[w].pc != Finished
                    && (s.workers[w].pc == Take ==> forall v :: 0 <= v < k ==> !HasLock(s.workers[v].pc))))
            && (Enabled(s, Main) <==>
                  s.main != MDone && (s.main.MJoin? && s.main.next < k ==> s.workers[s.main.next].pc == Finished))
  {
    var s := Exec(Init(max, k), run);
    InitInv(max, k);
    InvAlways(Init(max, k), run);
    forall w | 0 <= w < k
      ensures WorkerOk(s, w) && (HasLock(s.workers[w].pc) <==> s.mutex.owner == Some(w))
    {
      assert WorkerOk(s, w);
    }
  }

  // ---- the mutex object itself ----

  class PthreadMutex {
    var owner: Option<nat>
    var depth: nat

    function View(): Mutex
      reads this
    {
      Mutex(owner, depth)
    }

    constructor ()
      ensures View() == FREE
    {
      owner, depth := None, 0;
    }

    /** A lock or trylock call by thread t that returns; a lock by another thread would block. */
    method Acquire(t: nat, c: Call) returns (ret: int)
      requires c != Unlock && Returns(View(), t, c)
      modifies this
      ensures ret == Code(old(View()), t, c) && View() == After(old(View()), t, c)
    {
      if owner == None {
        owner, depth, ret := Some(t), 1, 0;
      } else if owner != Some(t) {
        ret := EBUSY;
      } else if depth < MAX_DEPTH {
        depth, ret := depth + 1, 0;
      } else {
        ret := EAGAIN;
      }
    }

    method Release(t: nat) returns (ret: int)
      modifies this
      ensures ret == Code(old(View()), t, Unlock) && View() == After(old(View()), t, Unlock)
    {
      if owner != Some(t) {
        return EPERM;
      }
      if depth <= 1 {
        owner, depth := None, 0;
      } else {
        depth := depth - 1;
      }
      ret := 0;
    }

    /** The nested lock, trylock, unlock, unlock of `main`, lines 66-82: from free back to free. */
    method Nested(t: nat) returns (ret: int)
      requires View() == FREE
      modifies this
      ensures ret == 0 && View() == FREE
    {
      ret := Acquire(t, Lock);
      if ret == 0 {
        ret := Acquire(t, TryLock);
        if ret == 0 {
          var inner := Release(t);
        }
        var outer := Release(t);
      }
    }
  }
}
