/**
  The counter of thread/rw-lock/main.c: writers increment it under a reader/writer lock, readers take
  and release the lock and then test the counter without it.

  `counter++` is a load and a store, so that the lock has something to protect. The program starts
  two writers and its readers test for maxTestNumber * 2; here there are any number k of writers and the
  readers test for k * max. Memory is sequentially consistent.
 */
module ReadWriteLock {
  import opened Folds
  import opened Options

  /** Writer: the statement executed next. */
  datatype WPc =
    | WLoop    // line 38
    | WLock    // line 40
    | WLoad    // line 41, read counter
    | WStore   // line 41, write counter
    | WUnlock  // line 42
    | WDone

  /** Reader: the statement executed next. */
  datatype RPc =
    | RLock    // line 20
    | RUnlock  // line 21
    | RTest    // line 23
    | RDone

  datatype Writer = Writer(pc: WPc, i: int, reg: int)

  datatype State = State(max: nat, counter: int, writing: Option<nat>, reading: set<nat>,
                         writers: seq<Writer>, readers: seq<RPc>)

  datatype Action = Write(id: nat) | Read(id: nat)

  function Init(max: nat, writers: nat, readers: nat): State {
    State(max, 0, None, {}, seq(writers, i => Writer(WLoop, 0, 0)), seq(readers, i => RLock))
  }

  /** What a reader waits for. */
  function Target(s: State): int {
    s.max * |s.writers|
  }

  predicate Enabled(s: State, a: Action) {
    match a
    case Write(w) =>
      && w < |s.writers| && s.writers[w].pc != WDone
      && (s.writers[w].pc == WLock ==> s.writing == None && s.reading == {})
    case Read(r) =>
      && r < |s.readers| && s.readers[r] != RDone
      && (s.readers[r] == RLock ==> s.writing == None)
  }

  function Apply(s: State, a: Action): State
    requires Enabled(s, a)
  {
    match a
    case Write(k) =>
      var w := s.writers[k];
      (match w.pc
       case WLoop => s.(writers := s.writers[k := w.(pc := if w.i < s.max then WLock else WDone)])
       case WLock => s.(writing := Some(k), writers := s.writers[k := w.(pc := WLoad)])
       case WLoad => s.(writers := s.writers[k := w.(pc := WStore, reg := s.counter)])
       case WStore => s.(counter := w.reg + 1, writers := s.writers[k := w.(pc := WUnlock)])
       case WUnlock => s.(writing := None, writers := s.writers[k := w.(pc := WLoop, i := w.i + 1)]))
    case Read(r) =>
      match s.readers[r]
      case RLock => s.(reading := s.reading + {r}, readers := s.readers[r := RUnlock])
      case RUnlock => s.(reading := s.reading - {r}, readers := s.readers[r := RTest])
      case RTest => s.(readers := s.readers[r := if s.counter == Target(s) then RDone else RLock])
  }

  predicate ValidRun(s: State, run: seq<Action>)
    decreases |run|
  {
    run != [] ==> Enabled(s, run[0]) && ValidRun(Apply(s, run[0]), run[1..])
  }

  function Exec(s: State, run: seq<Action>): State
    requires ValidRun(s, run)
    decreases |run|
  {
    if run == [] then s else Exec(Apply(s, run[0]), run[1..])
  }

  // ---- the invariant ----

  predicate HasLock(pc: WPc) {
    pc == WLoad || pc == WStore || pc == WUnlock
  }

  /** The stores this writer has made. */
  function Stores(w: Writer): int {
    w.i + if w.pc == WUnlock then 1 else 0
  }

  ghost predicate WriterOk(s: State, k: nat)
    requires k < |s.writers|
  {
    var w := s.writers[k];
    && (HasLock(w.pc) <==> s.writing == Some(k))
    && 0 <= w.i <= s.max
    && (HasLock(w.pc) || w.pc == WLock ==> w.i < s.max)
    && (w.pc == WDone ==> w.i == s.max)
    && (w.pc == WStore ==> w.reg == s.counter)
  }

  ghost predicate Inv(s: State) {
    && (s.writing.Some? ==> s.writing.value < |s.writers| && s.reading == {})
    && (forall k :: 0 <= k < |s.writers| ==> WriterOk(s, k))
    && (forall r :: 0 <= r < |s.readers| ==> (s.readers[r] == RUnlock <==> r in s.reading))
    && (forall r: nat :: r in s.reading ==> r < |s.readers|)
    && s.counter == Sum(s.writers, Stores)
    && (forall r :: 0 <= r < |s.readers| && s.readers[r] == RDone ==> s.counter == Target(s))
  }

  lemma InitInv(max: nat, writers: nat, readers: nat)
    ensures Inv(Init(max, writers, readers))
  {
    SumConstant(Init(max, writers, readers).writers, Stores, 0);
  }

  /** The counter never passes what the readers wait for. */
  lemma CounterBound(s: State)
    requires Inv(s)
    ensures 0 <= s.counter <= Target(s)
  {
    forall k | 0 <= k < |s.writers|
      ensures 0 <= Stores(s.writers[k]) <= s.max
    {
      assert WriterOk(s, k);
    }
    SumNonNegative(s.writers, Stores);
    SumAtMost(s.writers, Stores, s.max);
  }

  /** One writer step moves the sum by that writer's own stores. */
  lemma WriterMoves(s: State, k: nat)
    requires Inv(s) && Enabled(s, Write(k))
    ensures var s' := Apply(s, Write(k));
            && |s'.writers| == |s.writers|
            && s'.writers == s.writers[k := s'.writers[k]]
            && s'.counter == Sum(s'.writers, Stores)
            && s.counter <= s'.counter
  {
    var s' := Apply(s, Write(k));
    assert WriterOk(s, k);
    SumUpdate(s.writers, Stores, k, s'.writers[k]);
  }

  /** A step that leaves the counter alone, or moves it towards the target, keeps finished readers right. */
  lemma InvKept(s: State, a: Action)
    requires Inv(s) && Enabled(s, a)
    ensures Inv(Apply(s, a))
    ensures s.counter <= Apply(s, a).counter
    ensures Apply(s, a).max == s.max && |Apply(s, a).writers| == |s.writers| && |Apply(s, a).readers| == |s.readers|
  {
    var s' := Apply(s, a);
    forall k | 0 <= k < |s.writers|
      ensures WriterOk(s', k)
      ensures 0 <= Stores(s'.writers[k]) <= s.max
    {
      assert WriterOk(s, k);
      assert a.Write? ==> WriterOk(s, a.id);
    }
    if a.Write? {
      WriterMoves(s, a.id);
      SumAtMost(s'.writers, Stores, s.max);
    }
  }

  lemma {:induction false} InvAlways(s: State, run: seq<Action>)
    requires Inv(s) && ValidRun(s, run)
    ensures var s' := Exec(s, run);
            && Inv(s') && s.counter <= s'.counter
            && s'.max == s.max && |s'.writers| == |s.writers| && |s'.readers| == |s.readers|
    decreases |run|
  {
    if run != [] {
      InvKept(s, run[0]);
      InvAlways(Apply(s, run[0]), run[1..]);
    }
  }

  // ---- what every run guarantees ----

  /** No increment is lost: the counter is the number of stores, and it never goes down. */
  lemma NoIncrementLost(max: nat, writers: nat, readers: nat, run: seq<Action>, more: seq<Action>)
    requires ValidRun(Init(max, writers, readers), run)
    requires ValidRun(Exec(Init(max, writers, readers), run), more)
    ensures var s := Exec(Init(max, writers, readers), run);
            && s.counter == Sum(s.writers, Stores)
            && 0 <= s.counter <= max * writers
            && s.counter <= Exec(s, more).counter
            && (WritersDone(s) ==> s.counter == max * writers)
  {
    InitInv(max, writers, readers);
    InvAlways(Init(max, writers, readers), run);
    var s := Exec(Init(max, writers, readers), run);
    CounterBound(s);
    InvAlways(s, more);
    if WritersDone(s) {
      DoneWritersHaveCounted(s);
    }
  }

  /** A reader that returned through its unlocked test has outlasted every writer's last increment. */
  lemma ReaderReturnsLast(max: nat, writers: nat, readers: nat, run: seq<Action>, r: nat)
    requires ValidRun(Init(max, writers, readers), run)
    requires var s := Exec(Init(max, writers, readers), run); r < |s.readers| && s.readers[r] == RDone
    ensures var s := Exec(Init(max, writers, readers), run);
            && s.counter == max * writers
            && forall k :: 0 <= k < |s.writers| ==> Stores(s.writers[k]) == max
  {
    InitInv(max, writers, readers);
    InvAlways(Init(max, writers, readers), run);
    var s := Exec(Init(max, writers, readers), run);
    forall k | 0 <= k < |s.writers|
      ensures 0 <= Stores(s.writers[k]) <= max
    {
      assert WriterOk(s, k);
    }
    forall k | 0 <= k < |s.writers|
      ensures Stores(s.writers[k]) == max
    {
      SumFull(s.writers, Stores, max, k);
    }
  }

  // ---- the lock is shared by readers and by nobody else ----

  /** A writer is between its lock and its unlock. */
  ghost predicate SomeWriterIn(s: State) {
    exists k :: 0 <= k < |s.writers| && HasLock(s.writers[k].pc)
  }

  ghost predicate SomeReaderIn(s: State) {
    exists r :: 0 <= r < |s.readers| && s.readers[r] == RUnlock
  }

  lemma WritingIff(s: State)
    requires Inv(s)
    ensures s.writing.Some? <==> SomeWriterIn(s)
    ensures forall j, k :: 0 <= j < k < |s.writers| ==> !(HasLock(s.writers[j].pc) && HasLock(s.writers[k].pc))
  {
    forall k | 0 <= k < |s.writers|
      ensures HasLock(s.writers[k].pc) <==> s.writing == Some(k)
    {
      assert WriterOk(s, k);
    }
  }

  lemma ReadingIff(s: State)
    requires Inv(s)
    ensures s.reading != {} <==> SomeReaderIn(s)
  {
    if s.reading != {} {
      var r: nat :| r in s.reading;
      assert s.readers[r] == RUnlock;
    }
  }

  /**
    Who is kept waiting, in every reachable state: a reader only at its lock call and exactly by a writer inside, a
    writer only there and exactly by a writer or a reader inside; a writer inside is alone.
   */
  lemma BlockedIff(max: nat, writers: nat, readers: nat, run: seq<Action>)
    requires ValidRun(Init(max, writers, readers), run)
    ensures var s := Exec(Init(max, writers, readers), run);
            && (forall r :: 0 <= r < |s.readers| ==>
                  (Enabled(s, Action.Read(r)) <==>
                    s.readers[r] != RDone && !(s.readers[r] == RLock && SomeWriterIn(s))))
            && (forall k :: 0 <= k < |s.writers| ==>
                  (Enabled(s, Action.Write(k)) <==>
                    s.writers[k].pc != WDone && !(s.writers[k].pc == WLock && (SomeWriterIn(s) || SomeReaderIn(s)))))
            && !(SomeWriterIn(s) && SomeReaderIn(s))
            && (forall j, k :: 0 <= j < k < |s.writers| ==> !(HasLock(s.writers[j].pc) && HasLock(s.writers[k].pc)))
  {
    InitInv(max, writers, readers);
    InvAlways(Init(max, writers, readers), run);
    WritingIff(Exec(Init(max, writers, readers), run));
    ReadingIff(Exec(Init(max, writers, readers), run));
  }

  /** Readers do share: all of them can be inside together. */
  lemma {:induction false} ReadersShare(max: nat, writers: nat, readers: nat, k: nat) returns (run: seq<Action>)
    requires k <= readers
    ensures ValidRun(Init(max, writers, readers), run)
    ensures var s := Exec(Init(max, writers, readers), run);
            && s.writing == None && |s.readers| == readers
            && forall r :: 0 <= r < readers ==> s.readers[r] == if r < k then RUnlock else RLock
  {
    if k == 0 {
      run := [];
    } else {
      run := ReadersShare(max, writers, readers, k - 1);
      RunThen(Init(max, writers, readers), run, Action.Read(k - 1));
      run := run + [Action.Read(k - 1)];
    }
  }

  lemma {:induction false} RunThen(s: State, run: seq<Action>, a: Action)
    requires ValidRun(s, run) && Enabled(Exec(s, run), a)
    ensures ValidRun(s, run + [a]) && Exec(s, run + [a]) == Apply(Exec(s, run), a)
    decreases |run|
  {
    if run == [] {
      var rest: seq<Action> := [a][1..];
      assert Exec(Apply(s, a), rest) == Apply(s, a);
      assert run + [a] == [a];
    } else {
      RunThen(Apply(s, run[0]), run[1..], a);
      assert (run + [a])[1..] == run[1..] + [a];
    }
  }

  /** No deadlock: as long as a thread is unfinished, some thread can move. */
  lemma NoDeadlock(s: State)
    requires Inv(s)
    ensures (forall a: Action :: !Enabled(s, a)) <==>
            (forall k :: 0 <= k < |s.writers| ==> s.writers[k].pc == WDone)
            && (forall r :: 0 <= r < |s.readers| ==> s.readers[r] == RDone)
  {
    if forall a: Action :: !Enabled(s, a) {
      if s.writing.Some? {
        assert WriterOk(s, s.writing.value);
        assert Enabled(s, Write(s.writing.value));
        assert false;
      }
      forall r | 0 <= r < |s.readers|
        ensures s.readers[r] == RDone
      {
        assert !Enabled(s, Read(r));
      }
      assert s.reading == {};
      forall k | 0 <= k < |s.writers|
        ensures s.writers[k].pc == WDone
      {
        assert !Enabled(s, Write(k));
      }
    }
  }

  // ---- how long it can take ----

  function WriterCost(max: nat, w: Writer): int {
    6 * (max - w.i) +
    match w.pc
    case WLoop => 1
    case WLock => 0
    case WLoad => -1
    case WStore => -2
    case WUnlock => -3
    case WDone => 0
  }

  function CostOf(max: nat): Writer -> int {
    w => WriterCost(max, w)
  }

  function ReaderCost(pc: RPc): int {
    match pc
    case RLock => 3
    case RUnlock => 2
    case RTest => 1
    case RDone => 0
  }

  function WriteCount(run: seq<Action>): nat {
    if run == [] then 0 else (if run[0].Write? then 1 else 0) + WriteCount(run[1..])
  }

  lemma WriterPays(s: State, a: Action)
    requires Inv(s) && Enabled(s, a)
    ensures Sum(Apply(s, a).writers, CostOf(s.max)) <= Sum(s.writers, CostOf(s.max)) - if a.Write? then 1 else 0
  {
    if a.Write? {
      assert WriterOk(s, a.id);
      SumUpdate(s.writers, CostOf(s.max), a.id, Apply(s, a).writers[a.id]);
    }
  }

  /** Readers spin, but whatever they do the writers need a bounded number of actions in all. */
  lemma {:induction false} WritersAreBounded(s: State, run: seq<Action>)
    requires Inv(s) && ValidRun(s, run)
    ensures WriteCount(run) + Sum(Exec(s, run).writers, CostOf(s.max)) <= Sum(s.writers, CostOf(s.max))
    ensures WriteCount(run) <= Sum(s.writers, CostOf(s.max))
    decreases |run|
  {
    if run == [] {
      forall k | 0 <= k < |s.writers|
        ensures 0 <= CostOf(s.max)(s.writers[k])
      {
        assert WriterOk(s, k);
      }
      SumNonNegative(s.writers, CostOf(s.max));
    } else {
      WriterPays(s, run[0]);
      InvKept(s, run[0]);
      WritersAreBounded(Apply(s, run[0]), run[1..]);
      InvAlways(s, run);
      WritersAreBounded(Exec(s, run), []);
    }
  }

  ghost predicate WritersDone(s: State) {
    forall k :: 0 <= k < |s.writers| ==> s.writers[k].pc == WDone
  }

  lemma DoneWritersHaveCounted(s: State)
    requires Inv(s) && WritersDone(s)
    ensures s.counter == Target(s)
  {
    forall k | 0 <= k < |s.writers|
      ensures Stores(s.writers[k]) == s.max
    {
      assert WriterOk(s, k);
    }
    SumConstant(s.writers, Stores, s.max);
  }

  function ReadsOf(run: seq<Action>, r: nat): nat {
    if run == [] then 0 else (if run[0] == Action.Read(r) then 1 else 0) + ReadsOf(run[1..], r)
  }

  lemma ReaderPays(s: State, a: Action, r: nat)
    requires Inv(s) && WritersDone(s) && Enabled(s, a) && r < |s.readers|
    ensures var s' := Apply(s, a);
            && WritersDone(s') && |s'.readers| == |s.readers|
            && ReaderCost(s'.readers[r]) == ReaderCost(s.readers[r]) - if a == Action.Read(r) then 1 else 0
  {
    DoneWritersHaveCounted(s);
  }

  /** Once the writers are done, every reader takes at most three more actions, and has returned after the last. */
  lemma {:induction false} ReadersThenReturn(s: State, run: seq<Action>, r: nat)
    requires Inv(s) && WritersDone(s) && ValidRun(s, run) && r < |s.readers|
    ensures var s' := Exec(s, run);
            && |s'.readers| == |s.readers|
            && ReadsOf(run, r) + ReaderCost(s'.readers[r]) == ReaderCost(s.readers[r]) <= 3
            && (ReadsOf(run, r) == ReaderCost(s.readers[r]) <==> s'.readers[r] == RDone)
    decreases |run|
  {
    if run != [] {
      ReaderPays(s, run[0], r);
      InvKept(s, run[0]);
      ReadersThenReturn(Apply(s, run[0]), run[1..], r);
    }
  }

  /** Where a reader is after a number of actions: whole rounds of lock, unlock and test, the last one successful. */
  ghost predicate InRound(s: State, r: nat, actions: nat)
    requires r < |s.readers|
  {
    && (s.readers[r] != RDone ==> s.readers[r] == [RLock, RUnlock, RTest][actions % 3])
    && (s.readers[r] == RDone ==> 0 < actions && actions % 3 == 0)
    && (r in s.reading <==> s.readers[r] != RDone && actions % 3 == 1)
  }

  lemma RoundStep(s: State, a: Action, r: nat, done: nat)
    requires Inv(s) && Enabled(s, a) && r < |s.readers| && InRound(s, r, done)
    ensures |Apply(s, a).readers| == |s.readers|
    ensures InRound(Apply(s, a), r, if a == Action.Read(r) then done + 1 else done)
  {
  }

  lemma {:induction false} RoundsGoOn(s: State, run: seq<Action>, r: nat, done: nat)
    requires Inv(s) && ValidRun(s, run) && r < |s.readers| && InRound(s, r, done)
    ensures |Exec(s, run).readers| == |s.readers| && InRound(Exec(s, run), r, done + ReadsOf(run, r))
    decreases |run|
  {
    if run != [] {
      InvKept(s, run[0]);
      RoundStep(s, run[0], r, done);
      RoundsGoOn(Apply(s, run[0]), run[1..], r, if run[0] == Action.Read(r) then done + 1 else done);
    }
  }

  /** No test without a lock before it: in every run each reader goes through whole rounds of lock, unlock, test. */
  lemma ReaderRounds(max: nat, writers: nat, readers: nat, run: seq<Action>, r: nat)
    requires ValidRun(Init(max, writers, readers), run) && r < readers
    ensures var s, actions := Exec(Init(max, writers, readers), run), ReadsOf(run, r);
            && |s.readers| == readers
            && (r in s.reading <==> s.readers[r] != RDone && actions % 3 == 1)
            && (s.readers[r] == RTest <==> s.readers[r] != RDone && actions % 3 == 2)
            && (s.readers[r] == RDone ==> 0 < actions && actions % 3 == 0)
  {
    InitInv(max, writers, readers);
    RoundsGoOn(Init(max, writers, readers), run, r, 0);
  }

  // ---- the shared variables themselves ----

  class SharedCounter {
    const max: nat
    var counter: int
    var writing: Option<nat>
    var reading: set<nat>
    var writers: seq<Writer>
    var readers: seq<RPc>

    function View(): State
      reads this
    {
      State(max, counter, writing, reading, writers, readers)
    }

    constructor (max: nat, writers: nat, readers: nat)
      ensures View() == Init(max, writers, readers)
    {
      this.max, counter, writing, reading := max, 0, None, {};
      this.writers, this.readers := seq(writers, i => Writer(WLoop, 0, 0)), seq(readers, i => RLock);
    }

    method Write(k: nat)
      requires Enabled(View(), Action.Write(k))
      modifies this
      ensures View() == Apply(old(View()), Action.Write(k))
    {
      var w := writers[k];
      match w.pc {
        case WLoop => w := w.(pc := if w.i < max then WLock else WDone);
        case WLock => writing, w := Some(k), w.(pc := WLoad);
        case WLoad => w := w.(pc := WStore, reg := counter);
        case WStore => counter, w := w.reg + 1, w.(pc := WUnlock);
        case WUnlock => writing, w := None, w.(pc := WLoop, i := w.i + 1);
      }
      writers := writers[k := w];
    }

    method Read(r: nat)
      requires Enabled(View(), Action.Read(r))
      modifies this
      ensures View() == Apply(old(View()), Action.Read(r))
    {
      match readers[r] {
        case RLock => reading, readers := reading + {r}, readers[r := RUnlock];
        case RUnlock => reading, readers := reading - {r}, readers[r := RTest];
        case RTest => readers := readers[r := if counter == max * |writers| then RDone else RLock];
      }
    }

    /** Any schedule, run in place, loses no increment. */
    method Run(schedule: seq<Action>)
      requires Inv(View()) && ValidRun(View(), schedule)
      modifies this
      ensures View() == Exec(old(View()), schedule) && Inv(View())
      ensures old(counter) <= counter == Sum(writers, Stores)
    {
      ghost var s0 := View();
      for j := 0 to |schedule|
        invariant Inv(View()) && ValidRun(View(), schedule[j..]) && s0.counter <= counter
        invariant Exec(View(), schedule[j..]) == Exec(s0, schedule)
      {
        assert schedule[j..][0] == schedule[j] && schedule[j..][1..] == schedule[j + 1..];
        InvKept(View(), schedule[j]);
        match schedule[j] {
          case Write(k) => Write(k);
          case Read(r) => Read(r);
        }
      }
    }
  }
}
