/**
  The producer and the consumer of thread/cond/main.c. The signal comes after the unlock, the exit
  flag is set without the mutex and without a signal, and the consumer's exit test is unlocked.

  Memory is sequentially consistent and each access is one step; `counter++` and `counter--` are a
  load and a store. The consumer may wake from `pthread_cond_wait` for no reason.
 */
module ProducerConsumer {
  import opened Options

  datatype Who = Producer | Consumer

  /** Producer: the statement executed next. */
  datatype PPc =
    | PLoop     // line 59
    | PLock     // line 61
    | PLoad     // line 63, read counter
    | PStore    // line 63, write counter
    | PUnlock   // line 64
    | PSignal   // line 66
    | PNext     // line 73 and i++
    | PSetExit  // line 77
    | PDone
    | PFailed   // line 70, after a failed signal

  /** Consumer: the statement executed next. */
  datatype CPc =
    | CLock       // line 21
    | CTest       // line 22
    | CFlag       // line 24
    | CWait       // line 27, about to release the mutex and sleep
    | Asleep      // inside pthread_cond_wait
    | Woken       // inside pthread_cond_wait, taking the mutex again
    | CDrain      // line 36
    | CLoad       // line 38, read counter
    | CStore      // line 38, write counter
    | CUnlock     // line 42
    | CExitFlag   // line 44, read producerExit
    | CExitCount  // line 44, read counter
    | CDone

  /** `produced` and `consumed` count the stores of line 63 and of line 38. */
  datatype State = State(
    max: int, counter: int, producerExit: bool, owner: Option<Who>,
    prod: PPc, i: int, prodReg: int,
    cons: CPc, consReg: int,
    produced: int, consumed: int)

  datatype Action = Produce(signalOk: bool) | Consume | Spurious

  function Init(max: int): State {
    State(max, 0, false, None, PLoop, 0, 0, CLock, 0, 0, 0)
  }

  /** The number of loop turns of the producer. */
  function Goal(max: int): int {
    if max < 0 then 0 else max
  }

  predicate Enabled(s: State, a: Action) {
    match a
    case Produce(_) => s.prod != PDone && s.prod != PFailed && (s.prod == PLock ==> s.owner == None)
    case Consume => s.cons != Asleep && s.cons != CDone && (s.cons == CLock || s.cons == Woken ==> s.owner == None)
    case Spurious => s.cons == Asleep
  }

  function ProducerStep(s: State, signalOk: bool): State {
    match s.prod
    case PLoop => s.(prod := if s.i < s.max then PLock else PSetExit)
    case PLock => s.(prod := PLoad, owner := Some(Producer))
    case PLoad => s.(prod := PStore, prodReg := s.counter)
    case PStore => s.(prod := PUnlock, counter := s.prodReg + 1, produced := s.produced + 1)
    case PUnlock => s.(prod := PSignal, owner := None)
    case PSignal =>
      if signalOk
      then s.(prod := PNext, cons := if s.cons == Asleep then Woken else s.cons)
      else s.(prod := PFailed)
    case PNext => s.(prod := PLoop, i := s.i + 1)
    case PSetExit => s.(prod := PDone, producerExit := true)
    case _ => s
  }

  function ConsumerStep(s: State): State {
    match s.cons
    case CLock => s.(cons := CTest, owner := Some(Consumer))
    case Woken => s.(cons := CTest, owner := Some(Consumer))
    case CTest => s.(cons := if s.counter == 0 then CFlag else CDrain)
    case CFlag => s.(cons := if s.producerExit then CDrain else CWait)
    case CWait => s.(cons := Asleep, owner := None)
    case CDrain => s.(cons := if s.counter > 0 then CLoad else CUnlock)
    case CLoad => s.(cons := CStore, consReg := s.counter)
    case CStore => s.(cons := CDrain, counter := s.consReg - 1, consumed := s.consumed + 1)
    case CUnlock => s.(cons := CExitFlag, owner := None)
    case CExitFlag => s.(cons := if s.producerExit then CExitCount else CLock)
    case CExitCount => s.(cons := if s.counter == 0 then CDone else CLock)
    case _ => s
  }

  function Apply(s: State, a: Action): State
    requires Enabled(s, a)
  {
    match a
    case Produce(signalOk) => ProducerStep(s, signalOk)
    case Consume => ConsumerStep(s)
    case Spurious => s.(cons := Woken)
  }

  predicate ValidRun(s: State, run: seq<Action>)
    decreases |run|
  {
    run != [] ==> Enabled(s, run[0]) && ValidRun(Apply(s, run[0]), run[1..])
  }

  function Exec(s: State, run: seq<Action>): State
    requires ValidRun(s, run)
    decreases |run|
  {
    if run == [] then s else Exec(Apply(s, run[0]), run[1..])
  }

  // ---- safety ----

  predicate ProducerLocked(pc: PPc) {
    pc == PLoad || pc == PStore || pc == PUnlock
  }

  predicate ConsumerLocked(pc: CPc) {
    pc == CTest || pc == CFlag || pc == CWait || pc == CDrain || pc == CLoad || pc == CStore || pc == CUnlock
  }

  /** The item of turn i has been added. */
  predicate Added(pc: PPc) {
    pc == PUnlock || pc == PSignal || pc == PNext || pc == PFailed
  }

  ghost predicate Inv(s: State) {
    && (s.owner == Some(Producer) <==> ProducerLocked(s.prod))
    && (s.owner == Some(Consumer) <==> ConsumerLocked(s.cons))
    && (s.owner == None <==> !ProducerLocked(s.prod) && !ConsumerLocked(s.cons))
    && s.produced == s.consumed + s.counter && 0 <= s.counter && 0 <= s.consumed
    && s.produced == s.i + (if Added(s.prod) then 1 else 0)
    && 0 <= s.i <= Goal(s.max)
    && (s.prod == PSetExit || s.prod == PDone ==> s.i == Goal(s.max))
    && (s.prod != PLoop && s.prod != PSetExit && s.prod != PDone ==> s.i < s.max)
    && (s.producerExit <==> s.prod == PDone)
    && (s.prod == PStore ==> s.prodReg == s.counter)
    && (s.cons == CStore ==> s.consReg == s.counter)
    && (s.cons == CLoad || s.cons == CStore ==> 0 < s.counter)
    && (s.cons == CFlag || s.cons == CWait || s.cons == CUnlock ==> s.counter == 0)
    && (s.cons == CExitCount ==> s.producerExit)
    && (s.cons == CDone ==> s.producerExit && s.counter == 0)
    // nothing stays in the queue behind a sleeping consumer's back
    && (s.cons == Asleep && 0 < s.counter ==> s.prod == PUnlock || s.prod == PSignal || s.prod == PFailed)
  }

  lemma ProducerKeeps(s: State, signalOk: bool)
    requires Inv(s) && Enabled(s, Produce(signalOk))
    ensures Inv(ProducerStep(s, signalOk))
  {
  }

  lemma ConsumerKeepsLocked(s: State)
    requires Inv(s) && ConsumerLocked(s.cons)
    ensures Inv(ConsumerStep(s))
  {
  }

  lemma ConsumerKeepsUnlocked(s: State)
    requires Inv(s) && Enabled(s, Consume) && !ConsumerLocked(s.cons)
    ensures Inv(ConsumerStep(s))
  {
  }

  lemma InvKept(s: State, a: Action)
    requires Inv(s) && Enabled(s, a)
    ensures Inv(Apply(s, a)) && Apply(s, a).max == s.max
  {
    match a {
      case Produce(signalOk) => ProducerKeeps(s, signalOk);
      case Consume =>
        if ConsumerLocked(s.cons) {
          ConsumerKeepsLocked(s);
        } else {
          ConsumerKeepsUnlocked(s);
        }
      case Spurious =>
    }
  }

  lemma {:induction false} InvAlways(s: State, run: seq<Action>)
    requires Inv(s) && ValidRun(s, run)
    ensures Inv(Exec(s, run))
    ensures Exec(s, run).max == s.max
    decreases |run|
  {
    if run != [] {
      InvKept(s, run[0]);
      InvAlways(Apply(s, run[0]), run[1..]);
    }
  }

  /** No item is lost or invented, and a consumer that returns has seen every item of a finished producer. */
  lemma NothingLost(max: int, run: seq<Action>)
    requires ValidRun(Init(max), run)
    ensures var s := Exec(Init(max), run);
            && s.produced == s.consumed + s.counter && 0 <= s.counter && s.produced <= Goal(max)
            && (s.cons == CDone ==>
                  s.prod == PDone && s.produced == s.consumed == Goal(max) && s.counter == 0 && Stuck(s))
            && !(ProducerLocked(s.prod) && ConsumerLocked(s.cons))
  {
    InvAlways(Init(max), run);
  }

  /** As long as signals succeed, a consumer asleep over an item is about to be signalled. */
  lemma NoStrandedItem(max: int, run: seq<Action>)
    requires ValidRun(Init(max), run)
    ensures var s := Exec(Init(max), run);
            && (s.cons == Asleep && 0 < s.counter && s.prod != PFailed ==> s.prod == PUnlock || s.prod == PSignal)
            && (s.cons == Asleep && s.prod == PDone ==> s.counter == 0 && s.consumed == Goal(max))
  {
    InvAlways(Init(max), run);
  }

  /** In every reachable state a thread that is awake and has work left is blocked only by the other one inside. */
  lemma BlockedIff(max: int, run: seq<Action>)
    requires ValidRun(Init(max), run)
    ensures var s := Exec(Init(max), run);
            && (Enabled(s, Produce(true)) <==>
                  s.prod != PDone && s.prod != PFailed && !(s.prod == PLock && ConsumerLocked(s.cons)))
            && (Enabled(s, Consume) <==>
                  && s.cons != CDone && s.cons != Asleep
                  && !((s.cons == CLock || s.cons == Woken) && ProducerLocked(s.prod)))
  {
    InvAlways(Init(max), run);
  }

  // ---- every run is bounded ----

  function ProducerCost(s: State): int {
    8 * (Goal(s.max) - s.i) +
    match s.prod
    case PLoop => 2
    case PLock => 1
    case PLoad => 0
    case PStore => -1
    case PUnlock => -2
    case PSignal => -3
    case PNext => -4
    case PSetExit => 1
    case PDone => 0
    case PFailed => -4
  }

  function ConsumerCost(s: State): int {
    if s.producerExit && s.counter == 0 then
      match s.cons
      case CLock => 8
      case Woken => 8
      case CTest => 7
      case CFlag => 6
      case CWait => 5
      case CDrain => 4
      case CUnlock => 3
      case CExitFlag => 2
      case CExitCount => 1
      case _ => 0
    else
      match s.cons
      case CDrain => if 0 < s.counter then 4 else 13
      case CUnlock => 12
      case CExitFlag => 11
      case CExitCount => 10
      case CLock => 9
      case Woken => 9
      case CTest => 8
      case CFlag => 7
      case CWait => 6
      case Asleep => 5
      case CLoad => 3
      case CStore => 2
      case CDone => 0
  }

  /** A production pays for one wake-up and one more turn of the consumer. */
  function Measure(s: State): int {
    30 * ProducerCost(s) + 12 * s.counter + ConsumerCost(s)
  }

  lemma MeasureDrops(s: State, a: Action)
    requires Inv(s) && Enabled(s, a)
    ensures Measure(Apply(s, a)) <= Measure(s) + if a.Spurious? then 8 else -1
  {
  }

  lemma MeasureNonNegative(s: State)
    requires Inv(s)
    ensures 0 <= Measure(s)
  {
  }

  function SpuriousCount(run: seq<Action>): nat {
    if run == [] then 0 else (if run[0].Spurious? then 1 else 0) + SpuriousCount(run[1..])
  }

  lemma {:induction false} RunIsBounded(s: State, run: seq<Action>)
    requires Inv(s) && ValidRun(s, run)
    ensures |run| <= Measure(s) + 9 * SpuriousCount(run)
    decreases |run|
  {
    if run == [] {
      MeasureNonNegative(s);
    } else {
      MeasureDrops(s, run[0]);
      InvKept(s, run[0]);
      RunIsBounded(Apply(s, run[0]), run[1..]);
    }
  }

  // ---- where a run can stop, and exactly when it hangs ----

  ghost predicate Stuck(s: State) {
    forall a: Action :: Enabled(s, a) ==> a.Spurious?
  }

  /** The producer will send no further signal. */
  predicate LastSignalSent(s: State) {
    || s.prod == PSetExit || s.prod == PDone
    || (s.prod == PNext && s.max <= s.i + 1)
    || (s.prod == PLoop && s.max <= s.i)
  }

  /** The consumer has decided to sleep and no signal will come. */
  predicate Doomed(s: State) {
    (s.cons == CWait || s.cons == Asleep) && LastSignalSent(s)
  }

  /**
    The one action that loses the consumer: it reads the exit flag of line 24 as false after the last
    signal, or the last signal is sent while it is on its way from that test to sleep.
   */
  predicate Misses(s: State, a: Action)
    requires Enabled(s, a)
  {
    || (a == Consume && s.cons == CFlag && !s.producerExit && LastSignalSent(s))
    || (a.Produce? && s.prod == PSignal && s.max <= s.i + 1 && s.cons == CWait)
  }

  ghost predicate MissesSomewhere(s: State, run: seq<Action>)
    requires ValidRun(s, run)
    decreases |run|
  {
    run != [] && (Misses(s, run[0]) || MissesSomewhere(Apply(s, run[0]), run[1..]))
  }

  /** The signal succeeds and nobody wakes up for no reason. */
  predicate IsPlain(a: Action) {
    a == Consume || a == Produce(true)
  }

  predicate Plain(run: seq<Action>) {
    forall k :: 0 <= k < |run| ==> IsPlain(run[k])
  }

  lemma PlainTail(run: seq<Action>)
    requires Plain(run) && run != []
    ensures IsPlain(run[0]) && Plain(run[1..])
  {
    assert forall k :: 0 <= k < |run[1..]| ==> run[1..][k] == run[k + 1];
  }

  lemma DoomedIffMissed(s: State, a: Action)
    requires Inv(s) && Enabled(s, a) && IsPlain(a)
    ensures Doomed(Apply(s, a)) <==> Doomed(s) || Misses(s, a)
    ensures s.prod != PFailed ==> Apply(s, a).prod != PFailed
  {
  }

  lemma {:induction false} DoomedAfterIffMissed(s: State, run: seq<Action>)
    requires Inv(s) && ValidRun(s, run) && Plain(run)
    ensures Doomed(Exec(s, run)) <==> Doomed(s) || MissesSomewhere(s, run)
    ensures s.prod != PFailed ==> Exec(s, run).prod != PFailed
    decreases |run|
  {
    if run != [] {
      PlainTail(run);
      DoomedIffMissed(s, run[0]);
      InvKept(s, run[0]);
      DoomedAfterIffMissed(Apply(s, run[0]), run[1..]);
    }
  }

  lemma StuckIff(s: State)
    requires Inv(s)
    ensures Stuck(s) <==> (s.prod == PDone || s.prod == PFailed) && (s.cons == Asleep || s.cons == CDone)
  {
    if Stuck(s) {
      assert !Enabled(s, Produce(true)) && !Enabled(s, Consume);
    }
  }

  /**
    Without failed signals and spurious wake-ups every run is bounded and ends with all items consumed.
    The consumer then hangs, instead of returning, exactly when some action of the run missed.
   */
  lemma HangsIffMissed(max: int, run: seq<Action>)
    requires ValidRun(Init(max), run) && Plain(run)
    ensures |run| <= 240 * Goal(max) + 69
    ensures var s := Exec(Init(max), run);
            Stuck(s) ==>
              && s.prod == PDone && s.consumed == Goal(max) && s.counter == 0
              && (s.cons == CDone || s.cons == Asleep)
              && (s.cons == Asleep <==> MissesSomewhere(Init(max), run))
  {
    var s0 := Init(max);
    InvAlways(s0, run);
    StuckIff(Exec(s0, run));
    DoomedAfterIffMissed(s0, run);
    NoSpurious(run);
    RunIsBounded(s0, run);
  }

  lemma {:induction false} NoSpurious(run: seq<Action>)
    requires Plain(run)
    ensures SpuriousCount(run) == 0
  {
    if run != [] {
      PlainTail(run);
      NoSpurious(run[1..]);
    }
  }

  // ---- both outcomes happen, for every number of items ----

  ghost predicate CanReach(s: State, s': State) {
    exists run :: ValidRun(s, run) && Plain(run) && Exec(s, run) == s'
  }

  lemma {:induction false} RunThen(s: State, run: seq<Action>, a: Action)
    requires ValidRun(s, run) && Enabled(Exec(s, run), a)
    ensures ValidRun(s, run + [a]) && Exec(s, run + [a]) == Apply(Exec(s, run), a)
    decreases |run|
  {
    if run == [] {
      var rest: seq<Action> := [a][1..];
      assert Exec(Apply(s, a), rest) == Apply(s, a);
      assert run + [a] == [a];
    } else {
      RunThen(Apply(s, run[0]), run[1..], a);
      assert (run + [a])[1..] == run[1..] + [a];
    }
  }

  lemma Here(s: State)
    ensures CanReach(s, s)
  {
    assert ValidRun(s, []) && Plain([]) && Exec(s, []) == s;
  }

  lemma Go(s0: State, s: State, a: Action) returns (s': State)
    requires CanReach(s0, s) && Enabled(s, a) && IsPlain(a)
    ensures s' == Apply(s, a) && CanReach(s0, s')
  {
    var run :| ValidRun(s0, run) && Plain(run) && Exec(s0, run) == s;
    RunThen(s0, run, a);
    s' := Apply(s, a);
  }

  // ---- a doomed state is exactly one from which the consumer cannot return ----

  /** A schedule that brings the consumer to its end from any state that is not doomed. */
  function Rescue(s: State): Action {
    if s.cons != CWait && Enabled(s, Produce(true)) then Produce(true) else Consume
  }

  lemma RescueKeepsOut(s: State)
    requires Inv(s) && s.prod != PFailed && !Doomed(s) && s.cons != CDone
    ensures Enabled(s, Rescue(s))
    ensures var s' := Apply(s, Rescue(s)); s'.prod != PFailed && !Doomed(s')
  {
  }

  lemma {:induction false} FinishesUnlessDoomed(s0: State, s: State) returns (s': State)
    requires CanReach(s0, s) && Inv(s) && s.prod != PFailed && !Doomed(s)
    ensures CanReach(s0, s') && s'.cons == CDone
    decreases Measure(s)
  {
    MeasureNonNegative(s);
    if s.cons == CDone {
      s' := s;
    } else {
      RescueKeepsOut(s);
      MeasureDrops(s, Rescue(s));
      InvKept(s, Rescue(s));
      var next := Go(s0, s, Rescue(s));
      s' := FinishesUnlessDoomed(s0, next);
    }
  }

  /** From a state that is doomed no run lets the consumer return, and from any other state some run does. */
  lemma DoomedIffCannotFinish(s: State)
    requires Inv(s) && s.prod != PFailed
    ensures Doomed(s) <==> !exists s' :: CanReach(s, s') && s'.cons == CDone
  {
    if Doomed(s) {
      forall s' | CanReach(s, s')
        ensures s'.cons != CDone
      {
        var run :| ValidRun(s, run) && Plain(run) && Exec(s, run) == s';
        DoomedAfterIffMissed(s, run);
      }
    } else {
      Here(s);
      var s' := FinishesUnlessDoomed(s, s);
    }
  }

  /** After any run of the program the consumer can still return exactly if no action of the run missed. */
  lemma CanStillFinishIff(max: int, run: seq<Action>)
    requires ValidRun(Init(max), run) && Plain(run)
    ensures (exists s' :: CanReach(Exec(Init(max), run), s') && s'.cons == CDone) <==> !MissesSomewhere(Init(max), run)
  {
    InvAlways(Init(max), run);
    DoomedAfterIffMissed(Init(max), run);
    DoomedIffCannotFinish(Exec(Init(max), run));
  }

  /** A hanging consumer is one wake-up away from returning: if it wakes for no reason, it can. */
  lemma SpuriousRescues(max: int, run: seq<Action>)
    requires ValidRun(Init(max), run) && Plain(run)
    requires Exec(Init(max), run).cons == Asleep
    ensures ValidRun(Exec(Init(max), run), [Spurious])
    ensures exists s' :: CanReach(Apply(Exec(Init(max), run), Spurious), s') && s'.cons == CDone
  {
    var s := Exec(Init(max), run);
    InvAlways(Init(max), run);
    DoomedAfterIffMissed(Init(max), run);
    InvKept(s, Spurious);
    DoomedIffCannotFinish(Apply(s, Spurious));
  }

  lemma {:induction false} FailedStays(s: State, run: seq<Action>)
    requires Inv(s) && s.prod == PFailed && ValidRun(s, run)
    ensures var s' := Exec(s, run);
            Inv(s') && s'.prod == PFailed && !s'.producerExit && s'.cons != CDone && s'.produced == s.produced
    decreases |run|
  {
    if run != [] {
      InvKept(s, run[0]);
      FailedStays(Apply(s, run[0]), run[1..]);
    }
  }

  /** A signal that fails is final: the producer is gone, and in no run whatsoever does the consumer return. */
  lemma FailedSignalIsFinal(max: int, run: seq<Action>, more: seq<Action>)
    requires ValidRun(Init(max), run) && Exec(Init(max), run).prod == PSignal
    ensures Enabled(Exec(Init(max), run), Produce(false))
    ensures var s := Apply(Exec(Init(max), run), Produce(false));
            ValidRun(s, more) ==>
              && Exec(s, more).cons != CDone && Exec(s, more).produced == s.produced
              && !Enabled(Exec(s, more), Produce(true)) && !Exec(s, more).producerExit
  {
    var s := Exec(Init(max), run);
    InvAlways(Init(max), run);
    InvKept(s, Produce(false));
    if ValidRun(Apply(s, Produce(false)), more) {
      FailedStays(Apply(s, Produce(false)), more);
    }
  }

  /** The producer takes all its turns while the consumer has not started. */
  lemma {:induction false} ProduceAll(s0: State, s: State) returns (s': State)
    requires CanReach(s0, s) && Inv(s) && s.prod == PLoop && s.cons == CLock
    ensures CanReach(s0, s') && Inv(s') && s'.prod == PLoop && s'.cons == CLock
    ensures s'.max == s.max && s'.i == Goal(s.max)
    decreases Goal(s.max) - s.i
  {
    s' := s;
    if s.i < s.max {
      for k := 0 to 7
        invariant CanReach(s0, s') && Inv(s') && s'.cons == CLock && s'.max == s.max
        invariant s'.i == s.i + (if k == 7 then 1 else 0)
        invariant s'.prod == [PLoop, PLock, PLoad, PStore, PUnlock, PSignal, PNext, PLoop][k]
      {
        InvKept(s', Produce(true));
        s' := Go(s0, s', Produce(true));
      }
      s' := ProduceAll(s0, s');
    }
  }

  /** The consumer empties the queue. */
  lemma {:induction false} DrainAll(s0: State, s: State) returns (s': State)
    requires CanReach(s0, s) && Inv(s) && s.cons == CDrain
    ensures CanReach(s0, s') && Inv(s')
    ensures s' == s.(cons := CDrain, counter := 0, consReg := s'.consReg, consumed := s'.consumed)
    decreases s.counter
  {
    s' := s;
    if 0 < s.counter {
      for k := 0 to 3
        invariant CanReach(s0, s') && Inv(s') && s'.cons == [CDrain, CLoad, CStore, CDrain][k]
        invariant s' == s.(cons := s'.cons, counter := s'.counter, consReg := s'.consReg, consumed := s'.consumed)
        invariant s'.counter == s.counter - (if k == 3 then 1 else 0)
      {
        InvKept(s', Consume);
        s' := Go(s0, s', Consume);
      }
      s' := DrainAll(s0, s');
    }
  }

  /** The consumer takes the mutex and, if there is something, empties the queue. */
  lemma LockAndDrain(s0: State, s: State) returns (s': State)
    requires CanReach(s0, s) && Inv(s) && s.cons == CLock && s.owner == None
    ensures CanReach(s0, s') && Inv(s') && s'.counter == 0
    ensures s'.prod == s.prod && s'.max == s.max && s'.i == s.i && s'.producerExit == s.producerExit
    ensures s'.cons == if s.counter == 0 then CFlag else CDrain
  {
    InvKept(s, Consume);
    s' := Go(s0, s, Consume);
    InvKept(s', Consume);
    s' := Go(s0, s', Consume);
    if s'.cons == CDrain {
      s' := DrainAll(s0, s');
    }
  }

  /** The producer, past its last turn, sets the flag and returns. */
  lemma ProducerLeaves(s0: State, s: State) returns (s': State)
    requires CanReach(s0, s) && Inv(s) && s.prod == PLoop && s.i == Goal(s.max)
    ensures CanReach(s0, s') && Inv(s') && s' == s.(prod := PDone, producerExit := true)
  {
    InvKept(s, Produce(true));
    s' := Go(s0, s, Produce(true));
    InvKept(s', Produce(true));
    s' := Go(s0, s', Produce(true));
  }

  /** The consumer, with the flag set and nothing left, returns. */
  lemma ConsumerLeaves(s0: State, s: State) returns (s': State)
    requires CanReach(s0, s) && Inv(s) && s.prod == PDone && s.counter == 0 && s.cons == CDrain
    ensures CanReach(s0, s') && s'.prod == PDone && s'.cons == CDone
  {
    s' := s;
    for k := 0 to 4
      invariant CanReach(s0, s') && Inv(s') && s'.prod == PDone && s'.counter == 0
      invariant s'.cons == [CDrain, CUnlock, CExitFlag, CExitCount, CDone][k]
    {
      InvKept(s', Consume);
      s' := Go(s0, s', Consume);
    }
  }

  /** For every number of items some run ends with both threads finished. */
  lemma CanFinish(max: int) returns (s: State)
    ensures CanReach(Init(max), s) && s.prod == PDone && s.cons == CDone
  {
    var s0 := Init(max);
    Here(s0);
    s := ProduceAll(s0, s0);
    s := ProducerLeaves(s0, s);
    s := LockAndDrain(s0, s);
    if s.cons == CFlag {
      InvKept(s, Consume);
      s := Go(s0, s, Consume);
    }
    s := ConsumerLeaves(s0, s);
  }

  /** An idle consumer that finds nothing decides to sleep. */
  lemma ConsumerDecides(s0: State, s: State) returns (s': State)
    requires CanReach(s0, s) && Inv(s) && s.prod == PLoop
    requires s.counter == 0 && (s.cons == CFlag || s.cons == CDrain)
    ensures CanReach(s0, s') && Inv(s') && s'.cons == CWait
    ensures s'.prod == PLoop && s'.max == s.max && s'.i == s.i
  {
    s' := s;
    if s.cons == CDrain {
      for k := 0 to 5
        invariant CanReach(s0, s') && Inv(s') && s'.counter == 0
        invariant s'.prod == PLoop && s'.max == s.max && s'.i == s.i
        invariant s'.cons == [CDrain, CUnlock, CExitFlag, CLock, CTest, CFlag][k]
      {
        InvKept(s', Consume);
        s' := Go(s0, s', Consume);
      }
    }
    InvKept(s', Consume);
    s' := Go(s0, s', Consume);
  }

  /** For every number of items some run leaves the consumer asleep forever. */
  lemma CanHang(max: int) returns (s: State)
    ensures CanReach(Init(max), s) && s.prod == PDone && s.cons == Asleep && Stuck(s)
  {
    var s0 := Init(max);
    Here(s0);
    s := ProduceAll(s0, s0);
    s := LockAndDrain(s0, s);
    s := ConsumerDecides(s0, s);
    s := ProducerLeaves(s0, s);
    s := Go(s0, s, Consume);
  }

  // ---- the shared variables themselves ----

  /** The globals of thread/cond/main.c and the two threads, changed in place. */
  class Globals {
    var counter: int
    var producerExit: bool
    var owner: Option<Who>
    var max: int
    var prod: PPc
    var i: int
    var prodReg: int
    var cons: CPc
    var consReg: int
    ghost var produced: int
    ghost var consumed: int

    ghost function View(): State
      reads this
    {
      State(max, counter, producerExit, owner, prod, i, prodReg, cons, consReg, produced, consumed)
    }

    constructor (max: int)
      ensures View() == Init(max)
    {
      this.max := max;
      counter, producerExit, owner := 0, false, None;
      prod, i, prodReg := PLoop, 0, 0;
      cons, consReg := CLock, 0;
      produced, consumed := 0, 0;
    }

    /** One step of `_productFunc`; `signalOk` is the outcome of a signal. */
    method Produce(signalOk: bool)
      modifies this
      ensures View() == ProducerStep(old(View()), signalOk)
    {
      match prod {
        case PLoop => prod := if i < max then PLock else PSetExit;
        case PLock => prod, owner := PLoad, Some(Producer);
        case PLoad => prod, prodReg := PStore, counter;
        case PStore => prod, counter, produced := PUnlock, prodReg + 1, produced + 1;
        case PUnlock => prod, owner := PSignal, None;
        case PSignal =>
          if signalOk {
            prod := PNext;
            if cons == Asleep {
              cons := Woken;
            }
          } else {
            prod := PFailed;
          }
        case PNext => prod, i := PLoop, i + 1;
        case PSetExit => prod, producerExit := PDone, true;
        case _ =>
      }
    }

    /** One step of `_customerFunc`. */
    method Consume()
      modifies this
      ensures View() == ConsumerStep(old(View()))
    {
      match cons {
        case CLock => cons, owner := CTest, Some(Consumer);
        case Woken => cons, owner := CTest, Some(Consumer);
        case CTest => cons := if counter == 0 then CFlag else CDrain;
        case CFlag => cons := if producerExit then CDrain else CWait;
        case CWait => cons, owner := Asleep, None;
        case CDrain => cons := if counter > 0 then CLoad else CUnlock;
        case CLoad => cons, consReg := CStore, counter;
        case CStore => cons, counter, consumed := CDrain, consReg - 1, consumed + 1;
        case CUnlock => cons, owner := CExitFlag, None;
        case CExitFlag => cons := if producerExit then CExitCount else CLock;
        case CExitCount => cons := if counter == 0 then CDone else CLock;
        case _ =>
      }
    }

    method Act(a: Action)
      requires Enabled(View(), a)
      modifies this
      ensures View() == Apply(old(View()), a)
    {
      match a {
        case Produce(signalOk) => Produce(signalOk);
        case Consume => Consume();
        case Spurious => cons := Woken;
      }
    }

    /** Any schedule, run in place, conserves the items and never returns early. */
    method Run(schedule: seq<Action>)
      requires Inv(View()) && ValidRun(View(), schedule)
      modifies this
      ensures View() == Exec(old(View()), schedule) && Inv(View())
      ensures produced == consumed + counter
      ensures cons == CDone ==> consumed == Goal(max) && counter == 0
    {
      ghost var s0 := View();
      for k := 0 to |schedule|
        invariant Inv(View()) && ValidRun(View(), schedule[k..])
        invariant Exec(View(), schedule[k..]) == Exec(s0, schedule)
      {
        assert schedule[k..][0] == schedule[k] && schedule[k..][1..] == schedule[k + 1..];
        InvKept(View(), schedule[k]);
        Act(schedule[k]);
      }
    }
  }
}
