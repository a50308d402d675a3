/**
  The System V semaphore of process/system-v-ipc/semaphore/main.c: any number of processes run
  `main`, one of them creates and initialises the semaphore, and each may die at any step.

  Kernel behaviour taken as given: `semget` with IPC_EXCL is atomic and leaves an unspecified
  value, SETVAL clears every undo adjustment and does not touch sem_otime, `semop` blocks
  until it succeeds and sets sem_otime, and exit applies the adjustment, never below 0.
 */
module SystemV {
  import opened Folds

  /** Where a process is: the comments give the lines it executes next. */
  datatype Pc =
    | Start             // semget(IPC_CREAT | IPC_EXCL), line 25
    | SetVal            // creator: SETVAL 0, line 33
    | FirstPost         // creator: semop +1 without undo, line 43
    | Open              // opener: semget of the existing set, line 59
    | Poll(tries: nat)  // opener: IPC_STAT and test of sem_otime, lines 69-84
    | Wait1             // line 175
    | Post1             // line 176
    | Wait2             // line 181
    | TryWait           // line 182
    | Done              // return 0, line 185
    | Failed            // return -1, line 170
    | Dead

  const MAX_TRIES: nat := 3

  datatype Process = Process(pc: Pc, adj: int)

  datatype State = State(created: bool, value: int, otime: bool, procs: seq<Process>)

  datatype Action = Create(pid: nat, garbage: nat) | Step(pid: nat) | Exit(pid: nat)

  /** A process whose `_semCreateOrGet` has returned a valid id. */
  predicate HasId(pc: Pc) {
    pc == Wait1 || pc == Post1 || pc == Wait2 || pc == TryWait || pc == Done
  }

  predicate Creating(pc: Pc) {
    pc == SetVal || pc == FirstPost
  }

  /** A process that has taken the semaphore and not given it back. */
  predicate Holds(pc: Pc) {
    pc == Post1 || pc == TryWait || pc == Done
  }

  predicate Enabled(s: State, a: Action) {
    && a.pid < |s.procs|
    && var pc := s.procs[a.pid].pc;
    match a
    case Create(_, _) => pc == Start && !s.created
    case Exit(_) => pc != Dead
    case Step(_) =>
      match pc
      case Start => s.created
      case Wait1 => 1 <= s.value
      case Wait2 => 1 <= s.value
      case Done => false
      case Failed => false
      case Dead => false
      case _ => true
  }

  function Goto(s: State, p: nat, pc: Pc): State
    requires p < |s.procs|
  {
    s.(procs := s.procs[p := s.procs[p].(pc := pc)])
  }

  function SemOp(s: State, p: nat, delta: int, undo: bool): State
    requires p < |s.procs|
  {
    s.(value := s.value + delta, otime := true,
       procs := if undo then s.procs[p := s.procs[p].(adj := s.procs[p].adj - delta)] else s.procs)
  }

  function ClearAdj(procs: seq<Process>): (r: seq<Process>)
    ensures |r| == |procs|
  {
    seq(|procs|, i requires 0 <= i < |procs| => procs[i].(adj := 0))
  }

  function Undo(s: State, p: nat): State
    requires p < |s.procs|
  {
    var v := s.value + s.procs[p].adj;
    s.(value := if v < 0 then 0 else v, procs := s.procs[p := Process(Dead, 0)])
  }

  function Apply(s: State, a: Action): State
    requires Enabled(s, a)
  {
    var p := a.pid;
    match a
    case Create(_, garbage) => Goto(s.(created := true, value := garbage), p, SetVal)
    case Exit(_) => Undo(s, p)
    case Step(_) =>
      match s.procs[p].pc
      case Start => Goto(s, p, Open)
      case SetVal => Goto(s.(value := 0, procs := ClearAdj(s.procs)), p, FirstPost)
      case FirstPost => Goto(SemOp(s, p, 1, false), p, Wait1)
      case Open => Goto(s, p, Poll(0))
      case Poll(j) => Goto(s, p, if s.otime then Wait1 else if j + 1 < MAX_TRIES then Poll(j + 1) else Failed)
      case Wait1 => Goto(SemOp(s, p, -1, true), p, Post1)
      case Post1 => Goto(SemOp(s, p, 1, true), p, Wait2)
      case Wait2 => Goto(SemOp(s, p, -1, true), p, TryWait)
      case TryWait => Goto(s, p, Done)
  }

  /** What `_trySemWait` returns, and what its log line claims, for the value GETVAL reads. */
  function TryResult(value: int): bool {
    value > 1
  }

  function TryLog(value: int): bool {
    value > 0
  }

  predicate ValidRun(s: State, run: seq<Action>)
    decreases |run|
  {
    run != [] ==> Enabled(s, run[0]) && ValidRun(Apply(s, run[0]), run[1..])
  }

  function Exec(s: State, run: seq<Action>): State
    requires ValidRun(s, run)
    decreases |run|
  {
    if run == [] then s else Exec(Apply(s, run[0]), run[1..])
  }

  /** n processes about to call `_semCreateOrGet`, no semaphore yet. */
  function Init(n: nat): State {
    State(false, 0, false, seq(n, i => Process(Start, 0)))
  }

  // ---- the invariant ----

  function Adj(p: Process): int {
    p.adj
  }

  ghost predicate ProcOk(s: State, p: nat)
    requires p < |s.procs|
  {
    var q := s.procs[p];
    && q.adj == (if Holds(q.pc) then 1 else 0)
    && (HasId(q.pc) ==> s.otime)
    && (Creating(q.pc) ==> s.created && !s.otime)
    && (q.pc == FirstPost ==> s.value == 0)
    && (q.pc.Poll? ==> q.pc.tries < MAX_TRIES)
  }

  ghost predicate Inv(s: State) {
    && (forall p :: 0 <= p < |s.procs| ==> ProcOk(s, p))
    && (forall p, q :: 0 <= p < q < |s.procs| ==> !(Creating(s.procs[p].pc) && Creating(s.procs[q].pc)))
    && (s.otime ==> s.created && 0 <= s.value && s.value + Sum(s.procs, Adj) == 1)
  }

  lemma InitInv(n: nat)
    ensures Inv(Init(n))
  {
  }

  /** A process's adjustment is 1 exactly while it holds the semaphore, else 0. */
  lemma AdjIsHolding(s: State)
    requires Inv(s)
    ensures forall p :: 0 <= p < |s.procs| ==> Adj(s.procs[p]) == if Holds(s.procs[p].pc) then 1 else 0
    ensures !s.otime ==> forall p :: 0 <= p < |s.procs| ==> s.procs[p].adj == 0
  {
    forall p | 0 <= p < |s.procs|
      ensures Adj(s.procs[p]) == if Holds(s.procs[p].pc) then 1 else 0
      ensures !s.otime ==> s.procs[p].adj == 0
    {
      assert ProcOk(s, p);
    }
  }

  /** Before initialisation SETVAL finds no adjustment to clear. */
  lemma SetValClearsNothing(s: State)
    requires Inv(s) && !s.otime
    ensures ClearAdj(s.procs) == s.procs
    ensures Sum(s.procs, Adj) == 0
  {
    AdjIsHolding(s);
    SumConstant(s.procs, Adj, 0);
  }

  /** At most one process holds the initialised semaphore, and only when its value is 0. */
  lemma AtMostOneHolder(s: State)
    requires Inv(s) && s.otime
    ensures s.value <= 1
    ensures forall p :: 0 <= p < |s.procs| && Holds(s.procs[p].pc) ==> s.value == 0
    ensures forall p, q :: 0 <= p < q < |s.procs| ==> !(Holds(s.procs[p].pc) && Holds(s.procs[q].pc))
  {
    AdjIsHolding(s);
    SumNonNegative(s.procs, Adj);
    forall p | 0 <= p < |s.procs| && Holds(s.procs[p].pc)
      ensures s.value == 0
    {
      SumAtLeast(s.procs, Adj, p);
    }
    forall p, q | 0 <= p < q < |s.procs|
      ensures !(Holds(s.procs[p].pc) && Holds(s.procs[q].pc))
    {
      SumAtLeastTwo(s.procs, Adj, p, q);
    }
  }

  /** One action changes the adjustments through the acting process alone. */
  lemma OneProcessMoves(s: State, a: Action, f: Process -> int)
    requires Inv(s) && Enabled(s, a)
    ensures var s' := Apply(s, a);
            && s'.procs == s.procs[a.pid := s'.procs[a.pid]]
            && Sum(s'.procs, f) == Sum(s.procs, f) - f(s.procs[a.pid]) + f(s'.procs[a.pid])
  {
    var s' := Apply(s, a);
    assert ProcOk(s, a.pid);
    if a.Step? && s.procs[a.pid].pc == SetVal {
      SetValClearsNothing(s);
    }
    assert s'.procs == s.procs[a.pid := s'.procs[a.pid]];
    SumUpdate(s.procs, f, a.pid, s'.procs[a.pid]);
  }

  lemma TokenKept(s: State, a: Action)
    requires Inv(s) && Enabled(s, a)
    ensures var s' := Apply(s, a);
            s'.otime ==> s'.created && 0 <= s'.value && s'.value + Sum(s'.procs, Adj) == 1
  {
    assert ProcOk(s, a.pid);
    OneProcessMoves(s, a, Adj);
    if !s.otime {
      SetValClearsNothing(s);
    }
  }

  lemma ProcKept(s: State, a: Action, p: nat)
    requires Inv(s) && Enabled(s, a) && p < |s.procs|
    ensures var s' := Apply(s, a);
            && |s'.procs| == |s.procs| && ProcOk(s', p)
            && (p != a.pid ==> !(Creating(s'.procs[p].pc) && Creating(s'.procs[a.pid].pc)))
            && (p != a.pid ==> s'.procs[p] == s.procs[p])
  {
    OneProcessMoves(s, a, Adj);
    assert ProcOk(s, a.pid) && ProcOk(s, p);
  }

  lemma InvKept(s: State, a: Action)
    requires Inv(s) && Enabled(s, a)
    ensures Inv(Apply(s, a))
  {
    var s' := Apply(s, a);
    TokenKept(s, a);
    ProcKept(s, a, a.pid);
    forall p | 0 <= p < |s'.procs|
      ensures ProcOk(s', p)
      ensures p != a.pid ==> !(Creating(s'.procs[p].pc) && Creating(s'.procs[a.pid].pc)) && s'.procs[p] == s.procs[p]
    {
      ProcKept(s, a, p);
    }
  }

  lemma {:induction false} InvAlways(s: State, run: seq<Action>)
    requires Inv(s) && ValidRun(s, run)
    ensures Inv(Exec(s, run))
    decreases |run|
  {
    if run != [] {
      InvKept(s, run[0]);
      InvAlways(Apply(s, run[0]), run[1..]);
    }
  }

  // ---- what every run of any number of processes guarantees ----

  /**
    Conservation across waits, posts and crashes: value + adjustments is 1 once initialised, every
    adjustment is 0 or 1, and one process at most holds the semaphore.
   */
  lemma CrashSafeExclusion(n: nat, run: seq<Action>)
    requires ValidRun(Init(n), run)
    ensures var s := Exec(Init(n), run);
            s.otime ==>
              && s.value + Sum(s.procs, Adj) == 1
              && 0 <= s.value <= 1
              && (forall p :: 0 <= p < |s.procs| ==> Adj(s.procs[p]) == if Holds(s.procs[p].pc) then 1 else 0)
              && (forall p, q :: 0 <= p < q < |s.procs| ==> !(Holds(s.procs[p].pc) && Holds(s.procs[q].pc)))
  {
    InitInv(n);
    InvAlways(Init(n), run);
    var s := Exec(Init(n), run);
    if s.otime {
      AdjIsHolding(s);
      AtMostOneHolder(s);
    }
  }

  /** A process that dies at any step after initialisation gives back exactly what it held. */
  lemma ExitGivesBack(s: State, p: nat)
    requires Inv(s) && s.otime && Enabled(s, Exit(p))
    ensures var s' := Apply(s, Exit(p));
            && s'.value == s.value + (if Holds(s.procs[p].pc) then 1 else 0)
            && 0 <= s'.value <= 1
            && (Holds(s.procs[p].pc) ==> s'.value == 1)
  {
    AdjIsHolding(s);
    AtMostOneHolder(s);
    assert Adj(s.procs[p]) == s.procs[p].adj;
  }

  /** How often a run executes the creator's +1. */
  function FirstPosts(s: State, run: seq<Action>): nat
    requires ValidRun(s, run)
    decreases |run|
  {
    if run == [] then 0
    else (if run[0].Step? && s.procs[run[0].pid].pc == FirstPost then 1 else 0) + FirstPosts(Apply(s, run[0]), run[1..])
  }

  /** sem_otime is set by the creator's +1 and by nothing else, and that +1 makes the value 1. */
  lemma OtimeBySteps(s: State, a: Action)
    requires Inv(s) && Enabled(s, a)
    ensures var s', first := Apply(s, a), a.Step? && s.procs[a.pid].pc == FirstPost;
            && (first ==> !s.otime && s'.otime && s'.value == 1)
            && (!first ==> s'.otime == s.otime)
  {
    assert ProcOk(s, a.pid);
  }

  lemma {:induction false} OtimeCountsFirstPosts(s: State, run: seq<Action>)
    requires Inv(s) && ValidRun(s, run)
    ensures (if s.otime then 1 else 0) + FirstPosts(s, run) == if Exec(s, run).otime then 1 else 0
    decreases |run|
  {
    if run != [] {
      OtimeBySteps(s, run[0]);
      InvKept(s, run[0]);
      OtimeCountsFirstPosts(Apply(s, run[0]), run[1..]);
    }
  }

  /**
    Initialisation handshake, with a creator that may die part-way: nobody has a valid id unless the creator's
    +1 has been executed, it is executed at most once, SETVAL and that +1 each meet a semaphore nobody
    uses, and only one process creates.
   */
  lemma Handshake(n: nat, run: seq<Action>)
    requires ValidRun(Init(n), run)
    ensures FirstPosts(Init(n), run) <= 1
    ensures var s := Exec(Init(n), run);
            && (s.otime <==> FirstPosts(Init(n), run) == 1)
            && (forall p :: 0 <= p < |s.procs| && HasId(s.procs[p].pc) ==> FirstPosts(Init(n), run) == 1)
            && (forall p, q :: 0 <= p < |s.procs| && 0 <= q < |s.procs| && Creating(s.procs[p].pc)
                  ==> FirstPosts(Init(n), run) == 0 && !HasId(s.procs[q].pc) && s.procs[q].adj == 0)
            && (forall p, q :: 0 <= p < q < |s.procs| ==> !(Creating(s.procs[p].pc) && Creating(s.procs[q].pc)))
  {
    InitInv(n);
    InvAlways(Init(n), run);
    OtimeCountsFirstPosts(Init(n), run);
    var s := Exec(Init(n), run);
    AdjIsHolding(s);
    forall p, q | 0 <= p < |s.procs| && 0 <= q < |s.procs|
      ensures HasId(s.procs[p].pc) ==> s.otime
      ensures Creating(s.procs[p].pc) ==> !s.otime && !HasId(s.procs[q].pc)
    {
      assert ProcOk(s, p) && ProcOk(s, q);
    }
  }

  /** The creator died before its +1. */
  ghost predicate Abandoned(s: State) {
    && s.created && !s.otime
    && forall p :: 0 <= p < |s.procs| ==> !Creating(s.procs[p].pc)
  }

  /** After that no process ever gets a valid id: every opener gives up after its polls. */
  lemma {:induction false} AbandonedForever(s: State, run: seq<Action>)
    requires Inv(s) && Abandoned(s) && ValidRun(s, run)
    ensures var s' := Exec(s, run);
            Abandoned(s') && forall p :: 0 <= p < |s'.procs| ==> !HasId(s'.procs[p].pc)
    decreases |run|
  {
    assert forall p :: 0 <= p < |s.procs| && HasId(s.procs[p].pc) ==> ProcOk(s, p);
    if run != [] {
      assert ProcOk(s, run[0].pid);
      OneProcessMoves(s, run[0], Adj);
      InvKept(s, run[0]);
      AbandonedForever(Apply(s, run[0]), run[1..]);
    }
  }

  function StepsOf(run: seq<Action>, p: nat): nat {
    if run == [] then 0 else (if run[0] == Step(p) then 1 else 0) + StepsOf(run[1..], p)
  }

  lemma {:induction false} OtimeStays(s: State, run: seq<Action>)
    requires ValidRun(s, run) && s.otime
    ensures Exec(s, run).otime
    decreases |run|
  {
    if run != [] {
      OtimeStays(Apply(s, run[0]), run[1..]);
    }
  }

  /** Steps of other processes do not move process p. */
  lemma OthersLeavePc(s: State, a: Action, p: nat)
    requires Enabled(s, a) && a.pid != p && p < |s.procs|
    ensures |Apply(s, a).procs| == |s.procs| && Apply(s, a).procs[p].pc == s.procs[p].pc
  {
  }

  /**
    While sem_otime stays zero, whatever the other processes do, an opener that survives takes at most three
    steps: each moves it to its next poll, and the third makes `_semCreateOrGet` return -1.
   */
  lemma {:induction false} OpenerGivesUp(s: State, run: seq<Action>, p: nat)
    requires p < |s.procs| && s.procs[p].pc.Poll? && s.procs[p].pc.tries < MAX_TRIES
    requires ValidRun(s, run) && !Exec(s, run).otime && Exit(p) !in run
    ensures var j, k := s.procs[p].pc.tries, StepsOf(run, p);
            && j + k <= MAX_TRIES && |Exec(s, run).procs| == |s.procs|
            && Exec(s, run).procs[p].pc == if j + k < MAX_TRIES then Poll(j + k) else Failed
    decreases |run|
  {
    if run != [] {
      var a, s' := run[0], Apply(s, run[0]);
      if s.otime {
        OtimeStays(s, run);
      } else if a.pid != p {
        OthersLeavePc(s, a, p);
        OpenerGivesUp(s', run[1..], p);
      } else {
        assert a == Step(p);
        if s'.procs[p].pc == Failed {
          FailedStays(s', run[1..], p);
        } else {
          OpenerGivesUp(s', run[1..], p);
        }
      }
    }
  }

  lemma {:induction false} FailedStays(s: State, run: seq<Action>, p: nat)
    requires p < |s.procs| && s.procs[p].pc == Failed
    requires ValidRun(s, run) && Exit(p) !in run
    ensures StepsOf(run, p) == 0 && |Exec(s, run).procs| == |s.procs| && Exec(s, run).procs[p].pc == Failed
    decreases |run|
  {
    if run != [] {
      assert run[0].pid != p;
      OthersLeavePc(s, run[0], p);
      FailedStays(Apply(s, run[0]), run[1..], p);
    }
  }

  // ---- what a process has done by the time it is where it is ----

  /**
    The past of one process in a run: whether the creator's +1 has happened yet, its polls of sem_otime before
    and after that +1, whether the +1 was its own, and by how much its own operations after the +1
    changed the value, in order.
   */
  datatype Past = Past(posted: bool, early: nat, late: nat, creator: bool, ops: seq<int>)

  const NOTHING: Past := Past(false, 0, 0, false, [])

  function Note(h: Past, s: State, a: Action, p: nat): Past
    requires Enabled(s, a)
  {
    var pc, change := s.procs[a.pid].pc, Apply(s, a).value - s.value;
    var first := a.Step? && pc == FirstPost;
    if a != Step(p) then h.(posted := h.posted || first) else
      Past(h.posted || first,
           h.early + (if pc.Poll? && !h.posted then 1 else 0),
           h.late + (if pc.Poll? && h.posted then 1 else 0),
           h.creator || first,
           h.ops + if h.posted && change != 0 then [change] else [])
  }

  function PastOf(h: Past, s: State, run: seq<Action>, p: nat): Past
    requires ValidRun(s, run)
    decreases |run|
  {
    if run == [] then h else PastOf(Note(h, s, run[0], p), Apply(s, run[0]), run[1..], p)
  }

  /** What has to lie behind a process that is at pc; nothing is said of a dead one. */
  ghost predicate Behind(pc: Pc, h: Past) {
    match pc
    case Dead => true
    case Poll(j) => h.early == j && h.late == 0 && !h.creator && h.ops == []
    case Failed => h.early == 3 && h.late == 0 && !h.creator && h.ops == []
    case _ =>
      if !HasId(pc) then h.early == 0 && h.late == 0 && !h.creator && h.ops == [] else
        && (if h.creator then h.early == 0 && h.late == 0 else h.early < 3 && h.late == 1)
        && h.ops == (match pc
                     case Wait1 => []
                     case Post1 => [-1]
                     case Wait2 => [-1, 1]
                     case _ => [-1, 1, -1])
  }

  /** A step inside `main` leaves its change of the value behind. */
  lemma BehindInMain(h: Past, s: State, p: nat)
    requires Inv(s) && Enabled(s, Step(p)) && h.posted == s.otime && Behind(s.procs[p].pc, h) && HasId(s.procs[p].pc)
    ensures Behind(Apply(s, Step(p)).procs[p].pc, Note(h, s, Step(p), p))
  {
    assert ProcOk(s, p);
  }

  /** A step towards an id leaves a poll behind, or the creator's +1, or nothing. */
  lemma BehindBefore(h: Past, s: State, p: nat)
    requires Inv(s) && Enabled(s, Step(p)) && h.posted == s.otime && Behind(s.procs[p].pc, h) && !HasId(s.procs[p].pc)
    ensures Behind(Apply(s, Step(p)).procs[p].pc, Note(h, s, Step(p), p))
  {
    assert ProcOk(s, p);
  }

  lemma BehindKept(h: Past, s: State, a: Action, p: nat)
    requires Inv(s) && Enabled(s, a) && p < |s.procs|
    requires h.posted == s.otime && Behind(s.procs[p].pc, h)
    ensures var s', h' := Apply(s, a), Note(h, s, a, p);
            && |s'.procs| == |s.procs|
            && h'.posted == s'.otime && Behind(s'.procs[p].pc, h')
  {
    OtimeBySteps(s, a);
    if a.pid != p {
      OthersLeavePc(s, a, p);
    } else if a.Step? {
      if HasId(s.procs[p].pc) {
        BehindInMain(h, s, p);
      } else {
        BehindBefore(h, s, p);
      }
    }
  }

  lemma {:induction false} BehindAlways(h: Past, s: State, run: seq<Action>, p: nat)
    requires Inv(s) && ValidRun(s, run) && p < |s.procs|
    requires h.posted == s.otime && Behind(s.procs[p].pc, h)
    ensures var s', h' := Exec(s, run), PastOf(h, s, run, p);
            && |s'.procs| == |s.procs|
            && h'.posted == s'.otime && Behind(s'.procs[p].pc, h')
    decreases |run|
  {
    if run != [] {
      BehindKept(h, s, run[0], p);
      InvKept(s, run[0]);
      BehindAlways(Note(h, s, run[0], p), Apply(s, run[0]), run[1..], p);
    }
  }

  /**
    Who gets an id, in every run and for every process that is not dead: one fails if and only if it made three
    polls before the creator's +1, and one has a valid id if and only if the +1 was its own or it has
    polled after it. There is no second poll after the +1, since the first one gives the id.
   */
  lemma WhoGetsAnId(n: nat, run: seq<Action>, p: nat)
    requires ValidRun(Init(n), run) && p < n
    ensures |Exec(Init(n), run).procs| == n
    ensures var s, h := Exec(Init(n), run), PastOf(NOTHING, Init(n), run, p);
            s.procs[p].pc != Dead ==>
              && (s.procs[p].pc == Failed <==> h.early == 3)
              && (HasId(s.procs[p].pc) <==> h.creator || h.late == 1)
              && h.early <= 3 && h.late <= 1
              && (h.creator ==> h.early == 0 && h.late == 0)
              && (h.late == 1 ==> h.early <= 2)
  {
    InitInv(n);
    BehindAlways(NOTHING, Init(n), run, p);
    InvAlways(Init(n), run);
    assert ProcOk(Exec(Init(n), run), p);
  }

  /** `main` waits, posts and waits, in this order and once each, before it tries and returns. */
  lemma MainWaitsPostsWaits(n: nat, run: seq<Action>, p: nat)
    requires ValidRun(Init(n), run) && p < n
    ensures |Exec(Init(n), run).procs| == n
    ensures var pc, ops := Exec(Init(n), run).procs[p].pc, PastOf(NOTHING, Init(n), run, p).ops;
            && (pc == Done || pc == TryWait ==> ops == [-1, 1, -1])
            && (pc == Wait2 ==> ops == [-1, 1])
            && (pc == Post1 ==> ops == [-1])
            && (pc == Wait1 || (pc != Dead && !HasId(pc)) ==> ops == [])
  {
    InitInv(n);
    BehindAlways(NOTHING, Init(n), run, p);
  }

  // ---- a process can be killed anywhere, and the others go on ----

  lemma {:induction false} RunThen(s: State, run: seq<Action>, a: Action)
    requires ValidRun(s, run) && Enabled(Exec(s, run), a)
    ensures ValidRun(s, run + [a]) && Exec(s, run + [a]) == Apply(Exec(s, run), a)
    decreases |run|
  {
    if run == [] {
      var rest: seq<Action> := [a][1..];
      assert Exec(Apply(s, a), rest) == Apply(s, a);
      assert run + [a] == [a];
    } else {
      RunThen(Apply(s, run[0]), run[1..], a);
      assert (run + [a])[1..] == run[1..] + [a];
    }
  }

  /** Whoever holds the semaphore may be killed there, in any reachable state, and then any waiter can take it. */
  lemma KilledHolderIsReplaced(n: nat, run: seq<Action>, p: nat, q: nat)
    requires ValidRun(Init(n), run)
    requires var procs := Exec(Init(n), run).procs;
             p < |procs| && q < |procs| && Holds(procs[p].pc) && (procs[q].pc == Wait1 || procs[q].pc == Wait2)
    ensures ValidRun(Init(n), run + [Exit(p)] + [Step(q)])
    ensures var procs := Exec(Init(n), run + [Exit(p)] + [Step(q)]).procs;
            |procs| == |Exec(Init(n), run).procs| && procs[p].pc == Dead && Holds(procs[q].pc)
  {
    var s := Exec(Init(n), run);
    InitInv(n);
    InvAlways(Init(n), run);
    assert ProcOk(s, p);
    ExitGivesBack(s, p);
    RunThen(Init(n), run, Exit(p));
    RunThen(Init(n), run + [Exit(p)], Step(q));
  }

  /** A run from the start that ends in s. */
  ghost predicate Reached(n: nat, run: seq<Action>, s: State) {
    ValidRun(Init(n), run) && Exec(Init(n), run) == s && Inv(s) && |s.procs| == n
  }

  lemma Go(n: nat, run: seq<Action>, s: State, a: Action) returns (longer: seq<Action>, s': State)
    requires Reached(n, run, s) && Enabled(s, a)
    ensures s' == Apply(s, a) && longer == run + [a] && Reached(n, longer, s')
    ensures forall q :: 0 <= q < n && q != a.pid ==> s'.procs[q] == s.procs[q]
  {
    RunThen(Init(n), run, a);
    InvKept(s, a);
    OneProcessMoves(s, a, Adj);
    longer, s' := run + [a], Apply(s, a);
  }

  /** Process 0 creates the set and takes k further steps of `main`, with nobody in its way. */
  lemma CreatorAlone(n: nat, garbage: nat, k: nat) returns (run: seq<Action>, s: State)
    requires 2 <= n && k <= 6
    ensures Reached(n, run, s) && s.created && (s.otime <==> 2 <= k)
    ensures s.procs[0].pc == [SetVal, FirstPost, Wait1, Post1, Wait2, TryWait, Done][k]
    ensures k == 0 ==> s.value == garbage
    ensures 2 <= k ==> s.value == if Holds(s.procs[0].pc) then 0 else 1
    ensures s.procs[1].pc == Start
  {
    InitInv(n);
    run, s := [], Init(n);
    run, s := Go(n, run, s, Create(0, garbage));
    for j := 0 to k
      invariant Reached(n, run, s) && s.created && (s.otime <==> 2 <= j)
      invariant s.procs[0].pc == [SetVal, FirstPost, Wait1, Post1, Wait2, TryWait, Done][j]
      invariant j == 0 ==> s.value == garbage
      invariant 2 <= j ==> s.value == if Holds(s.procs[0].pc) then 0 else 1
      invariant s.procs[1].pc == Start
    {
      assert ProcOk(s, 0);
      run, s := Go(n, run, s, Step(0));
    }
  }

  /** A process about to start gets past an initialised and free semaphore. */
  lemma OpenerTakes(n: nat, run: seq<Action>, s: State, q: nat) returns (longer: seq<Action>, s': State)
    requires Reached(n, run, s) && q < n && s.procs[q].pc == Start && s.created && s.otime && s.value == 1
    ensures Reached(n, longer, s') && run <= longer && s'.procs[q].pc == Post1
  {
    longer, s' := run, s;
    for j := 0 to 4
      invariant Reached(n, longer, s') && run <= longer && s'.created && s'.otime
      invariant s'.procs[q].pc == [Start, Open, Poll(0), Wait1, Post1][j]
      invariant j < 4 ==> s'.value == 1
    {
      longer, s' := Go(n, longer, s', Step(q));
    }
  }

  /** Process 1 takes j steps while process 0 has created the set but not initialised it. */
  lemma OpenerEarly(n: nat, garbage: nat, j: nat) returns (run: seq<Action>, s: State)
    requires 2 <= n && j <= 5
    ensures Reached(n, run, s) && s.created && !s.otime && s.procs[0].pc == SetVal
    ensures s.procs[1].pc == [Start, Open, Poll(0), Poll(1), Poll(2), Failed][j]
  {
    run, s := CreatorAlone(n, garbage, 0);
    for i := 0 to j
      invariant Reached(n, run, s) && s.created && !s.otime && s.procs[0].pc == SetVal
      invariant s.procs[1].pc == [Start, Open, Poll(0), Poll(1), Poll(2), Failed][i]
    {
      run, s := Go(n, run, s, Step(1));
    }
  }

  /** Process 0 goes on from its SETVAL until it holds the semaphore. */
  lemma CreatorTakes(n: nat, run: seq<Action>, s: State) returns (longer: seq<Action>, s': State)
    requires Reached(n, run, s) && 2 <= n && s.procs[0].pc == SetVal
    ensures Reached(n, longer, s') && run <= longer && s'.procs[0].pc == Post1
  {
    longer, s' := run, s;
    for j := 0 to 3
      invariant Reached(n, longer, s') && run <= longer
      invariant s'.procs[0].pc == [SetVal, FirstPost, Wait1, Post1][j]
      invariant j == 2 ==> s'.value == 1
    {
      assert ProcOk(s', 0);
      longer, s' := Go(n, longer, s', Step(0));
    }
  }

  /** The run kills p at pc and another process then holds the semaphore. */
  ghost predicate KillsAt(n: nat, before: seq<Action>, p: nat, pc: Pc, after: seq<Action>, q: nat) {
    && ValidRun(Init(n), before) && ValidRun(Init(n), after) && before + [Exit(p)] <= after
    && p < |Exec(Init(n), before).procs| && Exec(Init(n), before).procs[p].pc == pc
    && q < |Exec(Init(n), after).procs| && q != p && Holds(Exec(Init(n), after).procs[q].pc)
  }

  /** Killed with the semaphore initialised and a free one left behind. */
  lemma KillCreator(n: nat, k: nat) returns (before: seq<Action>, after: seq<Action>)
    requires 2 <= n && 2 <= k <= 6
    ensures KillsAt(n, before, 0, [SetVal, FirstPost, Wait1, Post1, Wait2, TryWait, Done][k], after, 1)
  {
    var s: State;
    before, s := CreatorAlone(n, 0, k);
    assert ProcOk(s, 0);
    ExitGivesBack(s, 0);
    after, s := Go(n, before, s, Exit(0));
    after, s := OpenerTakes(n, after, s, 1);
  }

  lemma KillOpener(n: nat, j: nat) returns (before: seq<Action>, after: seq<Action>)
    requires 2 <= n && j <= 5
    ensures KillsAt(n, before, 1, [Start, Open, Poll(0), Poll(1), Poll(2), Failed][j], after, 0)
  {
    var s: State;
    before, s := OpenerEarly(n, 0, j);
    after, s := Go(n, before, s, Exit(1));
    after, s := CreatorTakes(n, after, s);
  }

  /** Before its +1 the creator can be killed as well, over any value the set may hold; nobody gets in then. */
  lemma KillCreatorEarly(n: nat, garbage: nat, k: nat) returns (before: seq<Action>)
    requires 2 <= n && k <= 1
    ensures ValidRun(Init(n), before) && ValidRun(Init(n), before + [Exit(0)])
    ensures var s := Exec(Init(n), before);
            |s.procs| == n && s.procs[0].pc == [SetVal, FirstPost][k] && (k == 0 ==> s.value == garbage)
    ensures Abandoned(Exec(Init(n), before + [Exit(0)]))
  {
    var s: State, after: seq<Action>;
    before, s := CreatorAlone(n, garbage, k);
    assert forall q :: 0 < q < n ==> !(Creating(s.procs[0].pc) && Creating(s.procs[q].pc));
    after, s := Go(n, before, s, Exit(0));
  }

  /** Crashes are real: every place but the creator's two before its +1 can be died at with another going in later. */
  lemma KillAnywhere(n: nat, pc: Pc) returns (before: seq<Action>, p: nat, after: seq<Action>, q: nat)
    requires 2 <= n && pc != Dead && !Creating(pc) && (pc.Poll? ==> pc.tries <= 2)
    ensures KillsAt(n, before, p, pc, after, q)
  {
    if HasId(pc) {
      var k := match pc case Wait1 => 2 case Post1 => 3 case Wait2 => 4 case TryWait => 5 case _ => 6;
      p, q := 0, 1;
      before, after := KillCreator(n, k);
    } else {
      var j := match pc case Start => 0 case Open => 1 case Poll(tries) => 2 + tries case _ => 5;
      p, q := 1, 0;
      before, after := KillOpener(n, j);
    }
  }

  /** `_trySemWait` as written returns false wherever it can be called, whatever its log line says. */
  lemma TryAlwaysFails(n: nat, run: seq<Action>)
    requires ValidRun(Init(n), run)
    ensures forall v :: TryResult(v) <==> 2 <= v
    ensures forall v :: TryLog(v) <==> 1 <= v
    ensures var s := Exec(Init(n), run);
            && (s.otime ==> !TryResult(s.value) && (TryLog(s.value) <==> s.value == 1))
            && (forall p :: 0 <= p < |s.procs| && s.procs[p].pc == TryWait ==>
                  && s.otime
                  && !TryLog(s.value)
                  && Apply(s, Step(p)) == s.(procs := s.procs[p := s.procs[p].(pc := Done)]))
  {
    Handshake(n, run);
    CrashSafeExclusion(n, run);
    var s := Exec(Init(n), run);
    InitInv(n);
    InvAlways(Init(n), run);
    if s.otime {
      AtMostOneHolder(s);
    }
  }

  // ---- termination and recovery ----

  function Rank(p: Process): int {
    match p.pc
    case Start => 10
    case SetVal => 9
    case FirstPost => 8
    case Open => 9
    case Poll(j) => if j < MAX_TRIES then 8 - j else 1
    case Wait1 => 5
    case Post1 => 4
    case Wait2 => 3
    case TryWait => 2
    case Done => 1
    case Failed => 1
    case Dead => 0
  }

  /** An action the program takes by itself: any step, or an exit through one of its returns. */
  predicate Voluntary(s: State, a: Action)
    requires Enabled(s, a)
  {
    a.Exit? ==> s.procs[a.pid].pc == Done || s.procs[a.pid].pc == Failed
  }

  ghost predicate Halted(s: State) {
    forall a: Action :: Enabled(s, a) ==> !Voluntary(s, a)
  }

  lemma RankDrops(s: State, a: Action)
    requires Inv(s) && Enabled(s, a)
    ensures Sum(Apply(s, a).procs, Rank) < Sum(s.procs, Rank)
    ensures |Apply(s, a).procs| == |s.procs|
  {
    assert ProcOk(s, a.pid);
    OneProcessMoves(s, a, Rank);
  }

  lemma {:induction false} RunIsBounded(s: State, run: seq<Action>)
    requires Inv(s) && ValidRun(s, run)
    ensures |run| + Sum(Exec(s, run).procs, Rank) <= Sum(s.procs, Rank)
    ensures |Exec(s, run).procs| == |s.procs|
    decreases |run|
  {
    if run != [] {
      RankDrops(s, run[0]);
      InvKept(s, run[0]);
      RunIsBounded(Apply(s, run[0]), run[1..]);
    }
  }

  /** In every reachable state a process that has not returned is blocked only in a wait, and only by a holder. */
  lemma BlockedIff(n: nat, run: seq<Action>, p: nat)
    requires ValidRun(Init(n), run) && p < |Exec(Init(n), run).procs|
    ensures var s := Exec(Init(n), run);
            var pc := s.procs[p].pc;
            Enabled(s, Step(p)) || Enabled(s, Create(p, 0)) <==>
              && pc != Done && pc != Failed && pc != Dead
              && (pc == Wait1 || pc == Wait2 ==> forall q :: 0 <= q < |s.procs| ==> !Holds(s.procs[q].pc))
  {
    var s := Exec(Init(n), run);
    InitInv(n);
    InvAlways(Init(n), run);
    assert ProcOk(s, p);
    if s.otime {
      AtMostOneHolder(s);
      AdjIsHolding(s);
      if s.value == 0 {
        var q := SumPositiveWitness(s.procs, Adj);
      }
    }
  }

  /** A live process can always go on: a blocked wait means some other process holds the semaphore. */
  lemma HaltedMeansDead(s: State)
    requires Inv(s) && Halted(s)
    ensures forall p :: 0 <= p < |s.procs| ==> s.procs[p].pc == Dead
  {
    forall p | 0 <= p < |s.procs|
      ensures s.procs[p].pc == Dead
    {
      assert ProcOk(s, p);
      var pc := s.procs[p].pc;
      if pc == Wait1 || pc == Wait2 {
        AdjIsHolding(s);
        assert !Enabled(s, Step(p));
        var q := SumPositiveWitness(s.procs, Adj);
        assert Enabled(s, if s.procs[q].pc == Done then Exit(q) else Step(q));
        assert false;
      }
      assert pc == Done || pc == Failed ==> Enabled(s, Exit(p));
      assert pc == Start && !s.created ==> Enabled(s, Create(p, 0));
      assert pc != Dead && pc != Done && pc != Failed && (pc == Start ==> s.created) ==> Enabled(s, Step(p));
    }
  }

  /**
    No run goes on for more than ten actions per process, a run can stop only when every process is
    gone, and then an initialised semaphore is free again however many of them crashed.
   */
  lemma EveryRunRecovers(n: nat, run: seq<Action>)
    requires ValidRun(Init(n), run)
    ensures |run| <= 10 * n
    ensures var s := Exec(Init(n), run);
            && (Halted(s) <==> forall p :: 0 <= p < |s.procs| ==> s.procs[p].pc == Dead)
            && (Halted(s) && s.otime ==> s.value == 1)
  {
    InitInv(n);
    var s0, s := Init(n), Exec(Init(n), run);
    InvAlways(s0, run);
    RunIsBounded(s0, run);
    SumConstant(s0.procs, Rank, 10);
    SumNonNegative(s.procs, Rank);
    if Halted(s) {
      HaltedMeansDead(s);
      AdjIsHolding(s);
      SumConstant(s.procs, Adj, 0);
    }
  }

  // ---- the kernel object itself ----

  /** The semaphore set and the processes that use it, changed in place by each system call. */
  class SemaphoreSet {
    var created: bool
    var value: int
    var otime: bool
    var procs: seq<Process>

    function View(): State
      reads this
    {
      State(created, value, otime, procs)
    }

    constructor (n: nat)
      ensures View() == Init(n)
    {
      created, value, otime := false, 0, false;
      procs := seq(n, i => Process(Start, 0));
    }

    method Jump(p: nat, pc: Pc)
      requires p < |procs|
      modifies this`procs
      ensures View() == Goto(old(View()), p, pc)
    {
      procs := procs[p := procs[p].(pc := pc)];
    }

    method Operate(p: nat, delta: int, undo: bool)
      requires p < |procs|
      modifies this`value, this`otime, this`procs
      ensures View() == SemOp(old(View()), p, delta, undo)
    {
      value, otime := value + delta, true;
      if undo {
        procs := procs[p := procs[p].(adj := procs[p].adj - delta)];
      }
    }

    method Leave(p: nat)
      requires p < |procs|
      modifies this`value, this`procs
      ensures View() == Undo(old(View()), p)
    {
      value := value + procs[p].adj;
      if value < 0 {
        value := 0;
      }
      procs := procs[p := Process(Dead, 0)];
    }

    method Act(a: Action)
      requires Enabled(View(), a)
      modifies this
      ensures View() == Apply(old(View()), a)
    {
      var p := a.pid;
      match a {
        case Create(_, garbage) =>
          created, value := true, garbage;
          Jump(p, SetVal);
        case Exit(_) => Leave(p);
        case Step(_) =>
          match procs[p].pc {
            case Start => Jump(p, Open);
            case SetVal =>
              value, procs := 0, ClearAdj(procs);
              Jump(p, FirstPost);
            case FirstPost =>
              Operate(p, 1, false);
              Jump(p, Wait1);
            case Open => Jump(p, Poll(0));
            case Poll(j) => Jump(p, if otime then Wait1 else if j + 1 < MAX_TRIES then Poll(j + 1) else Failed);
            case Wait1 =>
              Operate(p, -1, true);
              Jump(p, Post1);
            case Post1 =>
              Operate(p, 1, true);
              Jump(p, Wait2);
            case Wait2 =>
              Operate(p, -1, true);
              Jump(p, TryWait);
            case TryWait => Jump(p, Done);
          }
      }
    }

    /** Any schedule of steps and crashes, run in place, keeps the one token. */
    method Run(schedule: seq<Action>)
      requires Inv(View()) && ValidRun(View(), schedule)
      modifies this
      ensures View() == Exec(old(View()), schedule) && Inv(View())
      ensures otime ==> value + Sum(procs, Adj) == 1
    {
      ghost var s0 := View();
      for k := 0 to |schedule|
        invariant Inv(View()) && ValidRun(View(), schedule[k..])
        invariant Exec(View(), schedule[k..]) == Exec(s0, schedule)
      {
        assert schedule[k..][0] == schedule[k] && schedule[k..][1..] == schedule[k + 1..];
        InvKept(View(), schedule[k]);
        Act(schedule[k]);
      }
    }
  }
}
