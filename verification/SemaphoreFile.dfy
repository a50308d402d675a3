/**
  The life of the semaphore's file in thread/semaphore/main.c: a copy of `main` creates the file or opens
  the existing one, waits, posts, and the creator unlinks the file at the end. A copy that starts after the
  unlink creates a new semaphore, although an earlier copy may still use the old one.

  Each semaphore behaves as the atomic one, which module `Semaphore` proves of thread/semaphore/sem.c.
 */
module SemaphoreFile {
  import opened Folds
  import opened Options

  /** Where a copy is: the comments give the lines it executes next in main.c. */
  datatype Pc =
    | Begin    // semaphore_create, line 16
    | Opening  // semaphore_open, line 20
    | Waiting  // semaphore_wait, line 35
    | Inside   // semaphore_post, line 40
    | Closing  // lines 43-47
    | Gone
    | Failed   // line 24

  datatype Copy = Copy(pc: Pc, obj: nat, creator: bool)

  /** `name` is the semaphore the file name leads to; `values[o]` is the count of semaphore o. */
  datatype State = State(name: Option<nat>, values: seq<int>, copies: seq<Copy>)

  function Init(n: nat): State {
    State(None, [], seq(n, i => Copy(Begin, 0, false)))
  }

  predicate Uses(c: Copy) {
    c.pc == Waiting || c.pc == Inside
  }

  predicate Active(c: Copy) {
    Uses(c) || c.pc == Closing
  }

  /** An action is one step of copy i. */
  predicate Enabled(s: State, i: nat) {
    && i < |s.copies|
    && var c := s.copies[i];
    && c.pc != Gone && c.pc != Failed
    && (Active(c) ==> c.obj < |s.values|)
    && (c.pc == Waiting ==> 0 < s.values[c.obj])
  }

  function Apply(s: State, i: nat): State
    requires Enabled(s, i)
  {
    var c := s.copies[i];
    match c.pc
    case Begin =>
      if s.name == None
      then State(Some(|s.values|), s.values + [1], s.copies[i := Copy(Waiting, |s.values|, true)])
      else s.(copies := s.copies[i := c.(pc := Opening)])
    case Opening =>
      s.(copies := s.copies[i := if s.name == None then c.(pc := Failed) else Copy(Waiting, s.name.value, false)])
    case Waiting => s.(values := s.values[c.obj := s.values[c.obj] - 1], copies := s.copies[i := c.(pc := Inside)])
    case Inside => s.(values := s.values[c.obj := s.values[c.obj] + 1], copies := s.copies[i := c.(pc := Closing)])
    case Closing => s.(name := if c.creator then None else s.name, copies := s.copies[i := c.(pc := Gone)])
  }

  predicate ValidRun(s: State, run: seq<nat>)
    decreases |run|
  {
    run != [] ==> Enabled(s, run[0]) && ValidRun(Apply(s, run[0]), run[1..])
  }

  function Exec(s: State, run: seq<nat>): State
    requires ValidRun(s, run)
    decreases |run|
  {
    if run == [] then s else Exec(Apply(s, run[0]), run[1..])
  }

  // ---- the invariant ----

  function InsideObject(o: nat, c: Copy): int {
    if c.pc == Inside && c.obj == o then 1 else 0
  }

  function InsideOf(o: nat): Copy -> int {
    c => InsideObject(o, c)
  }

  ghost predicate CopyOk(s: State, i: nat)
    requires i < |s.copies|
  {
    var c := s.copies[i];
    && (Active(c) ==> c.obj < |s.values|)
    && (Active(c) && c.creator ==> s.name == Some(c.obj))
    && (c.pc == Begin || c.pc == Opening ==> !c.creator)
  }

  ghost predicate OneToken(s: State, o: nat)
    requires o < |s.values|
  {
    0 <= s.values[o] && s.values[o] + Sum(s.copies, InsideOf(o)) == 1
  }

  ghost predicate Inv(s: State) {
    && (s.name.Some? ==> s.name.value == |s.values| - 1)
    && (forall i :: 0 <= i < |s.copies| ==> CopyOk(s, i))
    && (forall o :: 0 <= o < |s.values| ==> OneToken(s, o))
    && (forall i, j :: 0 <= i < j < |s.copies| && Active(s.copies[i]) && Active(s.copies[j])
          ==> !(s.copies[i].creator && s.copies[j].creator))
  }

  lemma NobodyInsideNew(s: State)
    requires Inv(s)
    ensures Sum(s.copies, InsideOf(|s.values|)) == 0
  {
    assert forall i :: 0 <= i < |s.copies| ==> CopyOk(s, i);
    forall i | 0 <= i < |s.copies|
      ensures InsideOf(|s.values|)(s.copies[i]) == 0
    {
      assert CopyOk(s, i);
    }
    SumConstant(s.copies, InsideOf(|s.values|), 0);
  }

  lemma TokenKept(s: State, i: nat, o: nat)
    requires Inv(s) && Enabled(s, i) && o < |Apply(s, i).values|
    ensures OneToken(Apply(s, i), o)
  {
    var s' := Apply(s, i);
    assert CopyOk(s, i);
    SumUpdate(s.copies, InsideOf(o), i, s'.copies[i]);
    if o < |s.values| {
      assert OneToken(s, o);
    } else {
      NobodyInsideNew(s);
    }
  }

  lemma InvKept(s: State, i: nat)
    requires Inv(s) && Enabled(s, i)
    ensures Inv(Apply(s, i))
    ensures |Apply(s, i).copies| == |s.copies|
  {
    var s' := Apply(s, i);
    assert CopyOk(s, i);
    forall o | 0 <= o < |s'.values|
      ensures OneToken(s', o)
    {
      TokenKept(s, i, o);
    }
    forall j | 0 <= j < |s.copies|
      ensures CopyOk(s', j)
      ensures j != i && Active(s'.copies[i]) && Active(s'.copies[j]) ==> !(s'.copies[i].creator && s'.copies[j].creator)
    {
      assert CopyOk(s, j);
    }
  }

  lemma {:induction false} InvAlways(s: State, run: seq<nat>)
    requires Inv(s) && ValidRun(s, run)
    ensures Inv(Exec(s, run)) && |Exec(s, run).copies| == |s.copies|
    decreases |run|
  {
    if run != [] {
      InvKept(s, run[0]);
      InvAlways(Apply(s, run[0]), run[1..]);
    }
  }

  // ---- when copies exclude each other ----

  /** Two copies are in their critical sections at once. */
  ghost predicate Overlap(s: State) {
    exists i, j :: 0 <= i < j < |s.copies| && s.copies[i].pc == Inside && s.copies[j].pc == Inside
  }

  /** The semaphore copy c uses, or will use if it opens the file now. */
  function Target(s: State, c: Copy): Option<nat> {
    if Uses(c) then Some(c.obj) else if c.pc == Begin || c.pc == Opening then s.name else None
  }

  /** Nobody uses, or would open, another semaphore than a copy between opening and posting. */
  ghost predicate Shared(s: State) {
    forall i, j :: 0 <= i < |s.copies| && 0 <= j < |s.copies| && Uses(s.copies[i]) && Target(s, s.copies[j]).Some?
      ==> Target(s, s.copies[j]).value == s.copies[i].obj
  }

  /** A semaphore is created while an earlier copy has still to get in or to get out. */
  ghost predicate Overtakes(s: State, i: nat)
    requires Enabled(s, i)
  {
    s.copies[i].pc == Begin && s.name == None && exists j :: 0 <= j < |s.copies| && Uses(s.copies[j])
  }

  ghost predicate NoOvertaking(s: State, run: seq<nat>)
    requires ValidRun(s, run)
    decreases |run|
  {
    run != [] ==> !Overtakes(s, run[0]) && NoOvertaking(Apply(s, run[0]), run[1..])
  }

  /** The run creates no further overtaking semaphore and ends with two copies inside. */
  ghost predicate LeadsToOverlap(s: State, run: seq<nat>) {
    ValidRun(s, run) && NoOvertaking(s, run) && Overlap(Exec(s, run))
  }

  /** Copies of one semaphore exclude each other in every state that satisfies the invariant. */
  lemma SameObjectExcludes(s: State, i: nat, j: nat)
    requires Inv(s) && i < j < |s.copies|
    requires s.copies[i].pc == Inside && s.copies[j].pc == Inside
    ensures s.copies[i].obj != s.copies[j].obj
  {
    assert CopyOk(s, i);
    var o := s.copies[i].obj;
    assert OneToken(s, o);
    SumAtLeastTwo(s.copies, InsideOf(o), i, j);
  }

  lemma SharedExcludes(s: State)
    requires Inv(s) && Shared(s)
    ensures !Overlap(s)
  {
    if Overlap(s) {
      var i, j :| 0 <= i < j < |s.copies| && s.copies[i].pc == Inside && s.copies[j].pc == Inside;
      SameObjectExcludes(s, i, j);
      assert false;
    }
  }

  /** A step keeps the one semaphore shared if and only if it does not overtake. */
  lemma SharedIffNoOvertaking(s: State, i: nat)
    requires Inv(s) && Shared(s) && Enabled(s, i)
    ensures Shared(Apply(s, i)) <==> !Overtakes(s, i)
  {
    var s' := Apply(s, i);
    assert CopyOk(s, i);
    if Overtakes(s, i) {
      var j :| 0 <= j < |s.copies| && Uses(s.copies[j]);
      assert CopyOk(s, j) && s'.copies[j] == s.copies[j];
      assert Target(s', s'.copies[i]) == Some(|s.values|);
    } else {
      forall j, k | 0 <= j < |s.copies| && 0 <= k < |s.copies| && Uses(s'.copies[j]) && Target(s', s'.copies[k]).Some?
        ensures Target(s', s'.copies[k]).value == s'.copies[j].obj
      {
        OnlyOwnTargetMoves(s, i, j);
        OnlyOwnTargetMoves(s, i, k);
      }
    }
  }

  /** Without overtaking, a step changes no target, except that a finished copy or an unlink takes some away. */
  lemma OnlyOwnTargetMoves(s: State, i: nat, j: nat)
    requires Inv(s) && Enabled(s, i) && !Overtakes(s, i) && j < |s.copies|
    ensures var s' := Apply(s, i);
            && (s.copies[i].pc == Begin && s.name == None ==> (Uses(s'.copies[j]) <==> j == i))
            && (!(s.copies[i].pc == Begin && s.name == None) ==>
                  Target(s', s'.copies[j]) == None || Target(s', s'.copies[j]) == Target(s, s.copies[j]))
            && (s'.copies[j] == s.copies[j] || j == i)
  {
    assert CopyOk(s, i) && CopyOk(s, j);
  }

  lemma {:induction false} SharedAlways(s: State, run: seq<nat>)
    requires Inv(s) && Shared(s) && ValidRun(s, run) && NoOvertaking(s, run)
    ensures Inv(Exec(s, run)) && Shared(Exec(s, run))
    decreases |run|
  {
    if run != [] {
      SharedIffNoOvertaking(s, run[0]);
      InvKept(s, run[0]);
      SharedAlways(Apply(s, run[0]), run[1..]);
    }
  }

  /** Someone is inside semaphore o, or copy i, which waits for it, can go inside at once. */
  lemma GetsInside(s: State, i: nat) returns (k: nat)
    requires Inv(s) && i < |s.copies| && Uses(s.copies[i])
    ensures k < |s.copies| && s.copies[k].obj == s.copies[i].obj
    ensures s.copies[k].pc == Inside || (s.copies[k].pc == Waiting && Enabled(s, k))
  {
    assert CopyOk(s, i);
    var o := s.copies[i].obj;
    assert OneToken(s, o);
    if s.copies[i].pc == Inside || 0 < s.values[o] {
      k := i;
    } else {
      k := SumPositiveWitness(s.copies, InsideOf(o));
    }
  }

  /** Let copy i's semaphore be entered, by i or by the one that is inside already. */
  lemma Enter(s: State, i: nat) returns (run: seq<nat>, k: nat)
    requires Inv(s) && i < |s.copies| && Uses(s.copies[i])
    ensures ValidRun(s, run) && NoOvertaking(s, run)
    ensures var s' := Exec(s, run);
            && Inv(s') && |s'.copies| == |s.copies| && k < |s.copies|
            && s'.copies[k].pc == Inside && s'.copies[k].obj == s.copies[k].obj == s.copies[i].obj
            && (forall j :: 0 <= j < |s.copies| && j != k ==> s'.copies[j] == s.copies[j])
  {
    k := GetsInside(s, i);
    if s.copies[k].pc == Inside {
      run := [];
    } else {
      run := [k];
      InvKept(s, k);
      var rest := run[1..];
      assert ValidRun(Apply(s, k), rest) && Exec(Apply(s, k), rest) == Apply(s, k);
    }
  }

  lemma {:induction false} Joins(s: State, run: seq<nat>, more: seq<nat>)
    requires ValidRun(s, run) && ValidRun(Exec(s, run), more)
    ensures ValidRun(s, run + more) && Exec(s, run + more) == Exec(Exec(s, run), more)
    ensures NoOvertaking(s, run) && NoOvertaking(Exec(s, run), more) ==> NoOvertaking(s, run + more)
    decreases |run|
  {
    if run == [] {
      assert run + more == more;
    } else {
      Joins(Apply(s, run[0]), run[1..], more);
      assert (run + more)[1..] == run[1..] + more;
    }
  }

  /** If two copies in use have different semaphores, they or their holders can be inside together. */
  lemma UnsharedOverlaps(s: State, i: nat, j: nat) returns (run: seq<nat>)
    requires Inv(s) && i < |s.copies| && j < |s.copies|
    requires Uses(s.copies[i]) && Uses(s.copies[j]) && s.copies[i].obj != s.copies[j].obj
    ensures LeadsToOverlap(s, run)
  {
    var first, k := Enter(s, i);
    var mid := Exec(s, first);
    assert k != j;
    var second, m := Enter(mid, j);
    Joins(s, first, second);
    run := first + second;
    var s' := Exec(s, run);
    assert s'.copies[k].pc == Inside && s'.copies[m].pc == Inside && k != m;
    assert Overlap(s') by {
      if m < k {
        assert s'.copies[m].pc == Inside && s'.copies[k].pc == Inside;
      }
    }
  }

  /** Copy j opens the file that exists. */
  lemma Opens(s: State, j: nat) returns (run: seq<nat>)
    requires Inv(s) && j < |s.copies| && s.name.Some? && (s.copies[j].pc == Begin || s.copies[j].pc == Opening)
    ensures ValidRun(s, run) && NoOvertaking(s, run)
    ensures Inv(Exec(s, run)) && Exec(s, run).copies == s.copies[j := Copy(Waiting, s.name.value, false)]
    decreases s.copies[j].pc == Begin
  {
    InvKept(s, j);
    var s' := Apply(s, j);
    var rest := [];
    if s.copies[j].pc == Begin {
      rest := Opens(s', j);
    }
    run := [j] + rest;
    assert run[1..] == rest;
  }

  lemma UnsharedOverlapsAhead(s: State) returns (run: seq<nat>)
    requires Inv(s) && !Shared(s)
    ensures LeadsToOverlap(s, run)
  {
    var i, j :| 0 <= i < |s.copies| && 0 <= j < |s.copies| && Uses(s.copies[i])
                && Target(s, s.copies[j]).Some? && Target(s, s.copies[j]).value != s.copies[i].obj;
    if Uses(s.copies[j]) {
      run := UnsharedOverlaps(s, i, j);
    } else {
      var open := Opens(s, j);
      var more := UnsharedOverlaps(Exec(s, open), i, j);
      Joins(s, open, more);
      run := open + more;
    }
  }

  /**
    The exact condition, in any reachable state: two copies can come to be inside together without a further
    overtaking creation if and only if the copies in use, or about to open, have different semaphores.
   */
  lemma SharedIffNoOverlapAhead(s: State)
    requires Inv(s)
    ensures Shared(s) <==> !exists run :: LeadsToOverlap(s, run)
  {
    if Shared(s) {
      forall run
        ensures !LeadsToOverlap(s, run)
      {
        if ValidRun(s, run) && NoOvertaking(s, run) {
          SharedAlways(s, run);
          SharedExcludes(Exec(s, run));
        }
      }
    } else {
      var run := UnsharedOverlapsAhead(s);
    }
  }

  lemma InitShared(n: nat)
    ensures Inv(Init(n)) && Shared(Init(n))
  {
  }

  /** Any number of copies exclude each other in every run in which no creation overtakes an earlier copy. */
  lemma CopiesExclude(n: nat, run: seq<nat>)
    requires ValidRun(Init(n), run) && NoOvertaking(Init(n), run)
    ensures !Overlap(Exec(Init(n), run))
  {
    InitShared(n);
    SharedAlways(Init(n), run);
    SharedExcludes(Exec(Init(n), run));
  }

  /** Any overtaking creation makes it possible for two copies to be inside together. */
  lemma OvertakingOverlaps(s: State, i: nat) returns (run: seq<nat>)
    requires Inv(s) && Enabled(s, i) && Overtakes(s, i)
    ensures ValidRun(Apply(s, i), run) && Overlap(Exec(Apply(s, i), run))
  {
    var j :| 0 <= j < |s.copies| && Uses(s.copies[j]);
    assert CopyOk(s, j) && Apply(s, i).copies[j] == s.copies[j];
    InvKept(s, i);
    run := UnsharedOverlaps(Apply(s, i), i, j);
  }

  // ---- who waits and who fails ----

  /** Only a copy inside the same semaphore keeps a copy waiting. */
  lemma BlockedIff(n: nat, run: seq<nat>, i: nat)
    requires ValidRun(Init(n), run) && i < n
    ensures |Exec(Init(n), run).copies| == n
    ensures var s := Exec(Init(n), run);
            var c := s.copies[i];
            Enabled(s, i) <==>
              && c.pc != Gone && c.pc != Failed
              && (c.pc == Waiting ==>
                    forall j :: 0 <= j < n ==> !(s.copies[j].pc == Inside && s.copies[j].obj == c.obj))
  {
    var s := Exec(Init(n), run);
    InitShared(n);
    InvAlways(Init(n), run);
    assert CopyOk(s, i);
    if s.copies[i].pc == Waiting {
      var o := s.copies[i].obj;
      assert OneToken(s, o);
      if 0 < s.values[o] {
        forall j | 0 <= j < n
          ensures InsideOf(o)(s.copies[j]) == 0
        {
          SumAtLeast(s.copies, InsideOf(o), j);
        }
      } else {
        var j := SumPositiveWitness(s.copies, InsideOf(o));
      }
    }
  }

  /** A copy that has opened its semaphore never fails, and one that has failed stays failed. */
  lemma {:induction false} OutcomeStays(s: State, run: seq<nat>, i: nat)
    requires Inv(s) && ValidRun(s, run) && i < |s.copies|
    requires s.copies[i].pc != Begin && s.copies[i].pc != Opening
    ensures |Exec(s, run).copies| == |s.copies|
    ensures Exec(s, run).copies[i].pc == Failed <==> s.copies[i].pc == Failed
    ensures s.copies[i].pc != Failed ==> Active(Exec(s, run).copies[i]) || Exec(s, run).copies[i].pc == Gone
    decreases |run|
  {
    if run != [] {
      InvKept(s, run[0]);
      OutcomeStays(Apply(s, run[0]), run[1..], i);
    }
  }

  /** A copy that lost the race to create fails if and only if the file is gone again when it opens it. */
  lemma FailsIffUnlinked(s: State, i: nat, run: seq<nat>)
    requires Inv(s) && i < |s.copies| && s.copies[i].pc == Opening
    ensures Enabled(s, i)
    ensures s.name.Some? ==> Apply(s, i).copies[i] == Copy(Waiting, s.name.value, false)
    ensures ValidRun(Apply(s, i), run) ==>
              && |Exec(Apply(s, i), run).copies| == |s.copies|
              && (Exec(Apply(s, i), run).copies[i].pc == Failed <==> s.name == None)
  {
    InvKept(s, i);
    if ValidRun(Apply(s, i), run) {
      OutcomeStays(Apply(s, i), run, i);
    }
  }

  // ---- it happens ----

  ghost predicate Reaches(s: State, run: seq<nat>, s': State) {
    ValidRun(s, run) && Exec(s, run) == s'
  }

  lemma Then(s: State, run: seq<nat>, mid: State, i: nat, s': State) returns (longer: seq<nat>)
    requires Reaches(s, run, mid) && Enabled(mid, i) && Apply(mid, i) == s'
    ensures Reaches(s, longer, s')
  {
    var one := [i];
    var rest := one[1..];
    assert ValidRun(s', rest) && Exec(s', rest) == s';
    Joins(s, run, one);
    longer := run + one;
  }

  function Three(name: Option<nat>, value: int, first: Pc, second: Copy): State {
    State(name, [value], [Copy(first, 0, true), second, Copy(Begin, 0, false)])
  }

  /** Copy 0 creates the semaphore and goes inside. */
  lemma FirstGetsIn() returns (run: seq<nat>)
    ensures Reaches(Init(3), run, Three(Some(0), 0, Inside, Copy(Begin, 0, false)))
  {
    var start := Copy(Begin, 0, false);
    assert Init(3).copies == [start, start, start];
    run := Then(Init(3), [], Init(3), 0, Three(Some(0), 1, Waiting, start));
    run := Then(Init(3), run, Three(Some(0), 1, Waiting, start), 0, Three(Some(0), 0, Inside, start));
  }

  /** Copy 1 opens it, and copy 0 posts and unlinks the file. */
  lemma FirstLeaves(s0: State, before: seq<nat>) returns (run: seq<nat>)
    requires Reaches(s0, before, Three(Some(0), 0, Inside, Copy(Begin, 0, false)))
    ensures Reaches(s0, run, Three(None, 1, Gone, Copy(Waiting, 0, false)))
  {
    var start, opening, waiting := Copy(Begin, 0, false), Copy(Opening, 0, false), Copy(Waiting, 0, false);
    run := Then(s0, before, Three(Some(0), 0, Inside, start), 1, Three(Some(0), 0, Inside, opening));
    run := Then(s0, run, Three(Some(0), 0, Inside, opening), 1, Three(Some(0), 0, Inside, waiting));
    run := Then(s0, run, Three(Some(0), 0, Inside, waiting), 0, Three(Some(0), 1, Closing, waiting));
    run := Then(s0, run, Three(Some(0), 1, Closing, waiting), 0, Three(None, 1, Gone, waiting));
  }

  /** Copy 2 then creates a second semaphore, and copies 1 and 2 can be inside together. */
  lemma ThreeCopiesOverlap() returns (run: seq<nat>)
    ensures ValidRun(Init(3), run) && Overlap(Exec(Init(3), run))
  {
    var before := FirstGetsIn();
    before := FirstLeaves(Init(3), before);
    var s := Three(None, 1, Gone, Copy(Waiting, 0, false));
    InitShared(3);
    InvAlways(Init(3), before);
    assert Uses(s.copies[1]);
    var more := OvertakingOverlaps(s, 2);
    run := Then(Init(3), before, s, 2, Apply(s, 2));
    Joins(Init(3), run, more);
    run := run + more;
  }
}
