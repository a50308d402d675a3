/**
  Concrete runs of thread/semaphore/sem.c that show two limits of the semaphore: an undisciplined
  client can strand a sleeper, and enough posts wrap the unsigned count round to 0.
 */
module SemaphoreWitnesses {
  import opened Options
  import opened Semaphore
  import opened SemaphoreLiveness
  import A = AtomicSemaphore

  ghost predicate Reaches(s: State, run: seq<Action>, s': State) {
    ValidRun(s, run) && Exec(s, run) == s'
  }

  lemma {:induction false} Joins(s: State, run: seq<Action>, mid: State, more: seq<Action>, s': State)
    requires Reaches(s, run, mid) && Reaches(mid, more, s')
    ensures Reaches(s, run + more, s')
    decreases |run|
  {
    if run == [] {
      assert run + more == more;
    } else {
      Joins(Apply(s, run[0]), run[1..], mid, more, s');
      assert (run + more)[1..] == run[1..] + more;
    }
  }

  lemma One(s: State, a: Action)
    requires Enabled(s, a)
    ensures Reaches(s, [a], Apply(s, a))
  {
    var rest: seq<Action> := [a][1..];
    assert Exec(Apply(s, a), rest) == Apply(s, a);
  }

  lemma Two(s: State, a: Action, b: Action)
    requires Enabled(s, a) && Enabled(Apply(s, a), b)
    ensures Reaches(s, [a, b], Apply(Apply(s, a), b))
  {
    var m := Apply(s, a);
    One(s, a);
    One(m, b);
    Joins(s, [a], m, [b], Apply(m, b));
    assert [a] + [b] == [a, b];
  }

  lemma Four(s: State, a: Action, b: Action, c: Action, d: Action)
    requires Enabled(s, a) && Enabled(Apply(s, a), b)
    requires var m := Apply(Apply(s, a), b); Enabled(m, c) && Enabled(Apply(m, c), d)
    ensures var m := Apply(Apply(s, a), b); Reaches(s, [a, b, c, d], Apply(Apply(m, c), d))
  {
    var m := Apply(Apply(s, a), b);
    Two(s, a, b);
    Two(m, c, d);
    Joins(s, [a, b], m, [c, d], Apply(Apply(m, c), d));
    assert [a, b] + [c, d] == [a, b, c, d];
  }

  /** Client i's call has returned, leaving count at `count`. */
  function Returned(s: State, i: nat, count: nat): State
    requires i < |s.threads| && s.threads[i].todo != []
  {
    State(count, None, s.threads[i := Thread(Idle, s.threads[i].todo[1..])])
  }

  predicate Calling(s: State, i: nat, op: Op) {
    && s.owner == None && i < |s.threads|
    && s.threads[i].todo != [] && s.threads[i].todo[0] == op
    && (s.threads[i].pc == Idle || (s.threads[i].pc == Woken && op == A.Wait))
  }

  lemma WaitTakes(s: State, i: nat)
    requires Calling(s, i, A.Wait) && 0 < s.count
    ensures Reaches(s, [Step(i), Step(i), Step(i), Step(i)], Returned(s, i, s.count - 1))
  {
    Four(s, Step(i), Step(i), Step(i), Step(i));
  }

  lemma WaitSleeps(s: State, i: nat)
    requires Calling(s, i, A.Wait) && s.count == 0
    ensures Reaches(s, [Step(i), Step(i)], Move(s, i, Asleep))
  {
    Two(s, Step(i), Step(i));
  }

  lemma PostAdds(s: State, i: nat)
    requires Calling(s, i, A.Post) && s.count != 0
    ensures Reaches(s, [Step(i), Step(i), Step(i), Step(i)], Returned(s, i, (s.count + 1) % A.MODULUS))
  {
    Four(s, Step(i), Step(i), Step(i), Step(i));
  }

  lemma PostWakes(s: State, i: nat, j: nat)
    requires Calling(s, i, A.Post) && s.count == 0
    requires j < |s.threads| && s.threads[j].pc == Asleep
    ensures Reaches(s, [Step(i), Step(i), Signal(i, {j}), Step(i)] + [Step(i)], Move(Returned(s, i, 1), j, Woken))
  {
    var m := Move(s.(owner := Some(i)), i, PSignal);
    assert j in Sleepers(m.threads);
    Four(s, Step(i), Step(i), Signal(i, {j}), Step(i));
    var last := Apply(Apply(m, Signal(i, {j})), Step(i));
    var s' := Move(Returned(s, i, 1), j, Woken);
    assert Apply(last, Step(i)).threads == s'.threads;
    One(last, Step(i));
    Joins(s, [Step(i), Step(i), Signal(i, {j}), Step(i)], last, [Step(i)], s');
  }

  // ---- a lost wake-up ----

  /** Two waiters, and a third client that waits once and posts twice. */
  const CARELESS: seq<seq<Op>> := [[A.Wait], [A.Wait], [A.Wait, A.Post, A.Post]]

  function Three(count: nat, pc0: Pc, todo0: seq<Op>, todo2: seq<Op>): State {
    State(count, None, [Thread(pc0, todo0), Thread(Asleep, [A.Wait]), Thread(Idle, todo2)])
  }

  /**
    The third client's second post finds count == 1 and does not signal. Client 1 then sleeps
    with count == 1 and nobody left to wake it.
   */
  lemma CarelessClientIsStranded() returns (run: seq<Action>)
    ensures Reaches(Init(CARELESS), run, Three(1, Idle, [], []))
    ensures Stuck(Three(1, Idle, [], []))
  {
    var asleep := BothFallAsleep();
    var stranded := SecondIsForgotten();
    Joins(Init(CARELESS), asleep, Three(0, Asleep, [A.Wait], [A.Post, A.Post]), stranded, Three(1, Idle, [], []));
    run := asleep + stranded;
  }

  lemma BothFallAsleep() returns (run: seq<Action>)
    ensures Reaches(Init(CARELESS), run, Three(0, Asleep, [A.Wait], [A.Post, A.Post]))
  {
    var s0 := Init(CARELESS);
    WaitTakes(s0, 2);
    var s1 := Returned(s0, 2, 0);
    WaitSleeps(s1, 0);
    var s2 := Move(s1, 0, Asleep);
    WaitSleeps(s2, 1);
    var s3 := Three(0, Asleep, [A.Wait], [A.Post, A.Post]);
    assert Move(s2, 1, Asleep).threads == s3.threads;
    var one, two, three := [Step(2), Step(2), Step(2), Step(2)], [Step(0), Step(0)], [Step(1), Step(1)];
    Joins(s0, one, s1, two, s2);
    Joins(s0, one + two, s2, three, s3);
    run := one + two + three;
  }

  lemma SecondIsForgotten() returns (run: seq<Action>)
    ensures Reaches(Three(0, Asleep, [A.Wait], [A.Post, A.Post]), run, Three(1, Idle, [], []))
  {
    var s3 := Three(0, Asleep, [A.Wait], [A.Post, A.Post]);
    PostWakes(s3, 2, 0);
    var s4 := Three(1, Woken, [A.Wait], [A.Post]);
    assert Move(Returned(s3, 2, 1), 0, Woken).threads == s4.threads;
    PostAdds(s4, 2);
    var s5 := Three(2, Woken, [A.Wait], []);
    assert Returned(s4, 2, 2).threads == s5.threads;
    WaitTakes(s5, 0);
    var s6 := Three(1, Idle, [], []);
    assert s5.threads[0].todo[1..] == [];
    assert Returned(s5, 0, 1).threads == s6.threads;
    var post := [Step(2), Step(2), Signal(2, {0}), Step(2)] + [Step(2)];
    var again, take := [Step(2), Step(2), Step(2), Step(2)], [Step(0), Step(0), Step(0), Step(0)];
    Joins(s3, post, s4, again, s5);
    Joins(s3, post + again, s5, take, s6);
    run := post + again + take;
  }

  // ---- wrap-around of the unsigned count ----

  function Repeat(k: nat): seq<Op> {
    if k == 0 then [] else [A.Post] + Repeat(k - 1)
  }

  function OnlyPosts(count: nat, k: nat): State {
    State(count, None, [Thread(Idle, Repeat(k))])
  }

  /** Posts alone take count up to the modulus and round to 0. */
  lemma {:induction false} PostsWrapAround(count: nat, k: nat) returns (run: seq<Action>)
    requires 1 <= count && 1 <= k && count + k == A.MODULUS
    ensures Reaches(OnlyPosts(count, k), run, OnlyPosts(0, 0))
    decreases k
  {
    var s := OnlyPosts(count, k);
    PostAdds(s, 0);
    run := [Step(0), Step(0), Step(0), Step(0)];
    assert Repeat(k)[1..] == Repeat(k - 1);
    assert Returned(s, 0, (count + 1) % A.MODULUS) == OnlyPosts((count + 1) % A.MODULUS, k - 1);
    if k > 1 {
      var more := PostsWrapAround(count + 1, k - 1);
      Joins(s, run, OnlyPosts(count + 1, k - 1), more, OnlyPosts(0, 0));
      run := run + more;
    }
  }

  /** k posts after `semaphore_create`, up to 2^32 - 2 of them, are all counted. */
  lemma {:induction false} PostsAreCounted(k: nat, j: nat) returns (run: seq<Action>)
    requires j <= k <= 4_294_967_294
    ensures Reaches(Init([Repeat(k)]), run, OnlyPosts(1 + j, k - j))
    decreases j
  {
    if j == 0 {
      assert Init([Repeat(k)]) == OnlyPosts(1, k);
      run := [];
    } else {
      run := PostsAreCounted(k, j - 1);
      var s := OnlyPosts(j, k - j + 1);
      PostAdds(s, 0);
      assert Repeat(k - j + 1)[1..] == Repeat(k - j);
      var more := [Step(0), Step(0), Step(0), Step(0)];
      Joins(Init([Repeat(k)]), run, s, more, OnlyPosts(1 + j, k - j));
      run := run + more;
    }
  }

  /** 2^32 - 1 posts after `semaphore_create` leave count at 0. */
  lemma CreatedSemaphoreWraps(k: nat) returns (run: seq<Action>)
    requires k == 4_294_967_295
    ensures Reaches(Init([Repeat(k)]), run, OnlyPosts(0, 0))
  {
    assert Init([Repeat(k)]) == OnlyPosts(1, k);
    run := PostsWrapAround(1, k);
  }
}
