/**
 When tests with a conflict key in common keep their order: the exact condition on the
 conflict keys, with a run that breaks the order wherever the condition fails.
 */
module SchedulerOvertaking {
  import opened Options
  import opened Sequences
  import opened Scheduler
  import opened SchedulerOrder

  function WithTotal(c: Setup, n: nat): Setup {
    c.(total := n)
  }

  /** A run starts with distinct tests and no more workers than tests. */
  ghost predicate Started(c: Setup, tests: seq<string>, s: State) {
    && OrderedStart(c, tests, s) && NoRepeats(multiset(tests))
    && c.total == |s.pending| && |s.live| <= Max(1, |s.pending|)
  }

  /** In every run under these conflict keys, the tests of the group are sent in the order given. */
  ghost predicate KeepsOrder(c: Setup, p: string -> bool) {
    forall n, tests, s, ms ::
      Started(WithTotal(c, n), tests, s) && Valid(WithTotal(c, n), s, ms) ==>
        Filter(p, Exec(WithTotal(c, n), s, ms).log) <= Filter(p, tests)
  }

  /** At most one test, or rivals that run one at a time and one key to be parked under. */
  ghost predicate Orderly(c: Setup, p: string -> bool) {
    || (forall t, u :: p(t) && p(u) ==> t == u)
    || (OneAtATime(c, p) && OneGate(c, p))
  }

  /******* The condition suffices *******/

  lemma TotalIsIrrelevant(c: Setup, n: nat, p: string -> bool)
    ensures Group(c, p) ==> Group(WithTotal(c, n), p)
    ensures OneAtATime(c, p) ==> OneAtATime(WithTotal(c, n), p)
    ensures OneGate(c, p) ==> OneGate(WithTotal(c, n), p)
  {
    SameRelations(c, n, p);
    SameGates(c, n);
    hide Meet, Rival, SameGate, Keys, Exclusive, Group;
  }

  lemma SameGates(c: Setup, n: nat)
    ensures forall t, u, v, w :: SameGate(WithTotal(c, n), t, u, v, w) <==> SameGate(c, t, u, v, w)
  {
    forall t, u, v, w ensures SameGate(WithTotal(c, n), t, u, v, w) <==> SameGate(c, t, u, v, w) {
      assert HeldBy(WithTotal(c, n), v, w) == HeldBy(c, v, w);
    }
  }

  lemma {:induction false} FilterCount(p: string -> bool, ts: seq<string>, t: string)
    ensures multiset(Filter(p, ts))[t] == if p(t) then multiset(ts)[t] else 0
  {
    if ts != [] {
      FilterCount(p, ts[1..], t);
      assert ts == [ts[0]] + ts[1..];
    }
  }

  /** What was sent is what is running or has finished. */
  ghost predicate Logged(s: State) {
    multiset(s.log) == Gather(s.busy) + s.finished
  }

  lemma StepLogged(c: Setup, s: State, m: Message)
    requires Logged(s) && Enabled(s, m)
    ensures Logged(Step(c, s, m))
  {
    FreedLogged(s, m);
    var d := TakeSequential(Freed(s, m));
    assert Logged(d);
    hide Logged;
    DispatchLogged(c, d, m.worker);
  }

  lemma FreedLogged(s: State, m: Message)
    requires Logged(s) && Enabled(s, m)
    ensures Logged(Freed(s, m))
  {
    if m.Finished? {
      GatherSplit(s.busy, m.worker);
    }
  }

  lemma DispatchLogged(c: Setup, s: State, i: int)
    requires Logged(s) && i in s.live && i !in s.busy
    ensures Logged(Dispatch(c, s, i))
  {
    hide Compose, Claim, Undispatched, Gather;
    DispatchConserves(c, s, i);
    var d, files := Dispatch(c, s, i), Batch(c, s).files;
    assert d.log == s.log + files || (files == [] && d.log == s.log);
  }

  lemma {:induction false} RunLogged(c: Setup, s: State, ms: seq<Message>)
    requires Logged(s) && Valid(c, s, ms)
    ensures Logged(Exec(c, s, ms))
    decreases |ms|
  {
    if ms != [] {
      StepLogged(c, s, ms[0]);
      RunLogged(c, Step(c, s, ms[0]), ms[1..]);
    }
  }

  /** No run sends a test more often than it was given. */
  lemma SentWithinGiven(c: Setup, tests: seq<string>, s: State, ms: seq<Message>)
    requires Start(c, tests, s) && Valid(c, s, ms)
    ensures multiset(Exec(c, s, ms).log) <= multiset(tests)
  {
    hide Invariant, Step;
    StartInvariant(c, tests, s);
    RunInvariant(c, s, ms);
    assert Gather(s.busy) == multiset{};
    RunLogged(c, s, ms);
  }

  /** A single test has nothing to be out of order with. */
  lemma OneTestInOrder(p: string -> bool, log: seq<string>, tests: seq<string>)
    requires forall t, u :: p(t) && p(u) ==> t == u
    requires multiset(log) <= multiset(tests) && NoRepeats(multiset(tests))
    ensures Filter(p, log) <= Filter(p, tests)
  {
    FilterSatisfies(p, log);
    FilterSatisfies(p, tests);
    forall t ensures multiset(Filter(p, log))[t] <= multiset(Filter(p, tests))[t] <= 1 {
      FilterCount(p, log, t);
      FilterCount(p, tests, t);
    }
    SameOnes(Filter(p, log), Filter(p, tests));
  }

  lemma SameOnes(x: seq<string>, y: seq<string>)
    requires forall t :: multiset(x)[t] <= multiset(y)[t] <= 1
    requires forall t, u | (t in x || t in y) && (u in x || u in y) :: t == u
    ensures x <= y
  {
    if x != [] {
      assert x[0] in x && x[0] in multiset(x) && x[0] in multiset(y);
      assert x[0] in y && y[0] in y && y[0] == x[0];
      AllTheSame(x, x[0]);
    }
  }

  lemma {:induction false} AllTheSame(x: seq<string>, t: string)
    requires forall u | u in x :: u == t
    ensures multiset(x)[t] == |x|
  {
    if x != [] {
      assert forall u | u in x[1..] :: u in x;
      AllTheSame(x[1..], t);
      assert x == [x[0]] + x[1..] && x[0] in x;
    }
  }

  lemma OrderlyKeepsOrder(c: Setup, p: string -> bool)
    requires Group(c, p) && Orderly(c, p)
    ensures KeepsOrder(c, p)
  {
    forall n, tests, s, ms | Started(WithTotal(c, n), tests, s) && Valid(WithTotal(c, n), s, ms)
      ensures Filter(p, Exec(WithTotal(c, n), s, ms).log) <= Filter(p, tests)
    {
      hide Valid, Exec, Group, OneAtATime, OneGate;
      if forall t, u :: p(t) && p(u) ==> t == u {
        SentWithinGiven(WithTotal(c, n), tests, s, ms);
        OneTestInOrder(p, Exec(WithTotal(c, n), s, ms).log, tests);
      } else {
        TotalIsIrrelevant(c, n, p);
        OrderIsKept(WithTotal(c, n), p, tests, s, ms);
      }
    }
  }

  /******* Taking steps *******/

  lemma ComposePark(c: Setup, h: map<string, int>, rest: seq<string>, t: string, waiting: map<string, seq<string>>,
                    files: seq<string>, size: nat, j: string)
    requires |files| <= size && Blocker(Keys(c, t), h) == Some(j)
    ensures Compose(c, h, Round(rest + [t], waiting, files), size)
            == Compose(c, h, Round(rest, waiting[j := Waiting(waiting, j) + [t]], files), size)
  {
    assert (rest + [t])[..|rest|] == rest;
  }

  lemma ComposeTake(c: Setup, h: map<string, int>, rest: seq<string>, t: string, waiting: map<string, seq<string>>,
                    files: seq<string>, size: nat)
    requires |files| <= size && Blocker(Keys(c, t), h) == None
    ensures Compose(c, h, Round(rest + [t], waiting, files), size)
            == Compose(c, h, Round(rest, waiting, files + [t]), size)
  {
    assert (rest + [t])[..|rest|] == rest;
  }

  /** The state once worker `i` was given the batch of round `r`, or retired. */
  function Given(c: Setup, s: State, i: int, r: Round): State {
    if r.files != [] then
      s.(pending := r.pending, waiting := r.waiting, holders := Claim(c, s.holders, r.files, i),
         inProgress := s.inProgress + 1, busy := s.busy[i := r.files], log := s.log + r.files)
    else s.(pending := r.pending, waiting := r.waiting, live := s.live - {i})
  }

  lemma StepReady(c: Setup, s: State, i: int, size: nat, r: Round)
    requires Enabled(s, Ready(i)) && s.sequential == [] && BatchSize(c, LiveCount(s)) == size
    requires Compose(c, s.holders, Round(s.pending, s.waiting, []), size) == r
    ensures Step(c, s, Ready(i)) == Given(c, s, i, r)
  {
    hide Compose, Claim, BatchSize;
  }

  lemma StepFinished(c: Setup, s: State, i: int, keys: seq<string>, size: nat, d: State, r: Round)
    requires Enabled(s, Finished(i, keys)) && s.sequential == [] && BatchSize(c, LiveCount(s)) == size
    requires d == ReleaseKeys(Finish(s, i), keys)
    requires Compose(c, d.holders, Round(d.pending, d.waiting, []), size) == r
    ensures Step(c, s, Finished(i, keys)) == Given(c, d, i, r)
  {
    hide Compose, Claim, BatchSize, ReleaseKeys;
  }

  lemma {:induction false} RunExtends(c: Setup, s: State, ms: seq<Message>, m: Message)
    requires Valid(c, s, ms) && Enabled(Exec(c, s, ms), m)
    ensures Valid(c, s, ms + [m]) && Exec(c, s, ms + [m]) == Step(c, Exec(c, s, ms), m)
    decreases |ms|
  {
    hide Step, Enabled;
    if ms == [] {
      assert [] + [m] == [m] && [m][1..] == [];
    } else {
      assert (ms + [m])[1..] == ms[1..] + [m];
      RunExtends(c, Step(c, s, ms[0]), ms[1..], m);
    }
  }

  /** The two tests on top of the stack are free and sent to worker `i`. */
  lemma SendPair(c: Setup, s: State, i: int, rest: seq<string>, x: string, y: string)
    requires Enabled(s, Ready(i)) && s.sequential == [] && BatchSize(c, LiveCount(s)) == 1
    requires s.pending == rest + [y] + [x]
    requires Blocker(Keys(c, x), s.holders) == None && Blocker(Keys(c, y), s.holders) == None
    ensures Step(c, s, Ready(i)) == Given(c, s, i, Round(rest, s.waiting, [x, y]))
  {
    hide Blocker, Given, Step, BatchSize, Keys;
    ComposeTake(c, s.holders, rest + [y], x, s.waiting, [], 1);
    ComposeTake(c, s.holders, rest, y, s.waiting, [] + [x], 1);
    assert [] + [x] == [x] && [x] + [y] == [x, y];
    var r := Round(rest, s.waiting, [x, y]);
    assert Compose(c, s.holders, r, 1) == r;
    hide Compose;
    StepReady(c, s, i, 1, r);
  }

  /******* Releasing keys *******/

  lemma {:induction false} ReleaseNothing(s: State, keys: seq<string>)
    requires forall k | k in keys :: k !in s.waiting
    ensures ReleaseKeys(s, keys).pending == s.pending
    decreases |keys|
  {
    if keys != [] {
      assert keys[0] !in s.waiting && s.pending + Reverse([]) == s.pending;
      ReleaseNothing(ReleaseKey(s, keys[0]), keys[1..]);
    }
  }

  /** Only `j` of the released keys has tests waiting. */
  lemma {:induction false} ReleaseOnly(s: State, keys: seq<string>, j: string)
    requires j in keys && j in s.waiting && forall k | k in keys && k != j :: k !in s.waiting
    ensures ReleaseKeys(s, keys).pending == s.pending + Reverse(s.waiting[j])
    decreases |keys|
  {
    if keys[0] == j {
      ReleaseNothing(ReleaseKey(s, j), keys[1..]);
    } else {
      assert keys[0] !in s.waiting && s.pending + Reverse([]) == s.pending;
      ReleaseOnly(ReleaseKey(s, keys[0]), keys[1..], j);
    }
  }

  /** Tests wait for `j` and `k`, and `j` is released first. */
  lemma {:induction false} ReleaseBoth(s: State, keys: seq<string>, j: string, k: string, a: nat, b: nat)
    requires a < b < |keys| && keys[a] == j && keys[b] == k && j != k
    requires forall m, n | 0 <= m < n < |keys| :: keys[m] != keys[n]
    requires j in s.waiting && k in s.waiting && forall x | x in keys && x != j && x != k :: x !in s.waiting
    ensures ReleaseKeys(s, keys).pending == s.pending + Reverse(s.waiting[j]) + Reverse(s.waiting[k])
    decreases |keys|
  {
    if a == 0 {
      assert keys[1..][b - 1] == k;
      ReleaseOnly(ReleaseKey(s, j), keys[1..], k);
    } else {
      assert keys[0] != j && keys[0] != k && keys[0] in keys;
      assert s.pending + Reverse([]) == s.pending;
      assert keys[1..][a - 1] == j && keys[1..][b - 1] == k;
      ReleaseBoth(ReleaseKey(s, keys[0]), keys[1..], j, k, a - 1, b - 1);
    }
  }

  /******* Where the order breaks *******/

  function Workers(n: nat): (live: set<int>)
    ensures |live| == n && forall i :: i in live <==> 1 <= i <= n
  {
    if n == 0 then {} else Workers(n - 1) + {n}
  }

  /** The tests are stacked and one worker per test is started. */
  function StartOf(tests: seq<string>): State {
    State(Reverse(tests), [], map[], map[], Workers(|tests|), 0, map[], [], multiset{})
  }

  lemma StartOfTests(c: Setup, tests: seq<string>)
    requires tests != [] && c.total == |tests| && NoRepeats(multiset(tests))
    requires forall t | t in tests :: !Exclusive(c, t)
    ensures Started(c, tests, StartOf(tests))
  {
    NoneExclusive(c, tests);
    ReverseMultiset(tests);
    assert 1 in StartOf(tests).live;
  }

  lemma {:induction false} NoneExclusive(c: Setup, tests: seq<string>)
    requires forall t | t in tests :: !Exclusive(c, t)
    ensures Filter(NotExclusive(c), tests) == tests && Filter(IsExclusive(c), tests) == []
  {
    if tests != [] {
      NoneExclusive(c, tests[1..]);
    }
  }

  /** Two logs that agree up to different tests of the group are not prefixes of each other. */
  lemma OutOfOrder(p: string -> bool, a: seq<string>, x: string, a': seq<string>,
                   b: seq<string>, y: string, b': seq<string>)
    requires Filter(p, a) == Filter(p, b) && p(x) && p(y) && x != y
    ensures !(Filter(p, a + [x] + a') <= Filter(p, b + [y] + b'))
  {
    FilterAppend(p, a + [x], a');
    FilterAppend(p, b + [y], b');
    PushFiltered(p, a, x);
    PushFiltered(p, b, y);
    hide Filter;
    var n := |Filter(p, a)|;
    assert Filter(p, a + [x] + a')[n] == x && Filter(p, b + [y] + b')[n] == y;
  }

  /** The order breaks in this run. */
  ghost predicate Breaks(c: Setup, p: string -> bool, tests: seq<string>, s: State, ms: seq<Message>) {
    && Started(c, tests, s) && Valid(c, s, ms)
    && !(Filter(p, Exec(c, s, ms).log) <= Filter(p, tests))
  }

  ghost predicate AllDifferent(ts: seq<string>) {
    forall i, j | 0 <= i < j < |ts| :: ts[i] != ts[j]
  }

  lemma {:induction false} DifferentOnce(ts: seq<string>)
    requires AllDifferent(ts)
    ensures NoRepeats(multiset(ts))
  {
    if ts != [] {
      DifferentOnce(ts[1..]);
      assert ts == [ts[0]] + ts[1..];
      assert ts[0] !in ts[1..];
    }
  }

  /** A test without keys is in no group and blocked by nothing. */
  lemma FreeOfKeys(c: Setup, p: string -> bool, f: string, h: map<string, int>)
    requires Group(c, p) && Keys(c, f) == []
    ensures !p(f) && !Exclusive(c, f) && Blocker(Keys(c, f), h) == None
  {
    assert p(f) ==> Meet(c, f, f);
  }

  lemma NothingHeld(c: Setup, t: string)
    ensures Blocker(Keys(c, t), map[]) == None
  {
  }

  lemma ReverseFour(a: string, b: string, d: string, e: string)
    ensures Reverse([a, b, d, e]) == [e, d, b, a]
  {
    assert [a, b, d, e][1..] == [b, d, e] && [b, d, e][1..] == [d, e] && [d, e][1..] == [e] && [e][1..] == [];
    assert Reverse([e]) == [e];
    assert Reverse([d, e]) == [e, d];
    assert Reverse([b, d, e]) == [e, d, b];
  }

  lemma ClaimedKeys(c: Setup, v: string, w: string, i: int)
    ensures forall x :: x in Claim(c, map[], [v, w], i) <==> x in Keys(c, v) || x in Keys(c, w)
    ensures forall x :: x in Claim(c, map[], [v, w], i) ==> Claim(c, map[], [v, w], i)[x] == i
  {
    assert v in [v, w] && w in [v, w];
  }

  /** Of four tests `v` and `w` run on worker 1. */
  function PairRuns(c: Setup, v: string, w: string, t: string, u: string): State {
    State([u, t], [], map[], Claim(c, map[], [v, w], 1), Workers(4), 1, map[1 := [v, w]], [v, w], multiset{})
  }

  lemma FirstOfFour(c: Setup, v: string, w: string, t: string, u: string)
    requires c.total == 4 && c.maxBatch >= 1
    ensures var s := StartOf([v, w, t, u]);
            Enabled(s, Ready(1)) && Step(c, s, Ready(1)) == PairRuns(c, v, w, t, u)
  {
    hide Workers, Reverse, Step, Claim;
    var s := StartOf([v, w, t, u]);
    ReverseFour(v, w, t, u);
    NothingHeld(c, v);
    NothingHeld(c, w);
    assert s.pending == [u, t] + [w] + [v];
    SendPair(c, s, 1, [u, t], v, w);
    assert map[][1 := [v, w]] == map[1 := [v, w]];
  }

  /**
   A running test holds back one test of the group and not a later one, which overtakes it:
   `v` shares a key with `t` and none with `u`, and `f` is any test without keys.
   */
  lemma RivalOfOne(c: Setup, p: string -> bool, v: string, t: string, u: string, f: string)
    requires Group(c, p) && p(t) && p(u) && Rival(c, p, v) && Meet(c, v, t) && !Meet(c, v, u)
    requires Keys(c, f) == [] && c.total == 4 && c.maxBatch >= 1
    ensures Breaks(c, p, [v, f, t, u], StartOf([v, f, t, u]), [Ready(1), Ready(2)])
  {
    hide Step, Enabled, PairRuns, Valid, Exec, Started, StartOf, Rival, Meet, Group, Filter;
    var tests, s := [v, f, t, u], StartOf([v, f, t, u]);
    RivalStart(c, p, v, t, u, f);
    FirstOfFour(c, v, f, t, u);
    OvertakenByNext(c, v, t, u, f);
    TwoSteps(c, s, Ready(1), Ready(2));
    assert Exec(c, s, [Ready(1), Ready(2)]).log == [v, f, u];
    OutOfOrder(p, [v, f], u, [], [v, f], t, [u]);
    assert [v, f, u] == [v, f] + [u] + [] && tests == [v, f] + [t] + [u];
  }

  lemma RivalStart(c: Setup, p: string -> bool, v: string, t: string, u: string, f: string)
    requires Group(c, p) && p(t) && p(u) && Rival(c, p, v) && Meet(c, v, t) && !Meet(c, v, u)
    requires Keys(c, f) == [] && c.total == 4
    ensures Started(c, [v, f, t, u], StartOf([v, f, t, u])) && !p(v) && !p(f) && t != u
  {
    var tests := [v, f, t, u];
    FreeOfKeys(c, p, f, map[]);
    assert p(v) ==> Meet(c, v, u);
    assert !Meet(c, f, t);
    assert v != t && v != u && t != u && f != t && f != u && v != f;
    assert !Exclusive(c, t) && !Exclusive(c, u);
    hide Started, StartOf, Rival, Meet, Group, Exclusive, Keys;
    DifferentOnce(tests);
    StartOfTests(c, tests);
  }

  lemma TwoSteps(c: Setup, s: State, m: Message, m': Message)
    requires Enabled(s, m) && Enabled(Step(c, s, m), m')
    ensures Valid(c, s, [m, m']) && Exec(c, s, [m, m']) == Step(c, Step(c, s, m), m')
  {
    hide Step, Enabled;
    assert [m, m'][1..] == [m'] && [m'][1..] == [];
    assert Valid(c, Step(c, s, m), [m']);
    assert Exec(c, Step(c, s, m), [m']) == Step(c, Step(c, s, m), m');
  }

  lemma ComposeNext(c: Setup, h: map<string, int>, t: string, u: string, j: string)
    requires Blocker(Keys(c, t), h) == Some(j) && Blocker(Keys(c, u), h) == None
    ensures Compose(c, h, Round([u, t], map[], []), 1) == Round([], map[j := [t]], [u])
  {
    hide Blocker, Keys;
    assert [u] + [t] == [u, t] && [] + [u] == [u];
    ComposePark(c, h, [u], t, map[], [], 1, j);
    assert Waiting(map[], j) + [t] == [t] && map[][j := [t]] == map[j := [t]];
    ComposeTake(c, h, [], u, map[j := [t]], [], 1);
    var r := Round([], map[j := [t]], [u]);
    assert Compose(c, h, r, 1) == r;
  }

  lemma BlocksOne(c: Setup, v: string, t: string, u: string, f: string) returns (j: string)
    requires Meet(c, v, t) && !Meet(c, v, u) && Keys(c, f) == []
    ensures var h := Claim(c, map[], [v, f], 1);
            Blocker(Keys(c, t), h) == Some(j) && Blocker(Keys(c, u), h) == None
  {
    ClaimedKeys(c, v, f, 1);
    var h := Claim(c, map[], [v, f], 1);
    hide Claim;
    assert Blocker(Keys(c, t), h).Some? && Blocker(Keys(c, u), h).None?;
    j := Blocker(Keys(c, t), h).value;
  }

  lemma OvertakenByNext(c: Setup, v: string, t: string, u: string, f: string)
    requires Meet(c, v, t) && !Meet(c, v, u) && Keys(c, f) == [] && c.total == 4 && c.maxBatch >= 1
    ensures var s := PairRuns(c, v, f, t, u);
            Enabled(s, Ready(2)) && Step(c, s, Ready(2)).log == [v, f, u]
  {
    hide Claim, Blocker, Keys, Meet, Workers, Compose, Step;
    var s := PairRuns(c, v, f, t, u);
    var j := BlocksOne(c, v, t, u, f);
    ComposeNext(c, s.holders, t, u, j);
    StepReady(c, s, 2, 1, Round([], map[j := [t]], [u]));
  }

  /******* Two gates *******/

  lemma SomeBatch(c: Setup, s: State)
    requires s.live != {} && c.maxBatch >= 1
    ensures BatchSize(c, LiveCount(s)) >= 1
  {
  }

  /** The finished worker is given the two tests its keys held back, the later one first. */
  lemma SendBoth(c: Setup, s: State, i: int, keys: seq<string>, t: string, u: string)
    requires Enabled(s, Finished(i, keys)) && s.sequential == [] && c.maxBatch >= 1
    requires var d := ReleaseKeys(Finish(s, i), keys);
             d.pending == [t, u] && d.waiting == map[] && d.holders == map[]
    ensures Step(c, s, Finished(i, keys)).log == s.log + [u, t]
  {
    hide ReleaseKeys, Step, BatchSize;
    var d := ReleaseKeys(Finish(s, i), keys);
    SomeBatch(c, s);
    var size := BatchSize(c, LiveCount(s));
    NothingHeld(c, t);
    NothingHeld(c, u);
    ComposeTake(c, map[], [t], u, map[], [], size);
    ComposeTake(c, map[], [], t, map[], [] + [u], size);
    assert [t] + [u] == [t, u] && [] + [t] == [t] && [] + [u] + [t] == [u, t];
    var r := Round([], map[], [u, t]);
    assert Compose(c, map[], r, size) == r;
    StepFinished(c, s, i, keys, size, d, r);
  }

  lemma ComposeBothPark(c: Setup, h: map<string, int>, t: string, u: string, j: string, k: string)
    requires Blocker(Keys(c, t), h) == Some(j) && Blocker(Keys(c, u), h) == Some(k) && j != k
    ensures Compose(c, h, Round([u, t], map[], []), 1) == Round([], map[j := [t], k := [u]], [])
  {
    hide Blocker, Keys;
    assert [u] + [t] == [u, t] && [] + [u] == [u];
    ComposePark(c, h, [u], t, map[], [], 1, j);
    assert Waiting(map[], j) + [t] == [t] && map[][j := [t]] == map[j := [t]];
    ComposePark(c, h, [], u, map[j := [t]], [], 1, k);
    assert Waiting(map[j := [t]], k) + [u] == [u] && map[j := [t]][k := [u]] == map[j := [t], k := [u]];
  }

  /** The state once `t` and `u` are parked under the keys of `v` and `w`. */
  function BothParked(c: Setup, v: string, w: string, t: string, u: string, j: string, k: string): State {
    State([], [], map[j := [t], k := [u]], Claim(c, map[], [v, w], 1), Workers(4) - {2}, 1,
          map[1 := [v, w]], [v, w], multiset{})
  }

  lemma ParkBoth(c: Setup, v: string, w: string, t: string, u: string, j: string, k: string)
    requires c.total == 4 && c.maxBatch >= 1 && j != k
    requires Blocker(Keys(c, t), Claim(c, map[], [v, w], 1)) == Some(j)
    requires Blocker(Keys(c, u), Claim(c, map[], [v, w], 1)) == Some(k)
    ensures var s := PairRuns(c, v, w, t, u);
            Enabled(s, Ready(2)) && Step(c, s, Ready(2)) == BothParked(c, v, w, t, u, j, k)
  {
    hide Claim, Blocker, Keys, Workers, Compose, Step;
    var s := PairRuns(c, v, w, t, u);
    ComposeBothPark(c, s.holders, t, u, j, k);
    StepReady(c, s, 2, 1, Round([], map[j := [t], k := [u]], []));
  }

  lemma ReleaseParked(c: Setup, v: string, w: string, t: string, u: string, j: string, k: string,
                      keys: seq<string>, a: nat, b: nat)
    requires j != k && Enumerates(keys, Claim(c, map[], [v, w], 1), 1) && a < b < |keys| && keys[a] == j && keys[b] == k
    ensures var s := BothParked(c, v, w, t, u, j, k);
            && Enabled(s, Finished(1, keys))
            && var d := ReleaseKeys(Finish(s, 1), keys);
               d.pending == [t, u] && d.waiting == map[] && d.holders == map[]
  {
    hide Workers, Reverse, Keys, ReleaseKeys;
    var s := BothParked(c, v, w, t, u, j, k);
    AllReleased(c, v, w, keys);
    hide Claim;
    assert Enabled(s, Finished(1, keys));
    ReleaseParkedTests(Finish(s, 1), t, u, j, k, keys, a, b);
  }

  lemma AllReleased(c: Setup, v: string, w: string, keys: seq<string>)
    requires Enumerates(keys, Claim(c, map[], [v, w], 1), 1)
    ensures Claim(c, map[], [v, w], 1) - (set x | x in keys) == map[]
  {
    ClaimedKeys(c, v, w, 1);
    hide Claim, Keys;
    var h := Claim(c, map[], [v, w], 1);
    assert forall x :: x in keys <==> x in h;
  }

  lemma ReleaseParkedTests(f: State, t: string, u: string, j: string, k: string, keys: seq<string>, a: nat, b: nat)
    requires f.pending == [] && f.waiting == map[j := [t], k := [u]] && j != k
    requires a < b < |keys| && keys[a] == j && keys[b] == k
    requires forall m, n | 0 <= m < n < |keys| :: keys[m] != keys[n]
    ensures ReleaseKeys(f, keys).pending == [t, u] && ReleaseKeys(f, keys).waiting == map[]
  {
    ReleaseBoth(f, keys, j, k, a, b);
    hide ReleaseKeys, Reverse;
    ReverseOne(t);
    ReverseOne(u);
    assert [] + [t] + [u] == [t, u];
    assert f.waiting - (set x | x in keys) == map[];
  }

  lemma ReverseOne(t: string)
    ensures Reverse([t]) == [t]
  {
    assert [t][1..] == [];
  }

  /**
   Two running tests park two tests of the group under different keys: whichever of the
   keys is released first, the test it held back is overtaken by the other one.
   */
  lemma TwoGates(c: Setup, p: string -> bool, v: string, w: string, t: string, u: string,
                 keys: seq<string>, a: nat, b: nat)
    requires Group(c, p) && p(t) && p(u) && !Exclusive(c, v) && !Exclusive(c, w) && AllDifferent([v, w, t, u])
    requires c.total == 4 && c.maxBatch >= 1
    requires Enumerates(keys, Claim(c, map[], [v, w], 1), 1) && a < b < |keys|
    requires Blocker(Keys(c, t), Claim(c, map[], [v, w], 1)) == Some(keys[a])
    requires Blocker(Keys(c, u), Claim(c, map[], [v, w], 1)) == Some(keys[b])
    ensures Breaks(c, p, [v, w, t, u], StartOf([v, w, t, u]), [Ready(1), Ready(2)] + [Finished(1, keys)])
  {
    hide Valid, Exec, Started, StartOf, Filter, Claim, Blocker, Enumerates;
    var tests, s, ms := [v, w, t, u], StartOf([v, w, t, u]), [Ready(1), Ready(2)] + [Finished(1, keys)];
    GroupStart(c, p, v, w, t, u);
    TwoGatesRun(c, v, w, t, u, keys, a, b);
    OutOfOrder(p, [v, w], u, [t], [v, w], t, [u]);
    assert [v, w, u, t] == [v, w] + [u] + [t] && tests == [v, w] + [t] + [u];
  }

  lemma GroupStart(c: Setup, p: string -> bool, v: string, w: string, t: string, u: string)
    requires Group(c, p) && p(t) && p(u) && !Exclusive(c, v) && !Exclusive(c, w) && AllDifferent([v, w, t, u])
    requires c.total == 4
    ensures Started(c, [v, w, t, u], StartOf([v, w, t, u])) && t != u
  {
    var tests := [v, w, t, u];
    assert tests[2] != tests[3];
    assert !Exclusive(c, t) && !Exclusive(c, u);
    hide Started, StartOf, Group, Exclusive;
    DifferentOnce(tests);
    StartOfTests(c, tests);
  }

  lemma ReachParked(c: Setup, v: string, w: string, t: string, u: string, j: string, k: string)
    requires c.total == 4 && c.maxBatch >= 1 && j != k
    requires Blocker(Keys(c, t), Claim(c, map[], [v, w], 1)) == Some(j)
    requires Blocker(Keys(c, u), Claim(c, map[], [v, w], 1)) == Some(k)
    ensures var s := StartOf([v, w, t, u]);
            Valid(c, s, [Ready(1), Ready(2)]) && Exec(c, s, [Ready(1), Ready(2)]) == BothParked(c, v, w, t, u, j, k)
  {
    hide Step, Enabled, PairRuns, Valid, Exec, StartOf, Claim, Blocker, BothParked;
    FirstOfFour(c, v, w, t, u);
    ParkBoth(c, v, w, t, u, j, k);
    TwoSteps(c, StartOf([v, w, t, u]), Ready(1), Ready(2));
  }

  lemma TwoGatesRun(c: Setup, v: string, w: string, t: string, u: string, keys: seq<string>, a: nat, b: nat)
    requires c.total == 4 && c.maxBatch >= 1
    requires Enumerates(keys, Claim(c, map[], [v, w], 1), 1) && a < b < |keys|
    requires Blocker(Keys(c, t), Claim(c, map[], [v, w], 1)) == Some(keys[a])
    requires Blocker(Keys(c, u), Claim(c, map[], [v, w], 1)) == Some(keys[b])
    ensures var s, ms := StartOf([v, w, t, u]), [Ready(1), Ready(2)] + [Finished(1, keys)];
            Valid(c, s, ms) && Exec(c, s, ms).log == [v, w, u, t]
  {
    hide Step, Enabled, Valid, Exec, StartOf, Claim, Blocker, BothParked, ReleaseKeys, Finish;
    var j, k := keys[a], keys[b];
    var q := BothParked(c, v, w, t, u, j, k);
    ReachParked(c, v, w, t, u, j, k);
    ReleaseParked(c, v, w, t, u, j, k, keys, a, b);
    hide Enumerates;
    ParkedFields(c, v, w, t, u, j, k);
    SendBoth(c, q, 1, keys, t, u);
    RunExtends(c, StartOf([v, w, t, u]), [Ready(1), Ready(2)], Finished(1, keys));
  }

  lemma ParkedFields(c: Setup, v: string, w: string, t: string, u: string, j: string, k: string)
    ensures var s := BothParked(c, v, w, t, u, j, k); s.sequential == [] && s.log == [v, w]
  {
  }

  /******* Rivals on two workers *******/

  /**
   `v` and `w` can run side by side and each holds back both tests of the group: `t` waits
   for key `a` of `v`, and `u`, like `t` once `v` is done, for key `j` of `w`. The tests `f`
   and `g` have no keys.
   */
  datatype Scene = Scene(c: Setup, v: string, w: string, t: string, u: string, f: string, g: string,
                         a: string, j: string)

  function Hold(c: Setup, v: string, i: int): map<string, int> {
    map x | x in Keys(c, v) :: i
  }

  ghost predicate SceneOk(x: Scene) {
    && x.c.total == 6 && x.c.maxBatch >= 1 && Keys(x.c, x.f) == [] && Keys(x.c, x.g) == []
    && !Meet(x.c, x.v, x.w) && x.j in Keys(x.c, x.w)
    && Blocker(Keys(x.c, x.t), Hold(x.c, x.v, 1)) == Some(x.a)
    && Blocker(Keys(x.c, x.u), Hold(x.c, x.v, 1) + Hold(x.c, x.w, 2)) == Some(x.j)
    && Blocker(Keys(x.c, x.t), Hold(x.c, x.w, 2)) == Some(x.j)
  }

  function SceneTests(x: Scene): seq<string> {
    [x.v, x.f, x.t, x.w, x.g, x.u]
  }

  /** `v` runs on worker 1. */
  function FirstRuns(x: Scene): State {
    State([x.u, x.g, x.w, x.t], [], map[], Hold(x.c, x.v, 1), Workers(6), 1,
          map[1 := [x.v, x.f]], [x.v, x.f], multiset{})
  }

  /** `t` waits for `v`, and `w` runs on worker 2. */
  function BothRun(x: Scene): State {
    State([x.u], [], map[x.a := [x.t]], Hold(x.c, x.v, 1) + Hold(x.c, x.w, 2), Workers(6), 2,
          map[1 := [x.v, x.f], 2 := [x.w, x.g]], [x.v, x.f, x.w, x.g], multiset{})
  }

  /** `u` waits for `w`. */
  function BothWait(x: Scene): State {
    State([], [], map[x.a := [x.t], x.j := [x.u]], Hold(x.c, x.v, 1) + Hold(x.c, x.w, 2), Workers(6) - {3}, 2,
          map[1 := [x.v, x.f], 2 := [x.w, x.g]], [x.v, x.f, x.w, x.g], multiset{})
  }

  /** `t` waits for `w` behind `u`. */
  function SecondRuns(x: Scene): State {
    State([], [], map[x.j := [x.u, x.t]], Hold(x.c, x.w, 2), Workers(6) - {3} - {1}, 1,
          map[2 := [x.w, x.g]], [x.v, x.f, x.w, x.g], multiset([x.v, x.f]))
  }

  lemma ClaimIsHold(c: Setup, h: map<string, int>, v: string, f: string, i: int)
    requires Keys(c, f) == []
    ensures Claim(c, h, [v, f], i) == h + Hold(c, v, i)
  {
    assert v in [v, f];
    assert AllKeys(c, [v, f]) == set x | x in Keys(c, v);
  }

  lemma ReverseSix(x: Scene)
    ensures Reverse(SceneTests(x)) == [x.u, x.g, x.w, x.t, x.f, x.v]
  {
    ReverseFour(x.t, x.w, x.g, x.u);
    assert SceneTests(x) == [x.v] + ([x.f] + [x.t, x.w, x.g, x.u]);
    ReverseAppend([x.v], [x.f] + [x.t, x.w, x.g, x.u]);
    ReverseAppend([x.f], [x.t, x.w, x.g, x.u]);
    ReverseOne(x.v);
    ReverseOne(x.f);
  }

  lemma EmptyKeysFree(c: Setup, f: string, h: map<string, int>)
    requires Keys(c, f) == []
    ensures Blocker(Keys(c, f), h) == None
  {
  }

  lemma SceneFirst(x: Scene)
    requires SceneOk(x)
    ensures var s := StartOf(SceneTests(x)); Enabled(s, Ready(1)) && Step(x.c, s, Ready(1)) == FirstRuns(x)
  {
    hide Workers, Reverse, Step, Blocker, Claim, Hold, Meet;
    var s := StartOf(SceneTests(x));
    ReverseSix(x);
    NothingHeld(x.c, x.v);
    NothingHeld(x.c, x.f);
    assert s.pending == [x.u, x.g, x.w, x.t] + [x.f] + [x.v];
    SendPair(x.c, s, 1, [x.u, x.g, x.w, x.t], x.v, x.f);
    ClaimIsHold(x.c, map[], x.v, x.f, 1);
    assert map[] + Hold(x.c, x.v, 1) == Hold(x.c, x.v, 1);
    assert map[][1 := [x.v, x.f]] == map[1 := [x.v, x.f]];
  }

  lemma ComposeParkPair(c: Setup, h: map<string, int>, rest: seq<string>, y: string, z: string, t: string, a: string)
    requires Blocker(Keys(c, t), h) == Some(a) && Blocker(Keys(c, z), h) == None && Blocker(Keys(c, y), h) == None
    ensures Compose(c, h, Round(rest + [y] + [z] + [t], map[], []), 1) == Round(rest, map[a := [t]], [z, y])
  {
    hide Blocker, Keys;
    ComposePark(c, h, rest + [y] + [z], t, map[], [], 1, a);
    assert Waiting(map[], a) + [t] == [t] && map[][a := [t]] == map[a := [t]];
    ComposeTake(c, h, rest + [y], z, map[a := [t]], [], 1);
    ComposeTake(c, h, rest, y, map[a := [t]], [] + [z], 1);
    assert [] + [z] == [z] && [z] + [y] == [z, y];
    var r := Round(rest, map[a := [t]], [z, y]);
    assert Compose(c, h, r, 1) == r;
  }

  lemma ApartIsFree(c: Setup, v: string, w: string, i: int)
    requires !Meet(c, v, w)
    ensures Blocker(Keys(c, w), Hold(c, v, i)) == None
  {
  }

  lemma SceneSecond(x: Scene)
    requires SceneOk(x)
    ensures Enabled(FirstRuns(x), Ready(2)) && Step(x.c, FirstRuns(x), Ready(2)) == BothRun(x)
  {
    hide Workers, Step, Blocker, Claim, Hold, Meet, Compose;
    var s := FirstRuns(x);
    ApartIsFree(x.c, x.v, x.w, 1);
    EmptyKeysFree(x.c, x.g, s.holders);
    ComposeParkPair(x.c, s.holders, [x.u], x.g, x.w, x.t, x.a);
    assert s.pending == [x.u] + [x.g] + [x.w] + [x.t];
    StepReady(x.c, s, 2, 1, Round([x.u], map[x.a := [x.t]], [x.w, x.g]));
    ClaimIsHold(x.c, s.holders, x.w, x.g, 2);
  }

  lemma SceneThird(x: Scene)
    requires SceneOk(x)
    ensures Enabled(BothRun(x), Ready(3)) && Step(x.c, BothRun(x), Ready(3)) == BothWait(x)
  {
    GatesDiffer(x);
    hide Workers, Step, Blocker, Claim, Hold, Meet, Compose, Keys;
    var s := BothRun(x);
    ComposeParkNew(x.c, s.holders, x.u, x.a, [x.t], x.j);
    StepReady(x.c, s, 3, 1, Round([], map[x.a := [x.t], x.j := [x.u]], []));
  }

  lemma ComposeParkNew(c: Setup, h: map<string, int>, u: string, a: string, ts: seq<string>, j: string)
    requires Blocker(Keys(c, u), h) == Some(j) && a != j
    ensures Compose(c, h, Round([u], map[a := ts], []), 1) == Round([], map[a := ts, j := [u]], [])
  {
    hide Blocker, Keys;
    ComposePark(c, h, [], u, map[a := ts], [], 1, j);
    assert [] + [u] == [u] && Waiting(map[a := ts], j) + [u] == [u];
    assert map[a := ts][j := [u]] == map[a := ts, j := [u]];
  }

  lemma GatesDiffer(x: Scene)
    requires SceneOk(x)
    ensures x.a != x.j && x.a in Keys(x.c, x.v) && x.j !in Keys(x.c, x.v)
  {
    assert x.a in Hold(x.c, x.v, 1);
  }

  lemma WorkerKeys(x: Scene, keys: seq<string>)
    requires SceneOk(x) && Enumerates(keys, BothWait(x).holders, 1)
    ensures forall y :: y in keys <==> y in Keys(x.c, x.v)
    ensures BothWait(x).holders - (set y | y in keys) == Hold(x.c, x.w, 2)
  {
    assert forall y :: y in Keys(x.c, x.v) ==> y !in Keys(x.c, x.w);
    hide SceneOk, Meet, Workers, Keys;
    var h := BothWait(x).holders;
    forall y ensures y in keys <==> y in Keys(x.c, x.v) {
      assert y in keys <==> y in h && h[y] == 1;
    }
  }

  /** Of the tests that wait, those of key `a` are released on an empty stack. */
  lemma ReleaseOnEmpty(f: State, keys: seq<string>, a: string, ts: seq<string>)
    requires f.pending == [] && a in keys && a in f.waiting && f.waiting[a] == ts
    requires forall k | k in keys && k != a :: k !in f.waiting
    ensures var d := ReleaseKeys(f, keys);
            && d.pending == Reverse(ts) && d.waiting == f.waiting - {a}
            && d.holders == f.holders - (set k | k in keys)
  {
    ReleaseOnly(f, keys, a);
    hide ReleaseKeys, Reverse;
    assert [] + Reverse(ts) == Reverse(ts);
    assert f.waiting - (set k | k in keys) == f.waiting - {a};
  }

  lemma FirstReleased(x: Scene, keys: seq<string>)
    requires x.a != x.j && x.a in keys && x.j !in keys
    requires BothWait(x).holders - (set k | k in keys) == Hold(x.c, x.w, 2)
    ensures var d := ReleaseKeys(Finish(BothWait(x), 1), keys);
            d.pending == [x.t] && d.waiting == map[x.j := [x.u]] && d.holders == Hold(x.c, x.w, 2)
  {
    hide Workers, Hold, ReleaseKeys, Reverse;
    ReverseOne(x.t);
    var f := Finish(BothWait(x), 1);
    ReleaseOnEmpty(f, keys, x.a, [x.t]);
    assert f.waiting - {x.a} == map[x.j := [x.u]];
  }

  lemma SceneFourth(x: Scene, keys: seq<string>)
    requires SceneOk(x) && Enumerates(keys, BothWait(x).holders, 1)
    ensures Enabled(BothWait(x), Finished(1, keys)) && Step(x.c, BothWait(x), Finished(1, keys)) == SecondRuns(x)
  {
    hide Workers, Step, Blocker, Claim, Hold, Meet, ReleaseKeys, Enumerates, Reverse, Compose;
    var s := BothWait(x);
    var d := ReleaseKeys(Finish(s, 1), keys);
    GatesDiffer(x);
    WorkerKeys(x, keys);
    FirstReleased(x, keys);
    assert Enabled(s, Finished(1, keys));
    SomeBatch(x.c, s);
    var size := BatchSize(x.c, LiveCount(s));
    ComposeParkLast(x.c, d.holders, x.t, x.u, size, x.j);
    StepFinished(x.c, s, 1, keys, size, d, Round([], map[x.j := [x.u, x.t]], []));
    assert s.busy - {1} == map[2 := [x.w, x.g]];
  }

  lemma ComposeParkLast(c: Setup, h: map<string, int>, t: string, u: string, size: nat, j: string)
    requires Blocker(Keys(c, t), h) == Some(j)
    ensures Compose(c, h, Round([t], map[j := [u]], []), size) == Round([], map[j := [u, t]], [])
  {
    hide Blocker, Keys;
    ComposePark(c, h, [], t, map[j := [u]], [], size, j);
    assert [] + [t] == [t] && [u] + [t] == [u, t] && map[j := [u]][j := [u, t]] == map[j := [u, t]];
  }

  lemma SecondReleased(x: Scene, keys: seq<string>)
    requires x.j in keys && SecondRuns(x).holders - (set k | k in keys) == map[]
    ensures var d := ReleaseKeys(Finish(SecondRuns(x), 2), keys);
            d.pending == [x.t, x.u] && d.waiting == map[] && d.holders == map[]
  {
    hide Workers, Hold, ReleaseKeys, Reverse;
    ReverseTwo(x.u, x.t);
    var f := Finish(SecondRuns(x), 2);
    ReleaseOnEmpty(f, keys, x.j, [x.u, x.t]);
    assert f.waiting - {x.j} == map[];
  }

  lemma LastKeys(x: Scene, keys: seq<string>)
    requires SceneOk(x) && Enumerates(keys, Hold(x.c, x.w, 2), 2)
    ensures x.j in keys && Hold(x.c, x.w, 2) - (set k | k in keys) == map[]
  {
    var h := Hold(x.c, x.w, 2);
    assert forall y :: y in keys <==> y in h;
  }

  lemma SceneFifth(x: Scene, keys: seq<string>)
    requires SceneOk(x) && Enumerates(keys, SecondRuns(x).holders, 2)
    ensures Enabled(SecondRuns(x), Finished(2, keys))
    ensures Step(x.c, SecondRuns(x), Finished(2, keys)).log == [x.v, x.f, x.w, x.g, x.u, x.t]
  {
    hide Workers, Step, Blocker, Claim, Hold, Meet, ReleaseKeys, Enumerates;
    LastKeys(x, keys);
    SecondReleased(x, keys);
    assert Enabled(SecondRuns(x), Finished(2, keys));
    SendBoth(x.c, SecondRuns(x), 2, keys, x.t, x.u);
  }

  lemma ReverseTwo(t: string, u: string)
    ensures Reverse([t, u]) == [u, t]
  {
    assert [t, u][1..] == [u] && [u][1..] == [];
    assert Reverse([u]) == [u];
  }

  function SceneRun(keys: seq<string>, keys': seq<string>): seq<Message> {
    [Ready(1), Ready(2)] + [Ready(3)] + [Finished(1, keys)] + [Finished(2, keys')]
  }

  lemma SceneLog(x: Scene, keys: seq<string>, keys': seq<string>)
    requires SceneOk(x) && Enumerates(keys, BothWait(x).holders, 1) && Enumerates(keys', SecondRuns(x).holders, 2)
    ensures var s := StartOf(SceneTests(x));
            && Valid(x.c, s, SceneRun(keys, keys'))
            && Exec(x.c, s, SceneRun(keys, keys')).log == [x.v, x.f, x.w, x.g, x.u, x.t]
  {
    hide Step, Enabled, Valid, Exec, StartOf, FirstRuns, BothRun, BothWait, SecondRuns, SceneOk, Enumerates;
    var s := StartOf(SceneTests(x));
    SceneFirst(x);
    SceneSecond(x);
    TwoSteps(x.c, s, Ready(1), Ready(2));
    SceneThird(x);
    RunExtends(x.c, s, [Ready(1), Ready(2)], Ready(3));
    SceneFourth(x, keys);
    RunExtends(x.c, s, [Ready(1), Ready(2)] + [Ready(3)], Finished(1, keys));
    SceneFifth(x, keys');
    RunExtends(x.c, s, [Ready(1), Ready(2)] + [Ready(3)] + [Finished(1, keys)], Finished(2, keys'));
  }

  /** Two rivals run side by side: the test that waited for the first comes back behind the other one. */
  lemma SideBySide(x: Scene, p: string -> bool, keys: seq<string>, keys': seq<string>)
    requires SceneOk(x) && Group(x.c, p) && p(x.t) && p(x.u) && !p(x.v) && !p(x.w)
    requires !Exclusive(x.c, x.v) && !Exclusive(x.c, x.w) && AllDifferent(SceneTests(x))
    requires Enumerates(keys, BothWait(x).holders, 1) && Enumerates(keys', SecondRuns(x).holders, 2)
    ensures Breaks(x.c, p, SceneTests(x), StartOf(SceneTests(x)), SceneRun(keys, keys'))
  {
    SceneStart(x, p);
    hide SceneOk, Group, Exclusive, Enumerates, Valid, Exec, Started, StartOf, Filter, SceneRun, Keys;
    hide BothWait, SecondRuns;
    SceneLog(x, keys, keys');
    SceneOutOfOrder(x, p);
  }

  lemma SceneOutOfOrder(x: Scene, p: string -> bool)
    requires p(x.t) && p(x.u) && x.t != x.u && !p(x.v) && !p(x.w) && !p(x.f) && !p(x.g)
    ensures !(Filter(p, [x.v, x.f, x.w, x.g, x.u, x.t]) <= Filter(p, SceneTests(x)))
  {
    hide Filter;
    NoneOf(p, [x.v, x.f]);
    NoneOf(p, [x.v, x.f, x.w, x.g]);
    assert [x.v, x.f, x.w, x.g, x.u, x.t] == [x.v, x.f, x.w, x.g] + [x.u] + [x.t];
    assert SceneTests(x) == [x.v, x.f] + [x.t] + [x.w, x.g, x.u];
    OutOfOrder(p, [x.v, x.f, x.w, x.g], x.u, [x.t], [x.v, x.f], x.t, [x.w, x.g, x.u]);
  }

  lemma NoneOf(p: string -> bool, ts: seq<string>)
    requires forall i | 0 <= i < |ts| :: !p(ts[i])
    ensures Filter(p, ts) == []
  {
    FilterNone(p, ts);
  }

  lemma SceneStart(x: Scene, p: string -> bool)
    requires SceneOk(x) && Group(x.c, p) && p(x.t) && p(x.u)
    requires !Exclusive(x.c, x.v) && !Exclusive(x.c, x.w) && AllDifferent(SceneTests(x))
    ensures Started(x.c, SceneTests(x), StartOf(SceneTests(x))) && x.t != x.u && !p(x.f) && !p(x.g)
  {
    hide Blocker, Meet, Hold, Exclusive, Started, StartOf;
    FreeOfKeys(x.c, p, x.f, map[]);
    FreeOfKeys(x.c, p, x.g, map[]);
    assert !Exclusive(x.c, x.t) && !Exclusive(x.c, x.u);
    assert x.c.total == 6;
    hide SceneOk, Group, Keys;
    SixStart(x.c, SceneTests(x));
    assert SceneTests(x)[2] != SceneTests(x)[5];
  }

  lemma SixStart(c: Setup, tests: seq<string>)
    requires |tests| == 6 && c.total == 6 && AllDifferent(tests)
    requires forall i | 0 <= i < |tests| :: !Exclusive(c, tests[i])
    ensures Started(c, tests, StartOf(tests))
  {
    hide Exclusive, Started, StartOf;
    DifferentOnce(tests);
    StartOfTests(c, tests);
  }

  /******* The condition is necessary *******/

  lemma BreaksRefutes(c: Setup, n: nat, p: string -> bool, tests: seq<string>, s: State, ms: seq<Message>)
    requires Breaks(WithTotal(c, n), p, tests, s, ms)
    ensures !KeepsOrder(c, p)
  {
    hide Started, Valid, Exec;
  }

  lemma SameRelations(c: Setup, n: nat, p: string -> bool)
    ensures Group(c, p) ==> Group(WithTotal(c, n), p)
    ensures forall t, u :: Meet(WithTotal(c, n), t, u) <==> Meet(c, t, u)
    ensures forall v :: Rival(WithTotal(c, n), p, v) <==> Rival(c, p, v)
  {
    var c' := WithTotal(c, n);
    assert forall t :: Keys(c', t) == Keys(c, t);
    assert forall t, u :: Meet(c', t, u) <==> Meet(c, t, u);
  }

  lemma {:induction false} LongerThanAll(names: set<string>) returns (n: nat)
    ensures forall s | s in names :: |s| < n
  {
    if names == {} {
      n := 0;
    } else {
      var s :| s in names;
      var m := LongerThanAll(names - {s});
      n := Max(m, |s| + 1);
    }
  }

  function Filler(n: nat): (s: string)
    ensures |s| == n
  {
    if n == 0 then "" else Filler(n - 1) + "x"
  }

  /** There are test names without conflict keys. */
  lemma Fillers(c: Setup) returns (f: string, g: string)
    ensures f != g && Keys(c, f) == [] && Keys(c, g) == []
  {
    var n := LongerThanAll(c.conflicts.Keys);
    f, g := Filler(n), Filler(n + 1);
  }

  /** Every rival holds back every test of the group. */
  ghost predicate AllOrNothing(c: Setup, p: string -> bool) {
    forall v, t :: Rival(c, p, v) && p(t) ==> Meet(c, v, t)
  }

  lemma SomeAreHeldBack(c: Setup, p: string -> bool)
    requires Group(c, p) && c.maxBatch >= 1 && !AllOrNothing(c, p)
    ensures !KeepsOrder(c, p)
  {
    var v, u :| Rival(c, p, v) && p(u) && !Meet(c, v, u);
    var t :| p(t) && Meet(c, v, t);
    var f, g := Fillers(c);
    SameRelations(c, 4, p);
    hide Group, Rival, Meet, KeepsOrder, Breaks;
    RivalOfOne(WithTotal(c, 4), p, v, t, u, f);
    BreaksRefutes(c, 4, p, [v, f, t, u], StartOf([v, f, t, u]), [Ready(1), Ready(2)]);
  }

  lemma ListKeys(h: map<string, int>, i: int) returns (keys: seq<string>)
    requires forall x :: x in h ==> h[x] == i
    ensures Enumerates(keys, h, i) && forall x :: x in keys <==> x in h
  {
    keys := KeysCanBeListed(h.Keys);
  }

  lemma GatesOfPair(c: Setup, v: string, w: string, t: string, u: string)
    requires Meet(c, v, t) && Meet(c, v, u) && !SameGate(c, t, u, v, w)
    ensures var h := Claim(c, map[], [v, w], 1);
            var j, k := Blocker(Keys(c, t), h), Blocker(Keys(c, u), h);
            j.Some? && k.Some? && j.value in h && k.value in h && j != k
  {
    ClaimedKeys(c, v, w, 1);
    var h := Claim(c, map[], [v, w], 1);
    BlockerSame(Keys(c, t), HeldBy(c, v, w), h);
    BlockerSame(Keys(c, u), HeldBy(c, v, w), h);
  }

  lemma TwoGatesBreak(c: Setup, p: string -> bool, v: string, w: string, t: string, u: string)
    requires Group(c, p) && p(t) && p(u) && !Exclusive(c, v) && !Exclusive(c, w) && AllDifferent([v, w, t, u])
    requires c.maxBatch >= 1 && Meet(c, v, t) && Meet(c, v, u) && !SameGate(c, t, u, v, w)
    ensures !KeepsOrder(c, p)
  {
    hide Group, Meet, SameGate, Exclusive, Claim, KeepsOrder, Enumerates, Keys, Blocker, AllDifferent;
    SameFacts(c, 4, p, t, u, v, w);
    var keys, a, b := GatesFound(WithTotal(c, 4), v, w, t, u);
    if a < b {
      GatesInOrder(c, p, v, w, t, u, keys, a, b);
    } else {
      OtherOrder(v, w, t, u);
      GatesInOrder(c, p, v, w, u, t, keys, b, a);
    }
  }

  lemma SameFacts(c: Setup, n: nat, p: string -> bool, t: string, u: string, v: string, w: string)
    ensures var c' := WithTotal(c, n);
            && (SameGate(c', t, u, v, w) <==> SameGate(c, t, u, v, w))
            && (Exclusive(c', v) <==> Exclusive(c, v)) && (Exclusive(c', w) <==> Exclusive(c, w))
            && (Meet(c', v, t) <==> Meet(c, v, t)) && (Meet(c', v, u) <==> Meet(c, v, u))
            && (Group(c, p) ==> Group(c', p))
  {
    SameRelations(c, n, p);
  }

  /** Where the keys of the two gates stand among the keys of the worker. */
  lemma GatesFound(c: Setup, v: string, w: string, t: string, u: string) returns (keys: seq<string>, a: nat, b: nat)
    requires Meet(c, v, t) && Meet(c, v, u) && !SameGate(c, t, u, v, w)
    ensures Enumerates(keys, Claim(c, map[], [v, w], 1), 1) && a < |keys| && b < |keys| && a != b
    ensures Blocker(Keys(c, t), Claim(c, map[], [v, w], 1)) == Some(keys[a])
    ensures Blocker(Keys(c, u), Claim(c, map[], [v, w], 1)) == Some(keys[b])
  {
    GatesOfPair(c, v, w, t, u);
    ClaimedKeys(c, v, w, 1);
    hide Meet, SameGate, Claim, Keys, Blocker, Enumerates;
    var h := Claim(c, map[], [v, w], 1);
    keys := ListKeys(h, 1);
    a := KeyIndex(keys, Blocker(Keys(c, t), h).value);
    b := KeyIndex(keys, Blocker(Keys(c, u), h).value);
  }

  /** The two gates in the order in which their keys are released. */
  lemma GatesInOrder(c: Setup, p: string -> bool, v: string, w: string, t: string, u: string,
                     keys: seq<string>, a: nat, b: nat)
    requires var c' := WithTotal(c, 4);
             && Group(c', p) && p(t) && p(u) && !Exclusive(c', v) && !Exclusive(c', w) && AllDifferent([v, w, t, u])
             && c'.maxBatch >= 1 && Enumerates(keys, Claim(c', map[], [v, w], 1), 1) && a < b < |keys|
             && Blocker(Keys(c', t), Claim(c', map[], [v, w], 1)) == Some(keys[a])
             && Blocker(Keys(c', u), Claim(c', map[], [v, w], 1)) == Some(keys[b])
    ensures !KeepsOrder(c, p)
  {
    hide Group, Exclusive, Claim, KeepsOrder, Breaks, Enumerates, Keys, Blocker, AllDifferent;
    TwoGates(WithTotal(c, 4), p, v, w, t, u, keys, a, b);
    BreaksRefutes(c, 4, p, [v, w, t, u], StartOf([v, w, t, u]), [Ready(1), Ready(2)] + [Finished(1, keys)]);
  }

  lemma KeyIndex(keys: seq<string>, k: string) returns (a: nat)
    requires k in keys
    ensures a < |keys| && keys[a] == k
  {
    a :| a < |keys| && keys[a] == k;
  }

  lemma OtherOrder(v: string, w: string, t: string, u: string)
    requires AllDifferent([v, w, t, u])
    ensures AllDifferent([v, w, u, t])
  {
    var ts := [v, w, t, u];
    assert ts[0] != ts[1] && ts[0] != ts[2] && ts[0] != ts[3] && ts[1] != ts[2] && ts[1] != ts[3] && ts[2] != ts[3];
  }

  lemma GatesDisagree(c: Setup, p: string -> bool)
    requires Group(c, p) && c.maxBatch >= 1 && AllOrNothing(c, p) && !OneGate(c, p)
    ensures !KeepsOrder(c, p)
  {
    hide KeepsOrder, Group, Meet, Exclusive, SameGate, OtherRival;
    var t, u, v, w :|
      p(t) && p(u) && OtherRival(c, p, v, t, u) && OtherRival(c, p, w, t, u) && !SameGate(c, t, u, v, w);
    DisagreeingGates(c, p, t, u, v, w);
    hide AllOrNothing, OneGate, Rival;
    if v != w {
      assert AllDifferent([v, w, t, u]);
      TwoGatesBreak(c, p, v, w, t, u);
    } else {
      OneRunningTest(c, p, v, t, u);
    }
  }

  lemma DisagreeingGates(c: Setup, p: string -> bool, t: string, u: string, v: string, w: string)
    requires AllOrNothing(c, p) && p(t) && p(u) && !SameGate(c, t, u, v, w)
    requires OtherRival(c, p, v, t, u) && OtherRival(c, p, w, t, u)
    ensures Meet(c, v, t) && Meet(c, v, u) && t != u && !Exclusive(c, v) && !Exclusive(c, w)
    ensures v != t && v != u && w != t && w != u
  {
  }

  lemma OneRunningTest(c: Setup, p: string -> bool, v: string, t: string, u: string)
    requires Group(c, p) && p(t) && p(u) && !Exclusive(c, v) && t != u && v != t && v != u
    requires c.maxBatch >= 1 && Meet(c, v, t) && Meet(c, v, u) && !SameGate(c, t, u, v, v)
    ensures !KeepsOrder(c, p)
  {
    var f, g := Fillers(c);
    assert f != t && f != u && f != v && !Exclusive(c, f);
    assert HeldBy(c, v, f) == HeldBy(c, v, v);
    assert !SameGate(c, t, u, v, f);
    hide Group, Meet, SameGate, Exclusive, KeepsOrder, Keys, HeldBy;
    assert AllDifferent([v, f, t, u]);
    TwoGatesBreak(c, p, v, f, t, u);
  }

  lemma MakeScene(c: Setup, v: string, w: string, t: string, u: string, f: string, g: string, j: string)
    returns (x: Scene)
    requires c.total == 6 && c.maxBatch >= 1 && Keys(c, f) == [] && Keys(c, g) == []
    requires !Meet(c, v, w) && Meet(c, v, t) && j in Keys(c, w)
    requires Blocker(Keys(c, t), HeldBy(c, v, w)) == Some(j) && Blocker(Keys(c, u), HeldBy(c, v, w)) == Some(j)
    ensures x == Scene(c, v, w, t, u, f, g, x.a, j) && SceneOk(x)
  {
    var h := HeldBy(c, v, w);
    assert Blocker(Keys(c, t), Hold(c, v, 1)).Some?;
    var a := Blocker(Keys(c, t), Hold(c, v, 1)).value;
    BlockerSame(Keys(c, u), h, Hold(c, v, 1) + Hold(c, w, 2));
    BlockerWithin(Keys(c, t), h, Hold(c, w, 2));
    x := Scene(c, v, w, t, u, f, g, a, j);
  }

  lemma SceneKeys(x: Scene) returns (keys: seq<string>, keys': seq<string>)
    requires SceneOk(x)
    ensures Enumerates(keys, BothWait(x).holders, 1) && Enumerates(keys', SecondRuns(x).holders, 2)
  {
    keys := KeysCanBeListed(set y | y in Keys(x.c, x.v));
    assert forall y :: y in Keys(x.c, x.v) ==> y !in Keys(x.c, x.w);
    keys' := ListKeys(Hold(x.c, x.w, 2), 2);
  }

  lemma SceneBreaks(c: Setup, p: string -> bool, v: string, w: string, t: string, u: string,
                    f: string, g: string, j: string)
    requires Group(c, p) && p(t) && p(u) && !p(v) && !p(w) && !Exclusive(c, v) && !Exclusive(c, w)
    requires AllDifferent([v, f, t, w, g, u]) && Keys(c, f) == [] && Keys(c, g) == [] && c.maxBatch >= 1
    requires !Meet(c, v, w) && Meet(c, v, t) && j in Keys(c, w)
    requires Blocker(Keys(c, t), HeldBy(c, v, w)) == Some(j) && Blocker(Keys(c, u), HeldBy(c, v, w)) == Some(j)
    ensures !KeepsOrder(c, p)
  {
    var c' := WithTotal(c, 6);
    SameRelations(c, 6, p);
    assert !Exclusive(c', v) && !Exclusive(c', w) && HeldBy(c', v, w) == HeldBy(c, v, w);
    var x := MakeScene(c', v, w, t, u, f, g, j);
    var keys, keys' := SceneKeys(x);
    hide Group, Meet, Exclusive, KeepsOrder, Breaks, Enumerates, SceneOk, HeldBy, Keys, Blocker, BothWait, SecondRuns;
    assert SceneTests(x) == [v, f, t, w, g, u];
    SideBySide(x, p, keys, keys');
    BreaksRefutes(c, 6, p, SceneTests(x), StartOf(SceneTests(x)), SceneRun(keys, keys'));
  }

  lemma RivalsApart(c: Setup, p: string -> bool, v: string, w: string, t: string, u: string)
    requires Group(c, p) && AllOrNothing(c, p) && Rival(c, p, v) && Rival(c, p, w) && !Meet(c, v, w)
    requires p(t) && p(u) && t != u
    ensures !p(v) && !p(w) && !Exclusive(c, v) && !Exclusive(c, w) && !Meet(c, w, v)
    ensures v != w && v !in {t, u} && w !in {t, u} && Meet(c, v, t) && Meet(c, w, t)
  {
    assert p(v) ==> Meet(c, w, v);
    assert p(w) ==> Meet(c, v, w);
    assert Meet(c, w, v) ==> Meet(c, v, w);
    assert Meet(c, v, t) ==> Meet(c, v, v);
  }

  lemma SameBothWays(c: Setup, v: string, w: string, t: string)
    ensures Blocker(Keys(c, t), HeldBy(c, w, v)) == Blocker(Keys(c, t), HeldBy(c, v, w))
  {
    BlockerSame(Keys(c, t), HeldBy(c, w, v), HeldBy(c, v, w));
  }

  lemma RivalsBesideEachOther(c: Setup, p: string -> bool, t: string, u: string)
    requires Group(c, p) && c.maxBatch >= 1 && AllOrNothing(c, p) && OneGate(c, p) && !OneAtATime(c, p)
    requires p(t) && p(u) && t != u
    ensures !KeepsOrder(c, p)
  {
    var v, w :| Rival(c, p, v) && Rival(c, p, w) && !Meet(c, v, w);
    RivalsApart(c, p, v, w, t, u);
    assert SameGate(c, t, u, v, w);
    assert Blocker(Keys(c, t), HeldBy(c, v, w)).Some?;
    var j := Blocker(Keys(c, t), HeldBy(c, v, w)).value;
    var f, g := Fillers(c);
    FillersApart(c, v, w, t, u, f, g);
    SameBothWays(c, v, w, t);
    SameBothWays(c, v, w, u);
    hide Group, AllOrNothing, OneGate, OneAtATime, Rival, Meet, Exclusive, KeepsOrder, Blocker;
    if j in Keys(c, w) {
      SceneBreaks(c, p, v, w, t, u, f, g, j);
    } else {
      SceneBreaks(c, p, w, v, t, u, f, g, j);
    }
  }

  lemma FillersApart(c: Setup, v: string, w: string, t: string, u: string, f: string, g: string)
    requires f != g && Keys(c, f) == [] && Keys(c, g) == []
    requires Meet(c, v, t) && Meet(c, w, t) && Keys(c, u) != []
    requires v != w && t != u && v !in {t, u} && w !in {t, u}
    ensures AllDifferent([v, f, t, w, g, u]) && AllDifferent([w, f, t, v, g, u])
  {
    assert f != v && f != w && f != t && f != u && g != v && g != w && g != t && g != u;
  }

  lemma DisorderlyBreaksOrder(c: Setup, p: string -> bool)
    requires Group(c, p) && c.maxBatch >= 1 && !Orderly(c, p)
    ensures !KeepsOrder(c, p)
  {
    hide Group, KeepsOrder, OneGate, OneAtATime, AllOrNothing;
    var t, u :| p(t) && p(u) && t != u;
    if !AllOrNothing(c, p) {
      SomeAreHeldBack(c, p);
    } else if !OneGate(c, p) {
      GatesDisagree(c, p);
    } else {
      RivalsBesideEachOther(c, p, t, u);
    }
  }

  /**
   A group of tests keeps its order in every run of distinct tests exactly when its rivals
   cannot run on two workers at once and, whichever rivals run, its tests are parked under
   one key.
   */
  lemma OrderKeptIff(c: Setup, p: string -> bool)
    requires Group(c, p) && c.maxBatch >= 1
    ensures KeepsOrder(c, p) <==> Orderly(c, p)
  {
    hide Group, KeepsOrder, Orderly;
    if Orderly(c, p) {
      OrderlyKeepsOrder(c, p);
    } else {
      DisorderlyBreaksOrder(c, p);
    }
  }

  /** The tests that have key `k` and are not set aside. */
  function Sharing(c: Setup, k: string): string -> bool {
    t => k in Keys(c, t) && !Exclusive(c, t)
  }

  /** The tests that share a key keep their order exactly under that condition. */
  lemma SharedKeyOrderIff(c: Setup, k: string)
    requires c.maxBatch >= 1
    ensures KeepsOrder(c, Sharing(c, k)) <==> Orderly(c, Sharing(c, k))
  {
    var p := Sharing(c, k);
    assert Group(c, p);
    OrderKeptIff(c, p);
  }

  /** One set-up: `t` shares key `a` with `v` and key `k` with `u`. */
  function SharedKeys(v: string, t: string, u: string, a: string, k: string, maxBatch: nat): Setup {
    Setup(map[v := [a], t := [a, k], u := [k]], maxBatch, 0)
  }

  /** The tests that share `k` do not keep their order when one of them has another key to wait for. */
  lemma SharedKeyIsOvertaken(v: string, t: string, u: string, a: string, k: string, maxBatch: nat)
    requires v != t && v != u && t != u && a != k && a != ALL && k != ALL && maxBatch >= 1
    ensures var c := SharedKeys(v, t, u, a, k, maxBatch); !KeepsOrder(c, Sharing(c, k))
  {
    var c := SharedKeys(v, t, u, a, k, maxBatch);
    var p := Sharing(c, k);
    assert k in Keys(c, t) && k in Keys(c, u) && a in Keys(c, v) && a in Keys(c, t);
    assert p(t) && p(u) && Meet(c, v, t) && !Meet(c, v, u);
    assert Rival(c, p, v);
    assert Group(c, p);
    hide Sharing, Group, Rival, Meet, KeepsOrder, Keys;
    SomeAreHeldBack(c, p);
  }

  /**
   Order is kept where `k` is the first key of the tests that have it and every test that
   has another of their keys has `k` too.
   */
  lemma FirstKeyKeepsOrder(c: Setup, k: string)
    requires c.maxBatch >= 1
    requires forall t :: Sharing(c, k)(t) ==> Keys(c, t)[0] == k
    requires forall v, t :: !Exclusive(c, v) && Sharing(c, k)(t) && Meet(c, v, t) ==> k in Keys(c, v)
    ensures KeepsOrder(c, Sharing(c, k))
  {
    var p := Sharing(c, k);
    forall v | Rival(c, p, v) ensures k in Keys(c, v) {
      var t :| p(t) && Meet(c, v, t);
    }
    forall t, v, w | p(t) && k in Keys(c, v) ensures Blocker(Keys(c, t), HeldBy(c, v, w)) == Some(k) {
      assert k in HeldBy(c, v, w);
    }
    assert OneAtATime(c, p) && OneGate(c, p);
    SharedKeyOrderIff(c, k);
  }
}
