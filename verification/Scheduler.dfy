/**
 The parallel test scheduler as a state machine: a coordinator hands batches of tests to
 workers, parks the tests whose conflict keys are in use, and retires idle workers. Each
 step handles one "ready" or "tests_finished" message.
 */
module Scheduler {
  import opened Options
  import opened Sequences

  const ALL := "all"

  /** What is fixed before the first message: conflict keys per test and the batch bounds. */
  datatype Setup = Setup(conflicts: map<string, seq<string>>, maxBatch: nat, total: nat)

  /**
   `pending` is a stack whose top is its last element; `holders` maps each key in use to the
   worker using it. `busy`, `log` and `finished` record what the coordinator sent and heard:
   the batch of each busy worker, every test in the order it was sent, every finished test.
   */
  datatype State = State(
    pending: seq<string>,
    sequential: seq<string>,
    waiting: map<string, seq<string>>,
    holders: map<string, int>,
    live: set<int>,
    inProgress: int,
    busy: map<int, seq<string>>,
    log: seq<string>,
    finished: multiset<string>)

  function Keys(c: Setup, t: string): seq<string> {
    if t in c.conflicts then c.conflicts[t] else []
  }

  predicate Exclusive(c: Setup, t: string) {
    ALL in Keys(c, t)
  }

  function IsExclusive(c: Setup): string -> bool {
    t => Exclusive(c, t)
  }

  function NotExclusive(c: Setup): string -> bool {
    t => !Exclusive(c, t)
  }

  function Min(a: nat, b: nat): nat {
    if a < b then a else b
  }

  function Max(a: nat, b: nat): nat {
    if a < b then b else a
  }

  function BatchSize(c: Setup, workers: nat): nat
    requires workers > 0
  {
    Min(c.maxBatch, Max(1, (c.total + workers - 1) / workers))
  }

  /******* One message *******/

  /** `keys` is the order in which the keys of a finished worker are released. */
  datatype Message = Ready(worker: int) | Finished(worker: int, keys: seq<string>)

  ghost predicate Enumerates(keys: seq<string>, holders: map<string, int>, worker: int) {
    && (forall k :: k in keys <==> k in holders && holders[k] == worker)
    && forall i, j | 0 <= i < j < |keys| :: keys[i] != keys[j]
  }

  /** A live worker that is not busy has yet to report ready; a busy one to report finished. */
  ghost predicate Enabled(s: State, m: Message) {
    match m
    case Ready(i) => i in s.live && i !in s.busy
    case Finished(i, keys) => i in s.live && i in s.busy && Enumerates(keys, s.holders, i)
  }

  function ReleaseKey(s: State, k: string): State {
    s.(holders := s.holders - {k},
       pending := s.pending + Reverse(Waiting(s.waiting, k)),
       waiting := s.waiting - {k})
  }

  function Waiting(waiting: map<string, seq<string>>, k: string): seq<string> {
    if k in waiting then waiting[k] else []
  }

  function ReleaseKeys(s: State, keys: seq<string>): (t: State)
    ensures t == s.(pending := t.pending, waiting := t.waiting, holders := t.holders)
    ensures t.holders == s.holders - (set k | k in keys)
    ensures t.waiting == s.waiting - (set k | k in keys)
    decreases |keys|
  {
    if keys == [] then s else ReleaseKeys(ReleaseKey(s, keys[0]), keys[1..])
  }

  function Finish(s: State, i: int): State
    requires i in s.busy
  {
    s.(inProgress := s.inProgress - 1,
       busy := s.busy - {i},
       finished := s.finished + multiset(s.busy[i]))
  }

  /** The state once a finished worker's keys are free again. */
  function Freed(s: State, m: Message): State
    requires m.Finished? ==> m.worker in s.busy
  {
    if m.Finished? then ReleaseKeys(Finish(s, m.worker), m.keys) else s
  }

  /** Tests that exclude all others are scheduled once one worker is left. */
  function TakeSequential(s: State): State {
    if |s.live| == 1 && s.sequential != [] then
      s.(pending := s.pending + s.sequential, sequential := [])
    else s
  }

  /** The first key of a test that is in use. */
  function Blocker(keys: seq<string>, holders: map<string, int>): (r: Option<string>)
    ensures r.None? <==> forall k | k in keys :: k !in holders
    ensures r.Some? ==> r.value in keys && r.value in holders
  {
    if keys == [] then None
    else if keys[0] in holders then Some(keys[0])
    else Blocker(keys[1..], holders)
  }

  datatype Round = Round(pending: seq<string>, waiting: map<string, seq<string>>, files: seq<string>)

  /** Pops one test: into the batch, or parked under the key that blocks it. */
  function Pop(c: Setup, holders: map<string, int>, r: Round): Round
    requires r.pending != []
  {
    var t := r.pending[|r.pending| - 1];
    var rest := r.pending[..|r.pending| - 1];
    var b := Blocker(Keys(c, t), holders);
    if b.Some? then Round(rest, r.waiting[b.value := Waiting(r.waiting, b.value) + [t]], r.files)
    else Round(rest, r.waiting, r.files + [t])
  }

  function Compose(c: Setup, holders: map<string, int>, r: Round, size: nat): Round
    decreases |r.pending|
  {
    if |r.files| > size || r.pending == [] then r
    else Compose(c, holders, Pop(c, holders, r), size)
  }

  function Claim(c: Setup, holders: map<string, int>, files: seq<string>, i: int): map<string, int> {
    holders + map k | k in AllKeys(c, files) :: i
  }

  function AllKeys(c: Setup, files: seq<string>): set<string> {
    set t, k | t in files && k in Keys(c, t) :: k
  }

  function LiveCount(s: State): (n: nat)
    ensures s.live != {} ==> n > 0
  {
    |s.live|
  }

  /** The batch worker `i` would be given. */
  function Batch(c: Setup, s: State): Round
    requires s.live != {}
  {
    Compose(c, s.holders, Round(s.pending, s.waiting, []), BatchSize(c, LiveCount(s)))
  }

  function Dispatch(c: Setup, s: State, i: int): State
    requires i in s.live
  {
    var r := Batch(c, s);
    var t := s.(pending := r.pending, waiting := r.waiting);
    if r.files != [] then
      t.(holders := Claim(c, s.holders, r.files, i),
         inProgress := s.inProgress + 1,
         busy := s.busy[i := r.files],
         log := s.log + r.files)
    else
      t.(live := s.live - {i})
  }

  ghost function Step(c: Setup, s: State, m: Message): State
    requires Enabled(s, m)
  {
    Dispatch(c, TakeSequential(Freed(s, m)), m.worker)
  }

  /******* Conservation *******/

  /** Tests not sent to any worker yet, the exclusive ones set aside apart. */
  ghost function Undispatched(s: State): multiset<string> {
    multiset(s.pending) + Gather(s.waiting)
  }

  ghost function AllTests(s: State): multiset<string> {
    Undispatched(s) + multiset(s.sequential) + Gather(s.busy) + s.finished
  }

  lemma ReleaseKeyConserves(s: State, k: string)
    ensures Undispatched(ReleaseKey(s, k)) == Undispatched(s)
  {
    ReverseMultiset(Waiting(s.waiting, k));
    if k in s.waiting {
      GatherSplit(s.waiting, k);
    } else {
      assert s.waiting - {k} == s.waiting;
    }
  }

  lemma {:induction false} ReleaseKeysConserves(s: State, keys: seq<string>)
    ensures Undispatched(ReleaseKeys(s, keys)) == Undispatched(s)
    decreases |keys|
  {
    if keys != [] {
      ReleaseKeyConserves(s, keys[0]);
      ReleaseKeysConserves(ReleaseKey(s, keys[0]), keys[1..]);
    }
  }

  ghost function RoundTests(r: Round): multiset<string> {
    multiset(r.pending) + Gather(r.waiting) + multiset(r.files)
  }

  lemma ParkConserves(waiting: map<string, seq<string>>, k: string, t: string)
    ensures Gather(waiting[k := Waiting(waiting, k) + [t]]) == Gather(waiting) + multiset{t}
  {
    GatherUpdate(waiting, k, Waiting(waiting, k) + [t]);
    if k in waiting {
      GatherSplit(waiting, k);
    } else {
      assert waiting - {k} == waiting;
    }
  }

  lemma TopConserves(pending: seq<string>)
    requires pending != []
    ensures multiset(pending) == multiset(pending[..|pending| - 1]) + multiset{pending[|pending| - 1]}
  {
    assert pending == pending[..|pending| - 1] + [pending[|pending| - 1]];
  }

  lemma PopConserves(c: Setup, holders: map<string, int>, r: Round)
    requires r.pending != []
    ensures RoundTests(Pop(c, holders, r)) == RoundTests(r)
  {
    var t := r.pending[|r.pending| - 1];
    TopConserves(r.pending);
    var b := Blocker(Keys(c, t), holders);
    if b.Some? {
      ParkConserves(r.waiting, b.value, t);
    }
  }

  lemma {:induction false} ComposeConserves(c: Setup, holders: map<string, int>, r: Round, size: nat)
    ensures RoundTests(Compose(c, holders, r, size)) == RoundTests(r)
    decreases |r.pending|
  {
    if |r.files| <= size && r.pending != [] {
      PopConserves(c, holders, r);
      ComposeConserves(c, holders, Pop(c, holders, r), size);
    }
  }

  lemma DispatchConserves(c: Setup, s: State, i: int)
    requires i in s.live && i !in s.busy
    ensures Undispatched(s) == Undispatched(Dispatch(c, s, i)) + multiset(Batch(c, s).files)
    ensures Gather(Dispatch(c, s, i).busy) == Gather(s.busy) + multiset(Batch(c, s).files)
  {
    hide Compose, BatchSize, Claim, Gather;
    ComposeConserves(c, s.holders, Round(s.pending, s.waiting, []), BatchSize(c, LiveCount(s)));
    GatherUpdate(s.busy, i, Batch(c, s).files);
    assert s.busy - {i} == s.busy;
  }

  /** Handling a message loses no test and duplicates none. */
  lemma StepConserves(c: Setup, s: State, m: Message)
    requires Enabled(s, m)
    ensures AllTests(Step(c, s, m)) == AllTests(s)
  {
    FreedConserves(s, m);
    SequentialConserves(Freed(s, m));
    DispatchKeepsTests(c, TakeSequential(Freed(s, m)), m.worker);
  }

  lemma SequentialConserves(s: State)
    ensures AllTests(TakeSequential(s)) == AllTests(s)
  {
  }

  lemma DispatchKeepsTests(c: Setup, s: State, i: int)
    requires i in s.live && i !in s.busy
    ensures AllTests(Dispatch(c, s, i)) == AllTests(s)
  {
    DispatchConserves(c, s, i);
    var d := Dispatch(c, s, i);
    assert Undispatched(d) + Gather(d.busy) == Undispatched(s) + Gather(s.busy);
  }

  lemma FreedConserves(s: State, m: Message)
    requires m.Finished? ==> m.worker in s.busy
    ensures AllTests(Freed(s, m)) == AllTests(s)
    ensures Undispatched(Freed(s, m)) == Undispatched(s)
  {
    if m.Finished? {
      ReleaseKeysConserves(Finish(s, m.worker), m.keys);
      GatherSplit(s.busy, m.worker);
    }
  }

  /******* The invariant *******/

  /** Parked tests wait for a key in use, and have that key. */
  ghost predicate ParkedOk(c: Setup, waiting: map<string, seq<string>>, holders: map<string, int>) {
    forall k :: k in waiting ==>
      k in holders && waiting[k] != [] && forall t | t in waiting[k] :: k in Keys(c, t)
  }

  /** A key in use is held by the busy worker whose batch has it, and every key of a batch is held. */
  ghost predicate HoldersOk(c: Setup, holders: map<string, int>, busy: map<int, seq<string>>) {
    && (forall k :: k in holders ==> holders[k] in busy && k in AllKeys(c, busy[holders[k]]))
    && (forall i, k :: i in busy && k in AllKeys(c, busy[i]) ==> Lookup(holders, k) == Some(i))
  }

  /** Exclusive tests are kept aside until one worker is left. */
  ghost predicate ExclusiveOk(c: Setup, s: State) {
    && (forall t :: t in s.sequential ==> Exclusive(c, t))
    && (forall t :: Exclusive(c, t) && t in Undispatched(s) + Gather(s.busy) ==> |s.live| <= 1)
  }

  ghost predicate Invariant(c: Setup, s: State) {
    && ParkedOk(c, s.waiting, s.holders)
    && HoldersOk(c, s.holders, s.busy)
    && ExclusiveOk(c, s)
    && s.busy.Keys <= s.live
    && (forall i :: i in s.busy ==> s.busy[i] != [])
    && s.inProgress == |s.busy|
    && (s.live == {} ==> s.pending == [] && s.sequential == [])
  }

  lemma ReleaseHolders(c: Setup, holders: map<string, int>, busy: map<int, seq<string>>, i: int, ks: set<string>)
    requires HoldersOk(c, holders, busy) && i in busy
    requires forall k :: k in ks <==> k in holders && holders[k] == i
    ensures HoldersOk(c, holders - ks, busy - {i})
  {
    forall j, k | j in busy - {i} && k in AllKeys(c, busy[j]) ensures Lookup(holders - ks, k) == Some(j) {
      assert Lookup(holders, k) == Some(j);
    }
  }

  lemma FreedInvariant(c: Setup, s: State, m: Message)
    requires Invariant(c, s) && Enabled(s, m)
    ensures Invariant(c, Freed(s, m))
  {
    if m.Finished? {
      var i, keys := m.worker, m.keys;
      ReleaseHolders(c, s.holders, s.busy, i, set k | k in keys);
      FreedConserves(s, m);
      GatherSplit(s.busy, i);
      assert |s.busy| == |s.busy - {i}| + 1;
    }
  }

  lemma SequentialInvariant(c: Setup, s: State)
    requires Invariant(c, s)
    ensures Invariant(c, TakeSequential(s))
  {
  }

  /** Tests in the batch are free of keys in use; parked tests wait for one. */
  ghost predicate RoundOk(c: Setup, holders: map<string, int>, r: Round) {
    ParkedOk(c, r.waiting, holders) && forall t | t in r.files :: Blocker(Keys(c, t), holders).None?
  }

  lemma PopOk(c: Setup, holders: map<string, int>, r: Round)
    requires RoundOk(c, holders, r) && r.pending != []
    ensures RoundOk(c, holders, Pop(c, holders, r))
  {
  }

  lemma {:induction false} ComposeOk(c: Setup, holders: map<string, int>, r: Round, size: nat)
    requires RoundOk(c, holders, r)
    ensures RoundOk(c, holders, Compose(c, holders, r, size))
    decreases |r.pending|
  {
    if |r.files| <= size && r.pending != [] {
      PopOk(c, holders, r);
      ComposeOk(c, holders, Pop(c, holders, r), size);
    }
  }

  /** A batch stays empty only if every pending test is parked, which takes a key in use. */
  lemma {:induction false} ComposeProgress(c: Setup, holders: map<string, int>, r: Round, size: nat)
    ensures Compose(c, holders, r, size).files == [] ==> Compose(c, holders, r, size).pending == []
    ensures holders == map[] ==> Compose(c, holders, r, size).waiting == r.waiting
    ensures holders == map[] && (r.pending != [] || r.files != []) ==> Compose(c, holders, r, size).files != []
    decreases |r.pending|
  {
    if |r.files| <= size && r.pending != [] {
      ComposeProgress(c, holders, Pop(c, holders, r), size);
    }
  }

  lemma ClaimHolders(c: Setup, holders: map<string, int>, busy: map<int, seq<string>>, i: int, files: seq<string>)
    requires HoldersOk(c, holders, busy) && i !in busy
    requires forall t | t in files :: Blocker(Keys(c, t), holders).None?
    ensures HoldersOk(c, Claim(c, holders, files, i), busy[i := files])
    ensures holders.Keys <= Claim(c, holders, files, i).Keys
  {
    var holders', busy' := Claim(c, holders, files, i), busy[i := files];
    forall k | k in AllKeys(c, files) ensures k !in holders {
      var t :| t in files && k in Keys(c, t);
      assert Blocker(Keys(c, t), holders).None?;
    }
    forall k | k in holders' ensures holders'[k] in busy' && k in AllKeys(c, busy'[holders'[k]]) {
      if k !in AllKeys(c, files) {
        assert k in holders && holders'[k] == holders[k];
      }
    }
    forall j, k | j in busy' && k in AllKeys(c, busy'[j]) ensures Lookup(holders', k) == Some(j) {
      if j != i {
        assert Lookup(holders, k) == Some(j);
      }
    }
  }

  lemma DispatchInvariant(c: Setup, s: State, i: int)
    requires Invariant(c, s) && i in s.live && i !in s.busy
    requires |s.live| == 1 ==> s.sequential == []
    ensures Invariant(c, Dispatch(c, s, i))
  {
    hide HoldersOk, ExclusiveOk, Claim, BatchSize, Compose, Blocker, AllKeys, Keys;
    var r, size := Round(s.pending, s.waiting, []), BatchSize(c, LiveCount(s));
    ComposeOk(c, s.holders, r, size);
    ComposeProgress(c, s.holders, r, size);
    var d := Dispatch(c, s, i);
    var files := Batch(c, s).files;
    ClaimHolders(c, s.holders, s.busy, i, files);
    DispatchExclusive(c, s, i);
    if files != [] {
      assert |s.busy[i := files]| == |s.busy| + 1;
    } else {
      assert |s.live - {i}| == |s.live| - 1;
    }
  }

  lemma DispatchExclusive(c: Setup, s: State, i: int)
    requires ExclusiveOk(c, s) && i in s.live && i !in s.busy
    ensures ExclusiveOk(c, Dispatch(c, s, i))
  {
    var d := Dispatch(c, s, i);
    DispatchConserves(c, s, i);
    assert Undispatched(d) + Gather(d.busy) == Undispatched(s) + Gather(s.busy);
    assert d.live <= s.live;
    assert |s.live - {i}| == |s.live| - 1;
  }

  lemma StepInvariant(c: Setup, s: State, m: Message)
    requires Invariant(c, s) && Enabled(s, m)
    ensures Invariant(c, Step(c, s, m))
  {
    FreedInvariant(c, s, m);
    SequentialInvariant(c, Freed(s, m));
    DispatchInvariant(c, TakeSequential(Freed(s, m)), m.worker);
  }

  /******* The size of a batch *******/

  /** A quotient rounded up. */
  lemma RoundedUp(total: nat, workers: nat)
    requires workers > 0
    ensures var q := (total + workers - 1) / workers; (q - 1) * workers < total <= q * workers || (q == 0 && total == 0)
  {
    var q, r := (total + workers - 1) / workers, (total + workers - 1) % workers;
    assert total + workers - 1 == q * workers + r;
    assert (q - 1) * workers == q * workers - workers;
  }

  /** The loop stops above `size` tests or when none is pending, and never goes further. */
  lemma {:induction false} ComposeStops(c: Setup, holders: map<string, int>, r: Round, size: nat)
    requires |r.files| <= size + 1
    ensures var r' := Compose(c, holders, r, size);
            |r'.files| <= size + 1 && (r'.pending != [] ==> |r'.files| == size + 1)
    decreases |r.pending|
  {
    if |r.files| <= size && r.pending != [] {
      ComposeStops(c, holders, Pop(c, holders, r), size);
    }
  }

  /** A larger share has at least as many tests. */
  lemma Shares(m: int, n: int, workers: nat)
    requires m <= n
    ensures m * workers <= n * workers
  {
  }

  /**
   A batch that leaves tests on the stack has one test more than the largest batch, or, not
   counting one test, at least an even share of all tests for the workers alive. No batch
   has more than one test above the largest, and a batch of three or more is, not counting
   two, less than an even share.
   */
  lemma BatchBounds(c: Setup, s: State)
    requires s.live != {}
    ensures var r := Batch(c, s);
            && |r.files| <= c.maxBatch + 1
            && (r.pending != [] ==> |r.files| == c.maxBatch + 1 || (|r.files| - 1) * |s.live| >= c.total)
            && (|r.files| > 2 ==> (|r.files| - 2) * |s.live| < c.total)
  {
    var size, n := BatchSize(c, LiveCount(s)), |s.live|;
    var share := (c.total + n - 1) / n;
    RoundedUp(c.total, n);
    ComposeStops(c, s.holders, Round(s.pending, s.waiting, []), size);
    hide Compose;
    var files := |Batch(c, s).files|;
    assert size <= c.maxBatch && (size == c.maxBatch || (size >= share && size >= 1));
    assert size >= 2 ==> size <= share;
    if size >= share {
      Shares(share, size, n);
    }
    if files > 2 {
      Shares(files - 2, share - 1, n);
    }
  }

  /** A worker that is sent tests is sent a batch within those bounds. */
  lemma SentWithinBounds(c: Setup, s: State, m: Message)
    requires Enabled(s, m) && m.worker in Step(c, s, m).busy
    ensures var n := |Step(c, s, m).busy[m.worker]|;
            && 0 < n <= c.maxBatch + 1
            && (Step(c, s, m).pending != [] ==> n == c.maxBatch + 1 || (n - 1) * |s.live| >= c.total)
            && (n > 2 ==> (n - 2) * |s.live| < c.total)
  {
    hide Compose, BatchSize, Claim, ReleaseKeys;
    var d := TakeSequential(Freed(s, m));
    BatchBounds(c, d);
    assert d.live == s.live && m.worker !in d.busy;
  }

  /******* Runs *******/

  /** The exclusive tests set aside in order, the others stacked in some order. */
  ghost predicate Start(c: Setup, tests: seq<string>, s: State) {
    && multiset(s.pending) == multiset(Filter(NotExclusive(c), tests))
    && s.sequential == Filter(IsExclusive(c), tests)
    && s.waiting == map[] && s.holders == map[] && s.live != {} && s.inProgress == 0
    && s.busy == map[] && s.log == [] && s.finished == multiset{}
  }

  ghost predicate Valid(c: Setup, s: State, ms: seq<Message>)
    decreases |ms|
  {
    ms == [] || (Enabled(s, ms[0]) && Valid(c, Step(c, s, ms[0]), ms[1..]))
  }

  ghost function Exec(c: Setup, s: State, ms: seq<Message>): State
    requires Valid(c, s, ms)
    decreases |ms|
  {
    if ms == [] then s else Exec(c, Step(c, s, ms[0]), ms[1..])
  }

  lemma {:induction false} FilterSplits(p: string -> bool, q: string -> bool, ts: seq<string>)
    requires forall t :: q(t) <==> !p(t)
    ensures multiset(Filter(p, ts)) + multiset(Filter(q, ts)) == multiset(ts)
  {
    if ts != [] {
      FilterSplits(p, q, ts[1..]);
      assert ts == [ts[0]] + ts[1..];
    }
  }

  lemma {:induction false} FilterSatisfies(p: string -> bool, ts: seq<string>)
    ensures forall t | t in Filter(p, ts) :: p(t) && t in ts
  {
    if ts != [] {
      FilterSatisfies(p, ts[1..]);
    }
  }

  lemma StartInvariant(c: Setup, tests: seq<string>, s: State)
    requires Start(c, tests, s)
    ensures Invariant(c, s) && AllTests(s) == multiset(tests)
  {
    FilterSplits(IsExclusive(c), NotExclusive(c), tests);
    StartExclusive(c, tests, s);
    assert Gather(s.waiting) == multiset{} && Gather(s.busy) == multiset{};
  }

  lemma StartExclusive(c: Setup, tests: seq<string>, s: State)
    requires Start(c, tests, s)
    ensures ExclusiveOk(c, s)
  {
    FilterSatisfies(IsExclusive(c), tests);
    FilterSatisfies(NotExclusive(c), tests);
    var others := Filter(NotExclusive(c), tests);
    assert Undispatched(s) + Gather(s.busy) == multiset(others);
    assert forall t :: t in multiset(others) <==> t in others;
  }

  lemma {:induction false} RunInvariant(c: Setup, s: State, ms: seq<Message>)
    requires Invariant(c, s) && Valid(c, s, ms)
    ensures Invariant(c, Exec(c, s, ms))
    ensures AllTests(Exec(c, s, ms)) == AllTests(s)
    decreases |ms|
  {
    if ms != [] {
      StepInvariant(c, s, ms[0]);
      StepConserves(c, s, ms[0]);
      RunInvariant(c, Step(c, s, ms[0]), ms[1..]);
    }
  }

  /******* Nothing lost, nothing run twice *******/

  /** The condition under which the coordinator keeps looping. */
  predicate Looping(s: State) {
    s.pending != [] || s.sequential != [] || s.inProgress > 0
  }

  /** In every reachable state each test is in one place; a parked test waits for a busy worker. */
  lemma NoTestIsLost(c: Setup, tests: seq<string>, s: State, ms: seq<Message>)
    requires Start(c, tests, s) && Valid(c, s, ms)
    ensures AllTests(Exec(c, s, ms)) == multiset(tests)
    ensures var t := Exec(c, s, ms);
            forall k :: k in t.waiting ==> k in t.holders && t.holders[k] in t.busy && t.holders[k] in t.live
  {
    StartInvariant(c, tests, s);
    RunInvariant(c, s, ms);
  }

  /** When the loop exits every test has finished exactly as often as it was given. */
  lemma EveryTestFinishes(c: Setup, tests: seq<string>, s: State, ms: seq<Message>)
    requires Start(c, tests, s) && Valid(c, s, ms) && !Looping(Exec(c, s, ms))
    ensures Exec(c, s, ms).finished == multiset(tests)
    ensures Exec(c, s, ms).waiting == map[] && Exec(c, s, ms).busy == map[]
  {
    StartInvariant(c, tests, s);
    RunInvariant(c, s, ms);
    var t := Exec(c, s, ms);
    assert |t.busy| == 0;
    assert t.waiting.Keys == {};
    assert t.waiting == map[] && t.busy == map[];
  }

  /******* Mutual exclusion *******/

  /** No two workers run tests that share a key, and an exclusive test runs on the only worker. */
  lemma MutualExclusion(c: Setup, tests: seq<string>, s: State, ms: seq<Message>, i: int, j: int)
    requires Start(c, tests, s) && Valid(c, s, ms)
    requires i in Exec(c, s, ms).busy && j in Exec(c, s, ms).busy
    ensures i != j ==> AllKeys(c, Exec(c, s, ms).busy[i]) !! AllKeys(c, Exec(c, s, ms).busy[j])
    ensures (exists t :: t in Exec(c, s, ms).busy[i] && "all" in Keys(c, t)) ==> Exec(c, s, ms).live == {i}
  {
    StartInvariant(c, tests, s);
    RunInvariant(c, s, ms);
    var u := Exec(c, s, ms);
    if i != j {
      DisjointKeys(c, u, i, j);
    }
    if t :| t in u.busy[i] && "all" in Keys(c, t) {
      AloneWhenExclusive(c, u, i, t);
    }
  }

  lemma DisjointKeys(c: Setup, u: State, i: int, j: int)
    requires HoldersOk(c, u.holders, u.busy) && i in u.busy && j in u.busy && i != j
    ensures AllKeys(c, u.busy[i]) !! AllKeys(c, u.busy[j])
  {
    forall k | k in AllKeys(c, u.busy[i]) ensures k !in AllKeys(c, u.busy[j]) {
      assert Lookup(u.holders, k) == Some(i);
    }
  }

  lemma AloneWhenExclusive(c: Setup, u: State, i: int, t: string)
    requires ExclusiveOk(c, u) && i in u.busy && i in u.live
    requires t in u.busy[i] && Exclusive(c, t)
    ensures u.live == {i}
  {
    GatherHas(u.busy, i, t);
    assert t in Undispatched(u) + Gather(u.busy);
    assert |u.live - {i}| == |u.live| - 1;
    assert u.live == {i} + (u.live - {i});
  }

  /******* Progress *******/

  /** Tests still to send, counted with the workers still alive. */
  ghost function Remaining(s: State): nat {
    |Undispatched(s)| + |s.sequential| + |s.live|
  }

  /** Every handled message sends at least one test or retires a worker. */
  lemma StepDecreases(c: Setup, s: State, m: Message)
    requires Enabled(s, m)
    ensures Remaining(Step(c, s, m)) < Remaining(s)
  {
    FreedConserves(s, m);
    SequentialRemaining(Freed(s, m));
    DispatchDecreases(c, TakeSequential(Freed(s, m)), m.worker);
  }

  lemma SequentialRemaining(s: State)
    ensures Remaining(TakeSequential(s)) == Remaining(s)
  {
    var t := TakeSequential(s);
    if t != s {
      assert Undispatched(t) == Undispatched(s) + multiset(s.sequential);
    }
  }

  lemma DispatchDecreases(c: Setup, s: State, i: int)
    requires i in s.live && i !in s.busy
    ensures Remaining(Dispatch(c, s, i)) < Remaining(s)
  {
    DispatchConserves(c, s, i);
    var files := Batch(c, s).files;
    assert |Undispatched(s)| == |Undispatched(Dispatch(c, s, i))| + |files|;
    assert |s.live - {i}| == |s.live| - 1;
  }

  /** A run handles at most one message per test and worker. */
  lemma {:induction false} RunLength(c: Setup, s: State, ms: seq<Message>)
    requires Valid(c, s, ms)
    ensures |ms| + Remaining(Exec(c, s, ms)) <= Remaining(s)
    decreases |ms|
  {
    if ms != [] {
      StepDecreases(c, s, ms[0]);
      RunLength(c, Step(c, s, ms[0]), ms[1..]);
    }
  }

  /** The last worker is retired only when nothing is pending, set aside or parked. */
  lemma LastWorkerLeavesNothing(c: Setup, tests: seq<string>, s: State, ms: seq<Message>)
    requires Start(c, tests, s) && Valid(c, s, ms) && Exec(c, s, ms).live == {}
    ensures !Looping(Exec(c, s, ms)) && Exec(c, s, ms).waiting == map[]
    ensures Exec(c, s, ms).finished == multiset(tests)
  {
    StartInvariant(c, tests, s);
    RunInvariant(c, s, ms);
    var t := Exec(c, s, ms);
    assert t.busy == map[];
    EveryTestFinishes(c, tests, s, ms);
  }

  lemma {:induction false} KeysCanBeListed(ks: set<string>) returns (keys: seq<string>)
    ensures forall k :: k in keys <==> k in ks
    ensures forall i, j | 0 <= i < j < |keys| :: keys[i] != keys[j]
    decreases ks
  {
    if ks == {} {
      keys := [];
    } else {
      var k :| k in ks;
      var rest := KeysCanBeListed(ks - {k});
      keys := [k] + rest;
    }
  }

  /** While the loop runs, some worker has a message to send: the coordinator never waits in vain. */
  lemma NeverStuck(c: Setup, tests: seq<string>, s: State, ms: seq<Message>) returns (m: Message)
    requires Start(c, tests, s) && Valid(c, s, ms) && Looping(Exec(c, s, ms))
    ensures Enabled(Exec(c, s, ms), m)
  {
    StartInvariant(c, tests, s);
    RunInvariant(c, s, ms);
    m := SomeMessage(c, Exec(c, s, ms));
  }

  lemma SomeMessage(c: Setup, t: State) returns (m: Message)
    requires Invariant(c, t) && Looping(t)
    ensures Enabled(t, m)
  {
    if t.busy.Keys != {} {
      var i := AnyOf(t.busy.Keys);
      var keys := KeysCanBeListed(set k | k in t.holders && t.holders[k] == i);
      m := Finished(i, keys);
    } else {
      assert t.busy == map[] && |t.busy| == 0;
      m := Ready(AnyOf(t.live));
    }
  }
}
