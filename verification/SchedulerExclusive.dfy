/** Tests that exclude all others: the order in which they are sent once one worker is left. */
module SchedulerExclusive {
  import opened Sequences
  import opened Scheduler
  import opened SchedulerOrder

  /** The exclusive tests sent, then those stacked, then those set aside, read backwards. */
  ghost function ExclusiveLine(c: Setup, s: State): seq<string> {
    Filter(IsExclusive(c), s.log) + Filter(IsExclusive(c), Reverse(s.pending)) + Reverse(s.sequential)
  }

  /** Exclusive tests are never parked, and stacked only once none is set aside. */
  ghost predicate Apart(c: Setup, s: State) {
    && (forall k :: k in s.waiting ==> NoExclusive(c, s.waiting[k]))
    && (s.sequential != [] ==> NoExclusive(c, s.pending))
  }

  lemma {:induction false} ReverseMembers(ts: seq<string>)
    ensures forall t :: t in Reverse(ts) <==> t in ts
  {
    if ts != [] {
      ReverseMembers(ts[1..]);
    }
  }

  lemma ReleaseKeyApart(c: Setup, s: State, k: string)
    requires Apart(c, s)
    ensures Apart(c, ReleaseKey(s, k)) && ExclusiveLine(c, ReleaseKey(s, k)) == ExclusiveLine(c, s)
  {
    hide Filter, Reverse, Exclusive;
    var p := IsExclusive(c);
    var parked := Waiting(s.waiting, k);
    ReverseMembers(parked);
    ReverseAppend(s.pending, Reverse(parked));
    ReverseTwice(parked);
    FilterAppend(p, parked, Reverse(s.pending));
    FilterNone(p, parked);
  }

  lemma {:induction false} ReleaseKeysApart(c: Setup, s: State, keys: seq<string>)
    requires Apart(c, s)
    ensures Apart(c, ReleaseKeys(s, keys)) && ExclusiveLine(c, ReleaseKeys(s, keys)) == ExclusiveLine(c, s)
    decreases |keys|
  {
    if keys != [] {
      ReleaseKeyApart(c, s, keys[0]);
      ReleaseKeysApart(c, ReleaseKey(s, keys[0]), keys[1..]);
    }
  }

  lemma SequentialApart(c: Setup, s: State)
    requires Apart(c, s) && ExclusiveOk(c, s)
    ensures Apart(c, TakeSequential(s)) && ExclusiveLine(c, TakeSequential(s)) == ExclusiveLine(c, s)
  {
    hide Filter, Exclusive;
    var p := IsExclusive(c);
    if TakeSequential(s) != s {
      ReverseAppend(s.pending, s.sequential);
      FilterAppend(p, Reverse(s.sequential), Reverse(s.pending));
      ReverseMembers(s.pending);
      FilterNone(p, Reverse(s.pending));
      ReverseMembers(s.sequential);
      FilterAll(p, Reverse(s.sequential));
    }
  }

  lemma {:induction false} FilterAll(p: string -> bool, ts: seq<string>)
    requires forall t | t in ts :: p(t)
    ensures Filter(p, ts) == ts
  {
    if ts != [] {
      FilterAll(p, ts[1..]);
    }
  }

  /** Where exclusive tests are stacked no key is in use, so they go straight into the batch. */
  lemma {:induction false} ComposeExclusive(c: Setup, holders: map<string, int>, r: Round, size: nat)
    requires holders == map[] || NoExclusive(c, r.pending)
    requires forall k :: k in r.waiting ==> NoExclusive(c, r.waiting[k])
    ensures var r' := Compose(c, holders, r, size);
            && (forall k :: k in r'.waiting ==> NoExclusive(c, r'.waiting[k]))
            && (NoExclusive(c, r.pending) ==> NoExclusive(c, r'.pending))
            && Filter(IsExclusive(c), r'.files) + Filter(IsExclusive(c), Reverse(r'.pending))
               == Filter(IsExclusive(c), r.files) + Filter(IsExclusive(c), Reverse(r.pending))
    decreases |r.pending|
  {
    if |r.files| <= size && r.pending != [] {
      PopExclusive(c, holders, r);
      ComposeExclusive(c, holders, Pop(c, holders, r), size);
    }
  }

  lemma PopExclusive(c: Setup, holders: map<string, int>, r: Round)
    requires r.pending != [] && (holders == map[] || NoExclusive(c, r.pending))
    requires forall k :: k in r.waiting ==> NoExclusive(c, r.waiting[k])
    ensures var r' := Pop(c, holders, r);
            && (forall k :: k in r'.waiting ==> NoExclusive(c, r'.waiting[k]))
            && (NoExclusive(c, r.pending) ==> NoExclusive(c, r'.pending))
            && Filter(IsExclusive(c), r'.files) + Filter(IsExclusive(c), Reverse(r'.pending))
               == Filter(IsExclusive(c), r.files) + Filter(IsExclusive(c), Reverse(r.pending))
  {
    hide Filter, Reverse, Blocker, Exclusive;
    var p := IsExclusive(c);
    var t, rest := r.pending[|r.pending| - 1], r.pending[..|r.pending| - 1];
    TopFiltered(p, r.pending);
    PushFiltered(p, r.files, t);
    var files, stacked := Filter(p, r.files), Filter(p, Reverse(rest));
    assert files + (One(p, t) + stacked) == (files + One(p, t)) + stacked;
    assert !p(t) ==> One(p, t) + stacked == stacked;
    assert t in r.pending;
    assert forall x | x in rest :: x in r.pending;
  }

  lemma DispatchApart(c: Setup, s: State, i: int)
    requires Invariant(c, s) && Apart(c, s) && i in s.live && i !in s.busy
    ensures Apart(c, Dispatch(c, s, i)) && ExclusiveLine(c, Dispatch(c, s, i)) == ExclusiveLine(c, s)
  {
    hide Invariant, NoExclusive, Reverse, Compose, Exclusive, Claim;
    var p := IsExclusive(c);
    FreeOrOrdinary(c, s, i);
    ComposeExclusive(c, s.holders, Round(s.pending, s.waiting, []), BatchSize(c, LiveCount(s)));
    var r := Batch(c, s);
    FilterAppend(p, s.log, r.files);
    Reassociate(Filter(p, s.log), Filter(p, r.files), Filter(p, Reverse(r.pending)), Filter(p, Reverse(s.pending)));
  }

  lemma {:induction false} RunExclusive(c: Setup, s: State, ms: seq<Message>)
    requires Invariant(c, s) && Apart(c, s) && Valid(c, s, ms)
    ensures ExclusiveLine(c, Exec(c, s, ms)) == ExclusiveLine(c, s)
    decreases |ms|
  {
    if ms != [] {
      var m := ms[0];
      StepApart(c, s, m);
      StepInvariant(c, s, m);
      RunExclusive(c, Step(c, s, m), ms[1..]);
    }
  }

  lemma StepApart(c: Setup, s: State, m: Message)
    requires Invariant(c, s) && Apart(c, s) && Enabled(s, m)
    ensures Apart(c, Step(c, s, m)) && ExclusiveLine(c, Step(c, s, m)) == ExclusiveLine(c, s)
  {
    if m.Finished? {
      ReleaseKeysApart(c, Finish(s, m.worker), m.keys);
    }
    FreedInvariant(c, s, m);
    SequentialApart(c, Freed(s, m));
    SequentialInvariant(c, Freed(s, m));
    DispatchApart(c, TakeSequential(Freed(s, m)), m.worker);
  }

  /**
   Tests with key "all" are sent in the reverse of the order given, so that order is kept
   for them exactly when it reads the same backwards.
   */
  lemma ExclusiveTestsAreReversed(c: Setup, tests: seq<string>, s: State, ms: seq<Message>)
    requires Start(c, tests, s) && Valid(c, s, ms)
    ensures var given := Filter(IsExclusive(c), tests);
            && Filter(IsExclusive(c), Exec(c, s, ms).log) <= Reverse(given)
            && (!Looping(Exec(c, s, ms)) ==>
              (Filter(IsExclusive(c), Exec(c, s, ms).log) == given <==> Reverse(given) == given))
  {
    StartInvariant(c, tests, s);
    StartApart(c, tests, s);
    RunExclusive(c, s, ms);
    AllSent(c, Exec(c, s, ms));
  }

  lemma AllSent(c: Setup, s: State)
    ensures Filter(IsExclusive(c), s.log) <= ExclusiveLine(c, s)
    ensures !Looping(s) ==> Filter(IsExclusive(c), s.log) == ExclusiveLine(c, s)
  {
  }

  lemma StartApart(c: Setup, tests: seq<string>, s: State)
    requires Start(c, tests, s)
    ensures Apart(c, s) && ExclusiveLine(c, s) == Reverse(Filter(IsExclusive(c), tests))
  {
    StackedAreOrdinary(c, tests, s);
    hide Exclusive;
    ReverseMembers(s.pending);
    FilterNone(IsExclusive(c), Reverse(s.pending));
    assert Filter(IsExclusive(c), []) == [];
  }

  lemma StackedAreOrdinary(c: Setup, tests: seq<string>, s: State)
    requires Start(c, tests, s)
    ensures NoExclusive(c, s.pending)
  {
    FilterSatisfies(NotExclusive(c), tests);
    hide Exclusive, Filter;
    var others := Filter(NotExclusive(c), tests);
    forall t | t in s.pending ensures !Exclusive(c, t) {
      assert t in multiset(s.pending);
      assert t in multiset(others);
      assert t in others && NotExclusive(c)(t);
    }
  }
}
