/** The coordinator of the parallel test run, proved to take the steps of module Scheduler. */
module Coordinator {
  import opened Options
  import opened Sequences
  import opened Scheduler
  import opened SchedulerOrder

  /** Sets aside the tests that exclude all others. */
  method SplitTests(tests: seq<string>, conflicts: map<string, seq<string>>)
    returns (files: seq<string>, sequential: seq<string>)
    ensures forall c: Setup :: c.conflicts == conflicts ==>
              files == Filter(NotExclusive(c), tests) && sequential == Filter(IsExclusive(c), tests)
  {
    files, sequential := [], [];
    ghost var k := Setup(conflicts, 0, 0);
    for i := 0 to |tests|
      invariant files == Filter(NotExclusive(k), tests[..i])
      invariant sequential == Filter(IsExclusive(k), tests[..i])
    {
      var file := tests[i];
      assert tests[..i + 1] == tests[..i] + [file];
      PushFiltered(NotExclusive(k), tests[..i], file);
      PushFiltered(IsExclusive(k), tests[..i], file);
      if file in conflicts && ALL in conflicts[file] {
        sequential := sequential + [file];
      } else {
        files := files + [file];
      }
    }
    assert tests[..|tests|] == tests;
    forall c: Setup | c.conflicts == conflicts
      ensures files == Filter(NotExclusive(c), tests) && sequential == Filter(IsExclusive(c), tests)
    {
      SameConflicts(k, c, tests);
    }
  }

  /** Workers are numbered from 1. */
  method SpawnWorkers(workers: nat) returns (procs: set<int>)
    ensures |procs| == workers
    ensures forall i :: i in procs <==> 1 <= i <= workers
  {
    procs := {};
    for i := 1 to workers + 1
      invariant |procs| == i - 1
      invariant forall j :: j in procs <==> 1 <= j < i
    {
      procs := procs + {i};
    }
  }

  class Coordinator {
    const c: Setup
    var testFiles: seq<string>
    var sequentialTests: seq<string>
    var waitingTests: map<string, seq<string>>
    var activeConflicts: map<string, int>
    var workerProcs: set<int>
    var testsInProgress: int
    ghost var busy: map<int, seq<string>>
    ghost var log: seq<string>
    ghost var finished: multiset<string>

    ghost function Model(): State
      reads this
    {
      State(testFiles, sequentialTests, waitingTests, activeConflicts, workerProcs,
            testsInProgress, busy, log, finished)
    }

    ghost predicate Valid()
      reads this
    {
      Invariant(c, Model())
    }

    /** Sets the exclusive tests aside, stacks the others and starts the workers. */
    constructor (tests: seq<string>, conflicts: map<string, seq<string>>, maxBatch: nat, workers: nat)
      ensures Valid() && OrderedStart(c, tests, Model())
      ensures c.conflicts == conflicts && c.maxBatch == maxBatch && c.total == |testFiles|
      ensures |workerProcs| == Max(1, Min(workers, |testFiles|))
    {
      var files, sequential := SplitTests(tests, conflicts);
      var procs := SpawnWorkers(Max(1, Min(workers, |files|)));
      c := Setup(conflicts, maxBatch, |files|);
      testFiles := Reverse(files);
      sequentialTests := sequential;
      workerProcs := procs;
      waitingTests, activeConflicts, testsInProgress := map[], map[], 0;
      busy, log, finished := map[], [], multiset{};
      new;
      ReverseMultiset(files);
      StartInvariant(c, tests, Model());
    }

    /** Puts back the tests parked under one key, so that the first parked is on top. */
    method ReleaseConflict(k: string)
      modifies this`activeConflicts, this`waitingTests, this`testFiles
      ensures Model() == ReleaseKey(old(Model()), k)
    {
      activeConflicts := activeConflicts - {k};
      if k in waitingTests {
        var parked := waitingTests[k];
        while parked != []
          invariant activeConflicts == old(activeConflicts) - {k} && waitingTests == old(waitingTests)
          invariant testFiles + Reverse(parked) == old(testFiles) + Reverse(old(waitingTests[k]))
          decreases |parked|
        {
          var test := parked[|parked| - 1];
          var rest := parked[..|parked| - 1];
          assert parked == rest + [test];
          ReverseAppend(rest, [test]);
          assert Reverse([test]) == [test];
          assert testFiles + Reverse(parked) == testFiles + [test] + Reverse(rest);
          testFiles := testFiles + [test];
          parked := rest;
        }
        assert testFiles + Reverse([]) == testFiles;
        waitingTests := waitingTests - {k};
      } else {
        assert waitingTests - {k} == waitingTests;
        assert testFiles + Reverse([]) == testFiles;
      }
    }

    method ReleaseConflicts(i: int) returns (ghost keys: seq<string>)
      modifies this`activeConflicts, this`waitingTests, this`testFiles
      ensures Enumerates(keys, old(activeConflicts), i)
      ensures Model() == ReleaseKeys(old(Model()), keys)
    {
      keys := [];
      var rest := set k | k in activeConflicts && activeConflicts[k] == i;
      while rest != {}
        invariant Model() == ReleaseKeys(old(Model()), keys)
        invariant forall k :: k in old(activeConflicts) && old(activeConflicts)[k] == i <==> k in keys || k in rest
        invariant forall a, b | 0 <= a < b < |keys| :: keys[a] != keys[b]
        invariant forall k | k in keys :: k !in rest
        decreases rest
      {
        var k :| k in rest;
        ReleaseConflict(k);
        ReleaseOneMore(old(Model()), keys, k);
        keys := keys + [k];
        rest := rest - {k};
      }
    }

    /** Pops one test into the batch, or parks it under the first of its keys in use. */
    method PopTest(files: seq<string>) returns (files': seq<string>)
      requires testFiles != []
      modifies this`testFiles, this`waitingTests
      ensures Round(testFiles, waitingTests, files')
              == Pop(c, activeConflicts, Round(old(testFiles), old(waitingTests), files))
      ensures |testFiles| == |old(testFiles)| - 1
    {
      var file := testFiles[|testFiles| - 1];
      testFiles := testFiles[..|testFiles| - 1];
      var keys := Keys(c, file);
      var j := 0;
      while j < |keys|
        invariant 0 <= j <= |keys|
        invariant Blocker(keys, activeConflicts) == Blocker(keys[j..], activeConflicts)
      {
        if keys[j] in activeConflicts {
          waitingTests := waitingTests[keys[j] := Waiting(waitingTests, keys[j]) + [file]];
          return files;
        }
        j := j + 1;
      }
      files' := files + [file];
    }

    method ClaimKeys(keys: seq<string>, i: int)
      modifies this`activeConflicts
      ensures activeConflicts == old(activeConflicts) + map k | k in keys :: i
    {
      for j := 0 to |keys|
        invariant activeConflicts == old(activeConflicts) + map k | k in keys[..j] :: i
      {
        assert keys[..j + 1] == keys[..j] + [keys[j]];
        activeConflicts := activeConflicts[keys[j] := i];
      }
      assert keys[..|keys|] == keys;
    }

    method ClaimConflicts(files: seq<string>, i: int)
      modifies this`activeConflicts
      ensures activeConflicts == Claim(c, old(activeConflicts), files, i)
    {
      hide Claim;
      NothingClaimed(c, activeConflicts, i);
      for n := 0 to |files|
        invariant activeConflicts == Claim(c, old(activeConflicts), files[..n], i)
      {
        ClaimKeys(Keys(c, files[n]), i);
        assert files[..n + 1] == files[..n] + [files[n]];
        ClaimOneMore(c, old(activeConflicts), files[..n], files[n], i);
      }
      assert files[..|files|] == files;
    }

    method ComposeBatch(size: nat) returns (files: seq<string>)
      modifies this`testFiles, this`waitingTests
      ensures Round(testFiles, waitingTests, files)
              == Compose(c, activeConflicts, Round(old(testFiles), old(waitingTests), []), size)
    {
      hide Pop;
      files := [];
      while |files| <= size && testFiles != []
        invariant Compose(c, activeConflicts, Round(testFiles, waitingTests, files), size)
                  == Compose(c, activeConflicts, Round(old(testFiles), old(waitingTests), []), size)
        decreases |testFiles|
      {
        files := PopTest(files);
      }
    }

    /** Gives worker `i` a batch, or retires it when no test can be given. */
    method Assign(i: int)
      requires i in workerProcs
      modifies this
      ensures Model() == Dispatch(c, TakeSequential(old(Model())), i)
    {
      hide Compose, Claim, BatchSize;
      if |workerProcs| == 1 && sequentialTests != [] {
        testFiles := testFiles + sequentialTests;
        sequentialTests := [];
      }
      ghost var s := Model();
      assert s == TakeSequential(old(Model()));
      SomeLive(workerProcs, i);
      var files := ComposeBatch(BatchSize(c, |workerProcs|));
      if files != [] {
        ClaimConflicts(files, i);
        testsInProgress := testsInProgress + 1;
        busy := busy[i := files];
        log := log + files;
      } else {
        workerProcs := workerProcs - {i};
      }
    }

    method HandleReady(i: int)
      requires Valid() && Enabled(Model(), Ready(i))
      modifies this
      ensures Valid() && Model() == Step(c, old(Model()), Ready(i))
    {
      StepInvariant(c, Model(), Ready(i));
      Assign(i);
    }

    method HandleTestsFinished(i: int) returns (ghost m: Message)
      requires Valid() && i in busy
      modifies this
      ensures m.Finished? && m.worker == i && Enabled(old(Model()), m)
      ensures Valid() && Model() == Step(c, old(Model()), m)
    {
      ghost var s := Model();
      testsInProgress := testsInProgress - 1;
      finished := finished + multiset(busy[i]);
      busy := busy - {i};
      ghost var keys := ReleaseConflicts(i);
      m := Finished(i, keys);
      StepInvariant(c, s, m);
      Assign(i);
    }
  }

  lemma SameConflicts(a: Setup, b: Setup, tests: seq<string>)
    requires a.conflicts == b.conflicts
    ensures Filter(NotExclusive(a), tests) == Filter(NotExclusive(b), tests)
    ensures Filter(IsExclusive(a), tests) == Filter(IsExclusive(b), tests)
  {
    if tests != [] {
      SameConflicts(a, b, tests[1..]);
    }
  }

  lemma SomeLive(live: set<int>, i: int)
    requires i in live
    ensures |live| > 0
  {
  }

  lemma {:induction false} ReleaseOneMore(s: State, keys: seq<string>, k: string)
    ensures ReleaseKeys(s, keys + [k]) == ReleaseKey(ReleaseKeys(s, keys), k)
    decreases |keys|
  {
    if keys == [] {
      assert [] + [k] == [k];
    } else {
      assert (keys + [k])[1..] == keys[1..] + [k];
      ReleaseOneMore(ReleaseKey(s, keys[0]), keys[1..], k);
    }
  }

  lemma AllKeysOneMore(c: Setup, files: seq<string>, file: string)
    ensures AllKeys(c, files + [file]) == AllKeys(c, files) + set k | k in Keys(c, file)
  {
    forall k ensures k in AllKeys(c, files + [file]) <==> k in AllKeys(c, files) || k in Keys(c, file) {
      if k in Keys(c, file) {
        assert file in files + [file];
      }
      if k in AllKeys(c, files) {
        var t :| t in files && k in Keys(c, t);
        assert t in files + [file];
      }
    }
  }

  lemma NothingClaimed(c: Setup, holders: map<string, int>, i: int)
    ensures Claim(c, holders, [], i) == holders
  {
  }

  lemma ClaimOneMore(c: Setup, holders: map<string, int>, files: seq<string>, file: string, i: int)
    ensures Claim(c, holders, files + [file], i)
            == Claim(c, holders, files, i) + map k | k in Keys(c, file) :: i
  {
    AllKeysOneMore(c, files, file);
    forall k
      ensures Lookup(Claim(c, holders, files + [file], i), k)
              == Lookup(Claim(c, holders, files, i) + map k | k in Keys(c, file) :: i, k)
    {
    }
    SameLookups(Claim(c, holders, files + [file], i), Claim(c, holders, files, i) + map k | k in Keys(c, file) :: i);
  }
}
