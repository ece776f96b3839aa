/**
 The remote-configuration code that updates the overlay in place, from the INI callback up
 to the delivery loop, proved to take the steps of module DynamicConfig.
 */
module RemoteConfigState {
  import opened Options
  import opened DynamicConfig

  datatype Mode = Read | ReadWrite | Overwrite | Restore

  datatype Update = AddFile(id: string, file: File) | RemoveFile(id: string)

  /******* compute_merged_configs *******/

  /** `id` has the smallest priority number among `ids`. */
  predicate Least(active: map<string, File>, ids: set<string>, id: string) {
    id in ids && id in active && forall j | j in ids :: j in active ==> active[id].priority <= active[j].priority
  }

  lemma {:induction false} SomeLeast(active: map<string, File>, ids: set<string>) returns (id: string)
    requires ids != {} && ids <= active.Keys
    ensures Least(active, ids, id)
    decreases ids
  {
    id :| id in ids;
    var rest := ids - {id};
    assert ids == rest + {id};
    if rest != {} {
      var least := SomeLeast(active, rest);
      if active[least].priority < active[id].priority {
        id := least;
      }
    }
  }

  ghost predicate SortedIds(active: map<string, File>, ids: seq<string>) {
    && (forall i | 0 <= i < |ids| :: ids[i] in active)
    && forall i, j | 0 <= i < j < |ids| :: active[ids[i]].priority <= active[ids[j]].priority
  }

  ghost predicate NoneTwice(ids: seq<string>) {
    forall i, j | 0 <= i < j < |ids| :: ids[i] != ids[j]
  }

  /** An order in which the files may be merged: each once, by priority, those of one priority in any order. */
  ghost predicate MergeOrder(active: map<string, File>, ids: seq<string>) {
    SortedIds(active, ids) && NoneTwice(ids) && forall id :: id in ids <==> id in active
  }

  method SortByPriority(active: map<string, File>) returns (ids: seq<string>)
    ensures MergeOrder(active, ids)
  {
    ids := [];
    var rest := active.Keys;
    while rest != {}
      invariant rest <= active.Keys
      invariant SortedIds(active, ids) && NoneTwice(ids)
      invariant forall id :: id in active <==> id in ids || id in rest
      invariant forall id | id in ids :: id !in rest
      invariant forall i, j | i in ids && j in rest :: active[i].priority <= active[j].priority
      decreases rest
    {
      ghost var least := SomeLeast(active, rest);
      assert Least(active, rest, least);
      var id :| id in rest && Least(active, rest, id);
      assert Least(active, rest, id);
      ids := ids + [id];
      rest := rest - {id};
    }
  }

  /** The settings of the files in the order of `ids`, one file after another. */
  ghost function Flat(active: map<string, File>, ids: seq<string>): seq<Config> {
    if ids == [] then []
    else Flat(active, ids[..|ids| - 1]) + ConfigsOf(active, ids[|ids| - 1])
  }

  function ConfigsOf(active: map<string, File>, id: string): seq<Config> {
    if id in active then active[id].configs else []
  }

  lemma FlatStep(active: map<string, File>, ids: seq<string>, i: nat)
    requires i < |ids|
    ensures Flat(active, ids[..i + 1]) == Flat(active, ids[..i]) + ConfigsOf(active, ids[i])
  {
    assert ids[..i + 1][..i] == ids[..i];
  }

  lemma {:induction false} FindAppend(a: seq<Config>, b: seq<Config>, n: string)
    ensures Find(a + b, n) == if Find(a, n).Some? then Find(a, n) else Find(b, n)
  {
    if a == [] {
      assert a + b == b;
    } else {
      assert (a + b)[1..] == a[1..] + b;
      FindAppend(a[1..], b, n);
    }
  }

  ghost predicate WinsAmong(active: map<string, File>, ids: seq<string>, id: string, n: string) {
    && id in ids && Carries(active, id, n)
    && forall j | j in ids && Carries(active, j, n) :: active[id].priority <= active[j].priority
  }

  lemma {:induction false} CarriedIsFound(active: map<string, File>, ids: seq<string>, id: string, n: string)
    requires forall i | 0 <= i < |ids| :: ids[i] in active
    requires id in ids && Carries(active, id, n)
    ensures Find(Flat(active, ids), n).Some?
  {
    var last := |ids| - 1;
    var init := ids[..last];
    assert ids == init + [ids[last]];
    FindAppend(Flat(active, init), active[ids[last]].configs, n);
    if id != ids[last] {
      CarriedIsFound(active, init, id, n);
    }
  }

  /** The first setting for `n` in priority order comes from a file that wins it. */
  lemma {:induction false} FirstInOrderWins(active: map<string, File>, ids: seq<string>, n: string)
    returns (id: string)
    requires SortedIds(active, ids) && Find(Flat(active, ids), n).Some?
    ensures WinsAmong(active, ids, id, n) && Find(active[id].configs, n) == Find(Flat(active, ids), n)
    decreases |ids|
  {
    hide SortedIds, Flat, Find, Carries, WinsAmong;
    var init, last := FlatParts(active, ids, n);
    FindAppend(Flat(active, init), active[last].configs, n);
    if Find(Flat(active, init), n).Some? {
      id := FirstInOrderWins(active, init, n);
      WinnerIsActive(active, init, id, n);
      StillWins(active, init, last, id, n);
    } else {
      id := last;
      LastWins(active, init, id, n);
    }
  }

  lemma FlatParts(active: map<string, File>, ids: seq<string>, n: string) returns (init: seq<string>, last: string)
    requires SortedIds(active, ids) && Find(Flat(active, ids), n).Some?
    ensures ids == init + [last] && |init| < |ids| && SortedIds(active, init) && last in active
    ensures Flat(active, ids) == Flat(active, init) + active[last].configs
  {
    NothingFound(active, n);
    hide Find;
    init, last := ids[..|ids| - 1], ids[|ids| - 1];
  }

  lemma NothingFound(active: map<string, File>, n: string)
    ensures Find(Flat(active, []), n).None?
  {
  }

  lemma WinnerIsActive(active: map<string, File>, ids: seq<string>, id: string, n: string)
    requires WinsAmong(active, ids, id, n)
    ensures id in active
  {
  }

  lemma LastWins(active: map<string, File>, init: seq<string>, id: string, n: string)
    requires SortedIds(active, init) && id in active
    requires Find(Flat(active, init), n).None? && Find(active[id].configs, n).Some?
    ensures WinsAmong(active, init + [id], id, n)
  {
    hide Flat;
    OnlyLastCarries(active, init, id, n);
    assert id in init + [id] && Carries(active, id, n);
  }

  /** A file of a larger number at the end does not change who wins. */
  lemma StillWins(active: map<string, File>, init: seq<string>, last: string, id: string, n: string)
    requires SortedIds(active, init + [last]) && WinsAmong(active, init, id, n)
    ensures WinsAmong(active, init + [last], id, n)
  {
    hide Carries;
    var ids := init + [last];
    var i :| 0 <= i < |init| && init[i] == id;
    assert ids[i] == id && ids[|init|] == last;
  }

  lemma OnlyLastCarries(active: map<string, File>, init: seq<string>, id: string, n: string)
    requires (forall i | 0 <= i < |init| :: init[i] in active) && Find(Flat(active, init), n).None?
    ensures forall j | j in init + [id] && Carries(active, j, n) :: j == id
  {
    forall j | j in init && Carries(active, j, n) ensures false {
      CarriedIsFound(active, init, j, n);
    }
  }

  ghost predicate SeenKinds(seen: set<Kind>, merged: seq<Config>) {
    forall k :: k in seen <==> ConfigName(k) in Names(merged)
  }

  /** `merged` holds the first setting of every name in `flat`, each name once. */
  ghost predicate FirstOfEach(merged: seq<Config>, flat: seq<Config>) {
    Distinct(merged) && forall n :: Find(merged, n) == Find(flat, n)
  }

  /** Adds a setting unless one of its kind was added before. */
  method MergeConfig(config: Config, merged: seq<Config>, seen: set<Kind>, ghost flat: seq<Config>)
    returns (merged': seq<Config>, seen': set<Kind>)
    requires FirstOfEach(merged, flat) && SeenKinds(seen, merged)
    ensures FirstOfEach(merged', flat + [config]) && SeenKinds(seen', merged')
  {
    merged', seen' := merged, seen;
    AddIfUnseen(merged, flat, config);
    assert config.kind in seen <==> Name(config) in Names(merged);
    if config.kind !in seen {
      FoundKinds(merged, config, seen);
      seen' := seen + {config.kind};
      merged' := merged + [config];
    }
  }

  method MergeFile(configs: seq<Config>, merged: seq<Config>, seen: set<Kind>, ghost before: seq<Config>)
    returns (merged': seq<Config>, seen': set<Kind>)
    requires FirstOfEach(merged, before) && SeenKinds(seen, merged)
    ensures FirstOfEach(merged', before + configs) && SeenKinds(seen', merged')
  {
    merged', seen' := merged, seen;
    ghost var flat := before;
    for j := 0 to |configs|
      invariant flat == before + configs[..j]
      invariant FirstOfEach(merged', flat) && SeenKinds(seen', merged')
    {
      merged', seen' := MergeConfig(configs[j], merged', seen', flat);
      flat := flat + [configs[j]];
    }
    assert flat == before + configs;
  }

  /** The settings a merge of the active files may have: the first of each name, in some order of the files. */
  ghost predicate Computes(active: map<string, File>, merged: seq<Config>) {
    exists ids :: MergeOrder(active, ids) && FirstOfEach(merged, Flat(active, ids))
  }

  method ComputeMergedConfigs(active: map<string, File>) returns (merged: seq<Config>)
    ensures Computes(active, merged) && IsMerge(active, merged)
  {
    var sorted := SortByPriority(active);
    var seen: set<Kind> := {};
    merged := [];
    ghost var flat: seq<Config> := [];
    for i := 0 to |sorted|
      invariant flat == Flat(active, sorted[..i])
      invariant FirstOfEach(merged, flat) && SeenKinds(seen, merged)
    {
      merged, seen := MergeFile(ConfigsOf(active, sorted[i]), merged, seen, flat);
      flat := flat + ConfigsOf(active, sorted[i]);
      FlatStep(active, sorted, i);
    }
    assert sorted[..|sorted|] == sorted;
    FirstSettingsMerge(active, sorted, merged);
  }

  lemma NamesAppend(cs: seq<Config>, c: Config)
    ensures Names(cs + [c]) == Names(cs) + {Name(c)}
  {
    assert (cs + [c])[|cs|] == c;
    forall x | x in cs ensures x in cs + [c] {
    }
  }

  /** Pushing a setting only when its name is new keeps the first setting of each name. */
  lemma AddIfUnseen(merged: seq<Config>, flat: seq<Config>, c: Config)
    requires FirstOfEach(merged, flat)
    ensures FirstOfEach(if Name(c) in Names(merged) then merged else merged + [c], flat + [c])
  {
    forall n
      ensures Find(if Name(c) in Names(merged) then merged else merged + [c], n) == Find(flat + [c], n)
    {
      FindAppend(merged, [c], n);
      FindAppend(flat, [c], n);
      assert Find([c], n) == if n == Name(c) then Some(c) else None;
      assert Find(merged, n).Some? <==> n in Names(merged);
    }
    if Name(c) !in Names(merged) {
      forall i | 0 <= i < |merged| ensures Name(merged[i]) != Name(c) {
        assert merged[i] in merged && Name(merged[i]) in Names(merged);
      }
    }
  }

  lemma FirstSettingsMerge(active: map<string, File>, ids: seq<string>, merged: seq<Config>)
    requires MergeOrder(active, ids) && FirstOfEach(merged, Flat(active, ids))
    ensures IsMerge(active, merged)
  {
    forall id, n | Carries(active, id, n) ensures n in Names(merged) {
      CarriedIsFound(active, ids, id, n);
      assert Find(merged, n) == Find(Flat(active, ids), n);
    }
    forall n | n in Names(merged)
      ensures exists id :: Wins(active, id, n) && Find(active[id].configs, n) == Find(merged, n)
    {
      assert Find(merged, n) == Find(Flat(active, ids), n);
      var id := FirstInOrderWins(active, ids, n);
      assert Wins(active, id, n);
    }
  }

  /******* When the merge is determined *******/

  lemma {:induction false} SomeOrder(active: map<string, File>, rest: set<string>) returns (ids: seq<string>)
    requires rest <= active.Keys
    ensures SortedIds(active, ids) && NoneTwice(ids) && forall id :: id in ids <==> id in rest
    decreases rest
  {
    if rest == {} {
      ids := [];
    } else {
      var id := SomeLeast(active, rest);
      var later := SomeOrder(active, rest - {id});
      ids := [id] + later;
      forall j | 0 <= j < |later| ensures later[j] in rest && later[j] != id {
        assert later[j] in later;
      }
    }
  }

  lemma {:induction false} FlatAppend(active: map<string, File>, a: seq<string>, b: seq<string>)
    ensures Flat(active, a + b) == Flat(active, a) + Flat(active, b)
    decreases |b|
  {
    if b == [] {
      assert a + b == a;
    } else {
      var init := b[..|b| - 1];
      assert (a + b)[..|a + b| - 1] == a + init && (a + b)[|a + b| - 1] == b[|b| - 1];
      FlatAppend(active, a, init);
      Concat(Flat(active, a), Flat(active, init), ConfigsOf(active, b[|b| - 1]));
    }
  }

  lemma Concat(a: seq<Config>, b: seq<Config>, c: seq<Config>)
    ensures a + (b + c) == a + b + c
  {
  }

  lemma {:induction false} NotCarried(active: map<string, File>, ids: seq<string>, n: string)
    requires forall id | id in ids :: !Carries(active, id, n)
    ensures Find(Flat(active, ids), n).None?
  {
    if ids != [] {
      var last, init := ids[|ids| - 1], ids[..|ids| - 1];
      FindAppend(Flat(active, init), ConfigsOf(active, last), n);
      assert last in ids && forall id | id in init :: id in ids;
      NotCarried(active, init, n);
    }
  }

  lemma {:induction false} FirstOfEachExists(flat: seq<Config>) returns (merged: seq<Config>)
    ensures FirstOfEach(merged, flat)
  {
    merged := [];
    if flat != [] {
      var last := |flat| - 1;
      var m := FirstOfEachExists(flat[..last]);
      AddIfUnseen(m, flat[..last], flat[last]);
      assert flat[..last] + [flat[last]] == flat;
      merged := if Name(flat[last]) in Names(m) then m else m + [flat[last]];
    }
  }

  /** Among the files of its priority any file may come first. */
  lemma OrderWithFirst(active: map<string, File>, id: string) returns (before: seq<string>, after: seq<string>)
    requires id in active
    ensures MergeOrder(active, before + [id] + after)
    ensures forall j | j in before :: j in active && active[j].priority < active[id].priority
  {
    var p := active[id].priority;
    before := SomeOrder(active, set j | j in active && active[j].priority < p);
    after := SomeOrder(active, set j | j in active && active[j].priority >= p && j != id);
    assert forall i | 0 <= i < |before| :: before[i] in before;
    assert forall i | 0 <= i < |after| :: after[i] in after;
    OrderOfThree(active, before, id, after);
  }

  lemma OrderOfThree(active: map<string, File>, before: seq<string>, id: string, after: seq<string>)
    requires SortedIds(active, before) && NoneTwice(before) && SortedIds(active, after) && NoneTwice(after)
    requires id in active
    requires forall i | 0 <= i < |before| :: active[before[i]].priority < active[id].priority
    requires forall i | 0 <= i < |after| :: active[after[i]].priority >= active[id].priority && after[i] != id
    requires forall j :: j in active ==> j == id || j in before || j in after
    ensures MergeOrder(active, before + [id] + after)
  {
    var ids := before + [id] + after;
    assert forall k | 0 <= k < |ids| ::
      ids[k] == if k < |before| then before[k] else if k == |before| then id else after[k - |before| - 1];
    forall j | j in active ensures j in ids {
      assert j in before || j in [id] || j in after;
    }
  }

  /** Every winning file is the one some order of the files takes the setting from. */
  lemma AnyWinnerMayBeTaken(active: map<string, File>, id: string, n: string) returns (merged: seq<Config>)
    requires Wins(active, id, n)
    ensures Computes(active, merged) && Find(merged, n) == Find(active[id].configs, n)
  {
    var before, after := OrderWithFirst(active, id);
    var ids := before + [id] + after;
    merged := FirstOfEachExists(Flat(active, ids));
    hide MergeOrder, FirstOfEach;
    assert Computes(active, merged);
    FoundInWinner(active, before, id, after, n);
    assert Find(merged, n) == Find(Flat(active, ids), n) by {
      FirstOfEachAt(merged, Flat(active, ids), n);
    }
  }

  lemma FirstOfEachAt(merged: seq<Config>, flat: seq<Config>, n: string)
    requires FirstOfEach(merged, flat)
    ensures Find(merged, n) == Find(flat, n)
  {
  }

  lemma FoundInWinner(active: map<string, File>, before: seq<string>, id: string, after: seq<string>, n: string)
    requires Wins(active, id, n)
    requires forall j | j in before :: j in active && active[j].priority < active[id].priority
    ensures Find(Flat(active, before + [id] + after), n) == Find(active[id].configs, n)
  {
    FlatAppend(active, before + [id], after);
    FlatAppend(active, before, [id]);
    assert [id][..0] == [] && Flat(active, [id]) == [] + ConfigsOf(active, id) == ConfigsOf(active, id);
    NotCarried(active, before, n);
    hide Flat;
    FindAppend(Flat(active, before) + ConfigsOf(active, id), Flat(active, after), n);
    FindAppend(Flat(active, before), ConfigsOf(active, id), n);
  }

  ghost predicate MergeDetermined(active: map<string, File>) {
    forall m1, m2 :: Computes(active, m1) && Computes(active, m2) ==> SameSettings(m1, m2)
  }

  lemma ComputedIsMerge(active: map<string, File>, merged: seq<Config>)
    requires Computes(active, merged)
    ensures IsMerge(active, merged)
  {
    var ids :| MergeOrder(active, ids) && FirstOfEach(merged, Flat(active, ids));
    FirstSettingsMerge(active, ids, merged);
  }

  /** The order of the files does not matter exactly when the files that tie for a setting agree on it. */
  lemma MergeDeterminedIff(active: map<string, File>)
    ensures MergeDetermined(active) <==> TiesAgree(active)
  {
    hide Computes, IsMerge;
    if TiesAgree(active) {
      forall m1, m2 | Computes(active, m1) && Computes(active, m2) ensures SameSettings(m1, m2) {
        ComputedIsMerge(active, m1);
        ComputedIsMerge(active, m2);
        MergeIsUnique(active, m1, m2);
      }
    }
    if MergeDetermined(active) {
      forall i, j, n | Wins(active, i, n) && Wins(active, j, n)
        ensures Find(active[i].configs, n) == Find(active[j].configs, n)
      {
        var m1 := AnyWinnerMayBeTaken(active, i, n);
        var m2 := AnyWinnerMayBeTaken(active, j, n);
        assert SameSettings(m1, m2);
      }
    }
  }

  /******* The state updated in place *******/

  const DI_NAME := ConfigName(DynamicInstrumentationEnabled)

  /** How the engine decodes a boolean INI value. */
  predicate DecodesTrue(v: string) {
    || v == "1"
    || EqualsIgnoringCase(v, "on")
    || EqualsIgnoringCase(v, "yes")
    || EqualsIgnoringCase(v, "true")
  }

  class RemoteConfig {
    const defaults: map<string, string>
    var ini: Ini
    var writing: bool
    var active: map<string, File>
    var merged: seq<Config>
    var saved: map<string, Option<string>>
    var diEnabled: bool

    ghost function Model(): State
      reads this
    {
      State(ini, active, merged, saved)
    }

    function DefaultOf(n: string): string {
      if n in defaults then defaults[n] else ""
    }

    /** Dynamic instrumentation is enabled exactly when its INI entry says so. */
    ghost predicate DiFollowsIni()
      reads this
    {
      diEnabled == DecodesTrue(if DI_NAME in ini then ini[DI_NAME] else DefaultOf(DI_NAME))
    }

    ghost predicate Valid()
      reads this
    {
      Invariant(Model()) && !writing && DiFollowsIni()
    }

    /** A request starts with the user's INI entries and no remote file. */
    constructor (defaults: map<string, string>, ini: Ini)
      ensures Valid()
      ensures Model() == Fresh(ini)
    {
      this.defaults := defaults;
      this.ini := ini;
      writing, active, merged, saved := false, map[], [], map[];
      diEnabled := DecodesTrue(
        if DI_NAME in ini then ini[DI_NAME] else if DI_NAME in defaults then defaults[DI_NAME] else "");
    }

    /** Records the user's value of an overridden entry; true lets the write through. */
    method AlterDynamicConfig(name: string, newValue: string) returns (ret: bool)
      modifies this`saved
      ensures name in old(saved) ==>
                && ret == LetThrough(old(Model()), name, newValue)
                && saved == old(saved)[name := Some(newValue)]
      ensures name !in old(saved) ==> ret && saved == old(saved)
    {
      ret := true;
      if name in saved {
        ret := false;
        var i := 0;
        while i < |merged|
          invariant 0 <= i <= |merged| && !ret
          invariant Find(merged, name) == Find(merged[i..], name)
        {
          if Name(merged[i]) == name {
            if !UseRemote(merged[i].kind, newValue) {
              ret := true;
            }
            break;
          }
          i := i + 1;
        }
        saved := saved[name := Some(newValue)];
      }
    }

    /** The change callback of an INI entry: may refuse the new value. */
    method IniChange(name: string, newValue: string) returns (ok: bool)
      modifies this`saved, this`diEnabled
      ensures ok == (Guarded(name) && !writing && name in old(saved) ==>
                       LetThrough(old(Model()), name, newValue))
      ensures saved == if Guarded(name) && !writing && name in old(saved)
                       then old(saved)[name := Some(newValue)] else old(saved)
      ensures diEnabled == if ok && name == DI_NAME then DecodesTrue(newValue) else old(diEnabled)
    {
      ok := true;
      if Guarded(name) && !writing {
        ok := AlterDynamicConfig(name, newValue);
      }
      if ok && name == DI_NAME {
        diEnabled := DecodesTrue(newValue);
      }
    }

    /** Sets an INI entry; without the writing flag this is what a user write does. */
    method AlterIniEntry(name: string, value: string) returns (ok: bool)
      requires DiFollowsIni()
      modifies this`ini, this`saved, this`diEnabled
      ensures DiFollowsIni()
      ensures writing ==> ok && ini == old(ini)[name := value] && saved == old(saved)
      ensures !writing ==> Model() == Write(old(Model()), name, value)
      ensures !writing ==> ok == Accepts(old(Model()), name, value)
    {
      ok := IniChange(name, value);
      if ok {
        ini := ini[name := value];
      }
    }

    /** Resets an INI entry to its default, unless the change callback refuses. */
    method RestoreIniEntry(name: string)
      requires DiFollowsIni() && !writing
      modifies this`ini, this`saved, this`diEnabled
      ensures DiFollowsIni()
      ensures Model() == RestoredEntry(old(Model()), name, DefaultOf(name))
    {
      if name in ini {
        var ok := IniChange(name, DefaultOf(name));
        if ok {
          ini := ini - {name};
        }
      }
    }

    /**
     The callback the overlay changes INI entries through. The result is None for a null
     pointer, Some(None) for an entry that was not modified.
     */
    method DynamicConfigurationUpdate(name: string, value: string, mode: Mode)
      returns (ret: Option<Option<string>>)
      requires DiFollowsIni() && !writing
      modifies this`ini, this`saved, this`diEnabled, this`writing
      ensures DiFollowsIni() && !writing
      ensures Model() == match mode
                         case Read => old(Model())
                         case Overwrite => old(Model()).(ini := old(ini)[name := value])
                         case ReadWrite => Write(old(Model()), name, value)
                         case Restore => RestoredEntry(old(Model()), name, DefaultOf(name))
      ensures ret == if mode.Read? || (mode.ReadWrite? && Accepts(old(Model()), name, value))
                     then Some(Lookup(old(ini), name)) else None
    {
      ret := None;
      match mode {
        case Restore =>
          RestoreIniEntry(name);
        case ReadWrite =>
          var was := Lookup(ini, name);
          var ok := AlterIniEntry(name, value);
          if ok {
            ret := Some(was);
          }
        case Read =>
          ret := Some(Lookup(ini, name));
        case Overwrite =>
          writing := true;
          var _ := AlterIniEntry(name, value);
          writing := false;
      }
    }

    method ResetOldConfig(name: string, val: Option<string>)
      requires DiFollowsIni() && !writing && name !in saved
      modifies this`ini, this`saved, this`diEnabled, this`writing
      ensures DiFollowsIni() && !writing && saved == old(saved)
      ensures ini == if val.Some? then old(ini)[name := val.value] else old(ini) - {name}
    {
      if val.Some? {
        var _ := DynamicConfigurationUpdate(name, val.value, Overwrite);
      } else {
        var _ := DynamicConfigurationUpdate(name, "", Restore);
      }
    }

    /** Writes one merged setting over its INI entry, saving the user's value the first time. */
    method InsertConfig(config: Config)
      requires DiFollowsIni() && !writing
      modifies this`ini, this`saved, this`diEnabled, this`writing
      ensures DiFollowsIni() && !writing
      ensures var user := UserValue(old(Model()), Name(config));
              && ini == old(ini)[Name(config) := Shown(config, user)]
              && saved == old(saved)[Name(config) := user]
    {
      var name := Name(config);
      var isUpdate := name in saved;
      var user: Option<string>;
      if isUpdate {
        user := saved[name];
      } else {
        var r := DynamicConfigurationUpdate(name, "", Read);
        user := r.value;
      }
      var val := if user.Some? && !UseRemote(config.kind, user.value) then user.value else config.value;
      var original := DynamicConfigurationUpdate(name, val, if isUpdate then Overwrite else ReadWrite);
      if original.Some? {
        saved := saved[name := original.value];
      }
    }

    method InsertAll(newConfigs: seq<Config>) returns (found: set<Kind>)
      requires DiFollowsIni() && !writing && Distinct(newConfigs)
      modifies this`ini, this`saved, this`diEnabled, this`writing
      ensures DiFollowsIni() && !writing
      ensures SeenKinds(found, newConfigs)
      ensures AllProcessed(old(Model()), newConfigs, [], ini, saved)
    {
      found := {};
      for i := 0 to |newConfigs|
        invariant DiFollowsIni() && !writing
        invariant SeenKinds(found, newConfigs[..i])
        invariant AllProcessed(old(Model()), newConfigs[..i], [], ini, saved)
      {
        var config := newConfigs[i];
        assert newConfigs[..i + 1] == newConfigs[..i] + [config];
        ghost var was := Model();
        InsertConfig(config);
        InsertProcessed(old(Model()), newConfigs[..i], config, was, ini, saved);
        FoundKinds(newConfigs[..i], config, found);
        found := found + {config.kind};
      }
      assert newConfigs[..|newConfigs|] == newConfigs;
    }

    /** Puts the user's value of an old setting back unless the setting was inserted again. */
    method ResetIfMissing(config: Config, found: set<Kind>, ghost s: State,
                          ghost newConfigs: seq<Config>, ghost dropped: seq<Config>)
      requires DiFollowsIni() && !writing && SeenKinds(found, newConfigs)
      requires AllProcessed(s, newConfigs, dropped, ini, saved) && Name(config) in s.saved
      modifies this`ini, this`saved, this`diEnabled, this`writing
      ensures DiFollowsIni() && !writing
      ensures AllProcessed(s, newConfigs, dropped + [config], ini, saved)
    {
      var name := Name(config);
      if config.kind !in found && name in saved {
        var val := saved[name];
        ghost var was := Model();
        saved := saved - {name};
        ResetOldConfig(name, val);
        ResetProcessed(s, newConfigs, dropped, config, was, ini, saved);
      } else {
        KeepProcessed(s, newConfigs, dropped, config, ini, saved);
      }
    }

    method ResetMissing(found: set<Kind>, ghost s: State, ghost newConfigs: seq<Config>)
      requires DiFollowsIni() && !writing && SeenKinds(found, newConfigs)
      requires AllProcessed(s, newConfigs, [], ini, saved) && s.saved.Keys == Names(merged)
      modifies this`ini, this`saved, this`diEnabled, this`writing
      ensures DiFollowsIni() && !writing
      ensures AllProcessed(s, newConfigs, merged, ini, saved)
    {
      hide AllProcessed, SeenKinds, DecodesTrue;
      for j := 0 to |merged|
        invariant DiFollowsIni() && !writing
        invariant AllProcessed(s, newConfigs, merged[..j], ini, saved)
      {
        assert Name(merged[j]) in Names(merged);
        ResetIfMissing(merged[j], found, s, newConfigs, merged[..j]);
        assert merged[..j + 1] == merged[..j] + [merged[j]];
      }
      assert merged[..|merged|] == merged;
    }

    method InsertNewConfigs(newConfigs: seq<Config>)
      requires DiFollowsIni() && !writing
      requires Distinct(newConfigs) && saved.Keys == Names(merged)
      modifies this`ini, this`saved, this`diEnabled, this`writing, this`merged
      ensures DiFollowsIni() && !writing
      ensures Model() == Recomputed(old(Model()), active, newConfigs)
    {
      ghost var s := Model();
      var found := InsertAll(newConfigs);
      ResetMissing(found, s, newConfigs);
      ProcessedIsRecomputed(s, newConfigs, ini, saved);
      merged := newConfigs;
    }

    /** The last file is gone: every saved value is put back. */
    method RemoveOldConfigs()
      requires DiFollowsIni() && !writing
      modifies this
      ensures DiFollowsIni() && !writing
      ensures Model() == Recomputed(old(Model()), map[], [])
    {
      ghost var s := Model();
      var drained := saved;
      saved := map[];
      while drained != map[]
        invariant DiFollowsIni() && !writing && saved == map[]
        invariant forall n :: n in drained ==> n in s.saved && drained[n] == s.saved[n]
        invariant forall n :: Restored(s, drained, ini, n)
        decreases drained.Keys
      {
        var name :| name in drained;
        var val := drained[name];
        ghost var before, was := drained, ini;
        drained := drained - {name};
        ResetOldConfig(name, val);
        RestoreOne(s, before, was, name);
      }
      RestoredIsRecomputed(s, ini);
      active := map[];
      merged := [];
    }

    method AddConfigFile(id: string, file: File) returns (ghost e: Event)
      requires Valid()
      modifies this
      ensures Valid()
      ensures e.Add? && e.id == id && e.file == file
      ensures Enabled(old(Model()), e) && Model() == Step(old(Model()), e)
    {
      ghost var s := Model();
      e := Add(id, file, []);
      if file.configs != [] {
        active := active[id := file];
        var newMerged := ComputeMergedConfigs(active);
        InsertNewConfigs(newMerged);
        RecomputeIgnoresActive(s, active, newMerged);
        e := Add(id, file, newMerged);
        StepKeepsInvariant(s, e);
      }
    }

    method RemoveConfigFile(id: string) returns (ghost e: Event)
      requires Valid()
      modifies this
      ensures Valid()
      ensures e.Remove? && e.id == id
      ensures Enabled(old(Model()), e) && Model() == Step(old(Model()), e)
    {
      ghost var s := Model();
      e := Remove(id, []);
      if id in active {
        active := active - {id};
        if active == map[] {
          RemoveOldConfigs();
          RecomputeIgnoresActive(s, map[], []);
          NothingToMerge();
        } else {
          var newMerged := ComputeMergedConfigs(active);
          InsertNewConfigs(newMerged);
          RecomputeIgnoresActive(s, active, newMerged);
          e := Remove(id, newMerged);
        }
        StepKeepsInvariant(s, e);
      }
    }

    method UserWritesIni(name: string, value: string) returns (ghost e: Event)
      requires Valid()
      modifies this
      ensures Valid()
      ensures e == UserWrite(name, value) && Model() == Step(old(Model()), e)
    {
      e := UserWrite(name, value);
      StepKeepsInvariant(Model(), e);
      var _ := AlterIniEntry(name, value);
    }

    method UserRestoresIni(name: string) returns (ghost e: Event)
      requires Valid()
      modifies this
      ensures Valid()
      ensures e == UserRestore(name, DefaultOf(name)) && Model() == Step(old(Model()), e)
    {
      e := UserRestore(name, DefaultOf(name));
      StepKeepsInvariant(Model(), e);
      RestoreIniEntry(name);
    }

    /** Handles every queued update; the run taken is one of the state machine. */
    method ProcessRemoteConfigs(queue: seq<Update>) returns (hasUpdates: bool, ghost es: seq<Event>)
      requires Valid()
      modifies this
      ensures Valid()
      ensures hasUpdates == (queue != [])
      ensures |es| == |queue| && forall i | 0 <= i < |es| :: Delivers(es[i], queue[i])
      ensures DynamicConfig.Valid(old(Model()), es) && Model() == Exec(old(Model()), es)
    {
      hasUpdates, es := false, [];
      for i := 0 to |queue|
        invariant Valid()
        invariant hasUpdates == (i > 0)
        invariant |es| == i && forall k | 0 <= k < i :: Delivers(es[k], queue[k])
        invariant DynamicConfig.Valid(old(Model()), es) && Model() == Exec(old(Model()), es)
      {
        ghost var e;
        match queue[i] {
          case AddFile(id, file) => e := AddConfigFile(id, file);
          case RemoveFile(id) => e := RemoveConfigFile(id);
        }
        OneMore(old(Model()), es, e);
        es := es + [e];
        hasUpdates := true;
      }
    }
  }

  ghost predicate Delivers(e: Event, u: Update) {
    match u
    case AddFile(id, file) => e.Add? && e.id == id && e.file == file
    case RemoveFile(id) => e.Remove? && e.id == id
  }

  lemma {:induction false} OneMore(s: State, es: seq<Event>, e: Event)
    requires Valid(s, es) && Enabled(Exec(s, es), e)
    ensures Valid(s, es + [e]) && Exec(s, es + [e]) == Step(Exec(s, es), e)
    decreases |es|
  {
    if es == [] {
      assert [] + [e] == [e];
    } else {
      OneMore(Step(s, es[0]), es[1..], e);
      assert (es + [e])[1..] == es[1..] + [e];
    }
  }

  lemma RecomputeIgnoresActive(s: State, active: map<string, File>, merged: seq<Config>)
    ensures Recomputed(s.(active := active), active, merged) == Recomputed(s, active, merged)
  {
    assert UserTable(s.(active := active)) == UserTable(s);
    assert SavedFor(s.(active := active), merged) == SavedFor(s, merged);
  }

  /** Entry `n` once the settings `done` are inserted and the old settings `dropped` put back. */
  ghost predicate Processed(s: State, done: seq<Config>, dropped: seq<Config>,
                            ini: Ini, saved: map<string, Option<string>>, n: string)
  {
    if n in Names(done) then
      && Lookup(saved, n) == Some(UserValue(s, n))
      && Lookup(ini, n) == Some(Shown(Find(done, n).value, UserValue(s, n)))
    else if n in Names(dropped) then
      n !in saved && Lookup(ini, n) == UserValue(s, n)
    else
      Lookup(saved, n) == Lookup(s.saved, n) && Lookup(ini, n) == Lookup(s.ini, n)
  }

  /** Entry `n` while the saved values in `drained` are still to be put back. */
  ghost predicate Restored(s: State, drained: map<string, Option<string>>, ini: Ini, n: string) {
    Lookup(ini, n) == if n in drained then Lookup(s.ini, n) else UserValue(s, n)
  }

  lemma RestoreOne(s: State, drained: map<string, Option<string>>, ini: Ini, name: string)
    requires name in drained && name in s.saved && drained[name] == s.saved[name]
    requires forall n :: Restored(s, drained, ini, n)
    ensures var val := drained[name];
            var ini' := if val.Some? then ini[name := val.value] else ini - {name};
            forall n :: Restored(s, drained - {name}, ini', n)
  {
    var val := drained[name];
    var ini' := if val.Some? then ini[name := val.value] else ini - {name};
    forall n ensures Restored(s, drained - {name}, ini', n) {
      assert Restored(s, drained, ini, n);
    }
  }

  lemma RestoredIsRecomputed(s: State, ini: Ini)
    requires forall n :: Restored(s, map[], ini, n)
    ensures State(ini, map[], [], map[]) == Recomputed(s, map[], [])
  {
    assert Names([]) == {};
    forall n ensures Lookup(ini, n) == Lookup(Overlay(UserTable(s), []), n) {
      assert Restored(s, map[], ini, n);
      OverlayAt(UserTable(s), [], n);
    }
    SameLookups(ini, Overlay(UserTable(s), []));
  }

  lemma NothingToMerge()
    ensures IsMerge(map[], []) && Names([]) == {}
  {
  }

  ghost predicate AllProcessed(s: State, done: seq<Config>, dropped: seq<Config>,
                               ini: Ini, saved: map<string, Option<string>>)
  {
    forall n :: Processed(s, done, dropped, ini, saved, n)
  }

  lemma FoundKinds(done: seq<Config>, c: Config, found: set<Kind>)
    requires SeenKinds(found, done)
    ensures SeenKinds(found + {c.kind}, done + [c])
  {
    NamesAppend(done, c);
    forall k ensures k in found + {c.kind} <==> ConfigName(k) in Names(done + [c]) {
      if ConfigName(k) == Name(c) {
        NamesAreInjective(k, c.kind);
      }
    }
  }

  /** Inserting a setting that was not inserted yet. */
  lemma InsertProcessed(s: State, done: seq<Config>, c: Config, was: State,
                        ini: Ini, saved: map<string, Option<string>>)
    requires Distinct(done + [c]) && AllProcessed(s, done, [], was.ini, was.saved)
    requires ini == was.ini[Name(c) := Shown(c, UserValue(was, Name(c)))]
    requires saved == was.saved[Name(c) := UserValue(was, Name(c))]
    ensures AllProcessed(s, done + [c], [], ini, saved)
  {
    NamesAppend(done, c);
    forall x | x in done ensures Name(x) != Name(c) {
      var i :| 0 <= i < |done| && done[i] == x;
      assert (done + [c])[i] == x && (done + [c])[|done|] == c;
    }
    assert Names([]) == {};
    assert Processed(s, done, [], was.ini, was.saved, Name(c));
    forall n ensures Processed(s, done + [c], [], ini, saved, n) {
      assert Processed(s, done, [], was.ini, was.saved, n);
      FindAppend(done, [c], n);
      assert Find([c], n) == if n == Name(c) then Some(c) else None;
    }
  }

  /** Putting back an old setting that was not inserted again. */
  lemma ResetProcessed(s: State, done: seq<Config>, dropped: seq<Config>, c: Config, was: State,
                       ini: Ini, saved: map<string, Option<string>>)
    requires AllProcessed(s, done, dropped, was.ini, was.saved)
    requires Name(c) in s.saved && Name(c) !in Names(done) && Name(c) in was.saved
    requires saved == was.saved - {Name(c)}
    requires ini == var val := was.saved[Name(c)];
                    if val.Some? then was.ini[Name(c) := val.value] else was.ini - {Name(c)}
    ensures AllProcessed(s, done, dropped + [c], ini, saved)
  {
    NamesAppend(dropped, c);
    assert Processed(s, done, dropped, was.ini, was.saved, Name(c));
    forall n ensures Processed(s, done, dropped + [c], ini, saved, n) {
      assert Processed(s, done, dropped, was.ini, was.saved, n);
    }
  }

  lemma KeepProcessed(s: State, done: seq<Config>, dropped: seq<Config>, c: Config,
                      ini: Ini, saved: map<string, Option<string>>)
    requires AllProcessed(s, done, dropped, ini, saved)
    requires Name(c) in s.saved && (Name(c) in Names(done) || Name(c) !in saved)
    ensures AllProcessed(s, done, dropped + [c], ini, saved)
  {
    NamesAppend(dropped, c);
    assert Processed(s, done, dropped, ini, saved, Name(c));
    forall n ensures Processed(s, done, dropped + [c], ini, saved, n) {
      assert Processed(s, done, dropped, ini, saved, n);
    }
  }

  lemma ProcessedIsRecomputed(s: State, done: seq<Config>, ini: Ini, saved: map<string, Option<string>>)
    requires s.saved.Keys == Names(s.merged) && AllProcessed(s, done, s.merged, ini, saved)
    ensures ini == Overlay(UserTable(s), done) && saved == SavedFor(s, done)
  {
    forall n
      ensures Lookup(ini, n) == Lookup(Overlay(UserTable(s), done), n)
      ensures Lookup(saved, n) == Lookup(SavedFor(s, done), n)
    {
      assert Processed(s, done, s.merged, ini, saved, n);
      OverlayAt(UserTable(s), done, n);
    }
    SameLookups(ini, Overlay(UserTable(s), done));
    SameLookups(saved, SavedFor(s, done));
  }
}
