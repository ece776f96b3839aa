/**
 Remote configuration and the live debugger together: every change of the dynamic
 instrumentation entry switches the hooks, whether a delivered file, the user or the end of
 an override changed it.
 */
module Instrumentation {
  import opened Options
  import RC = DynamicConfig
  import LD = LiveDebugger
  import ConfigValues
  import opened RemoteConfigState

  datatype State = State(config: RC.State, debugger: LD.State)

  /** What a configuration event makes the engine answer is kept with the event. */
  datatype Event =
    | Configure(change: RC.Event, hooks: map<string, int>)
    | Debug(delivery: LD.Event)

  /** The value the dynamic instrumentation entry shows. */
  function Shown(default: string, ini: RC.Ini): string {
    if DI_NAME in ini then ini[DI_NAME] else default
  }

  predicate On(default: string, ini: RC.Ini) {
    DecodesTrue(Shown(default, ini))
  }

  /** The switch that follows a configuration change. */
  ghost function Switch(default: string, s: State, change: RC.Event, hooks: map<string, int>): LD.Event {
    LD.Toggle(On(default, RC.Step(s.config, change).ini), hooks)
  }

  ghost predicate Enabled(default: string, s: State, e: Event) {
    match e
    case Configure(change, hooks) =>
      RC.Enabled(s.config, change) && LD.Enabled(s.debugger, Switch(default, s, change, hooks))
    case Debug(delivery) => !delivery.Toggle? && LD.Enabled(s.debugger, delivery)
  }

  ghost function Step(default: string, s: State, e: Event): State
    requires Enabled(default, s, e)
  {
    match e
    case Configure(change, hooks) =>
      State(RC.Step(s.config, change), LD.Step(s.debugger, Switch(default, s, change, hooks)))
    case Debug(delivery) => State(s.config, LD.Step(s.debugger, delivery))
  }

  ghost predicate Valid(default: string, s: State, es: seq<Event>)
    decreases |es|
  {
    es == [] || (Enabled(default, s, es[0]) && Valid(default, Step(default, s, es[0]), es[1..]))
  }

  ghost function Exec(default: string, s: State, es: seq<Event>): State
    requires Valid(default, s, es)
    decreases |es|
  {
    if es == [] then s else Exec(default, Step(default, s, es[0]), es[1..])
  }

  function Fresh(default: string, ini: RC.Ini): State {
    State(RC.Fresh(ini), LD.Fresh(On(default, ini)))
  }

  /** The engine accepts exactly the probes `can` describes. */
  ghost predicate Obeys(default: string, can: LD.Probe -> bool, s: State, e: Event) {
    match e
    case Configure(change, hooks) => LD.Obeys(can, s.debugger, Switch(default, s, change, hooks))
    case Debug(delivery) => LD.Obeys(can, s.debugger, delivery)
  }

  ghost predicate RunObeys(default: string, can: LD.Probe -> bool, s: State, es: seq<Event>)
    requires Valid(default, s, es)
    decreases |es|
  {
    es == [] || (Obeys(default, can, s, es[0]) && RunObeys(default, can, Step(default, s, es[0]), es[1..]))
  }

  /** Each configuration id is used for probes only or for service configurations only. */
  ghost predicate SteadyIds(isProbe: string -> bool, es: seq<Event>) {
    forall i | 0 <= i < |es| && es[i].Debug? && es[i].delivery.Deliver? ::
      es[i].delivery.data.ProbeData? == isProbe(es[i].delivery.id)
  }

  /** The live-debugger step of an event. */
  ghost function DebuggerEvent(default: string, s: State, e: Event): LD.Event {
    match e
    case Configure(change, hooks) => Switch(default, s, change, hooks)
    case Debug(delivery) => delivery
  }

  /** The debugger's own events in a run, and the configuration's. */
  ghost function DebuggerEvents(default: string, s: State, es: seq<Event>): seq<LD.Event>
    requires Valid(default, s, es)
    decreases |es|
  {
    if es == [] then []
    else [DebuggerEvent(default, s, es[0])] + DebuggerEvents(default, Step(default, s, es[0]), es[1..])
  }

  function ConfigEvents(es: seq<Event>): seq<RC.Event> {
    if es == [] then []
    else (if es[0].Configure? then [es[0].change] else []) + ConfigEvents(es[1..])
  }

  /** Seen from the debugger a run is a run of the debugger. */
  lemma {:induction false} DebuggerRuns(default: string, s: State, es: seq<Event>)
    requires Valid(default, s, es)
    ensures LD.Valid(s.debugger, DebuggerEvents(default, s, es))
    ensures LD.Exec(s.debugger, DebuggerEvents(default, s, es)) == Exec(default, s, es).debugger
    decreases |es|
  {
    hide RC.Step, LD.Step, RC.Enabled, LD.Enabled, On;
    if es != [] {
      var t := Step(default, s, es[0]);
      DebuggerRuns(default, t, es[1..]);
      var d, rest := DebuggerEvent(default, s, es[0]), DebuggerEvents(default, t, es[1..]);
      assert ([d] + rest)[1..] == rest && ([d] + rest)[0] == d;
      assert t.debugger == LD.Step(s.debugger, d);
    }
  }

  lemma {:induction false} DebuggerObeys(default: string, can: LD.Probe -> bool, isProbe: string -> bool,
                                         s: State, es: seq<Event>)
    requires Valid(default, s, es) && RunObeys(default, can, s, es) && SteadyIds(isProbe, es)
    ensures var ds := DebuggerEvents(default, s, es);
            LD.Valid(s.debugger, ds) && LD.RunObeys(can, s.debugger, ds) && LD.SteadyIds(isProbe, ds)
    decreases |es|
  {
    hide RC.Step, LD.Step, RC.Enabled, LD.Enabled, LD.Obeys, On;
    DebuggerRuns(default, s, es);
    if es != [] {
      var t := Step(default, s, es[0]);
      forall i | 0 <= i < |es[1..]| ensures es[1..][i] == es[i + 1] {
      }
      DebuggerObeys(default, can, isProbe, t, es[1..]);
      var d, rest := DebuggerEvent(default, s, es[0]), DebuggerEvents(default, t, es[1..]);
      assert ([d] + rest)[1..] == rest && ([d] + rest)[0] == d;
      assert t.debugger == LD.Step(s.debugger, d);
      SteadyCons(isProbe, d, rest);
    }
  }

  lemma SteadyCons(isProbe: string -> bool, d: LD.Event, rest: seq<LD.Event>)
    requires LD.SteadyIds(isProbe, rest)
    requires d.Deliver? ==> d.data.ProbeData? == isProbe(d.id)
    ensures LD.SteadyIds(isProbe, [d] + rest)
  {
  }

  /** Seen from the configuration a run is a run of the configuration. */
  lemma {:induction false} ConfigRuns(default: string, s: State, es: seq<Event>)
    requires Valid(default, s, es)
    ensures RC.Valid(s.config, ConfigEvents(es))
    ensures RC.Exec(s.config, ConfigEvents(es)) == Exec(default, s, es).config
    decreases |es|
  {
    hide RC.Step, LD.Step, RC.Enabled, LD.Enabled, On;
    if es != [] {
      ConfigRuns(default, Step(default, s, es[0]), es[1..]);
      var rest := ConfigEvents(es[1..]);
      if es[0].Configure? {
        assert ConfigEvents(es)[1..] == rest && ConfigEvents(es)[0] == es[0].change;
      } else {
        assert ConfigEvents(es) == rest;
      }
    }
  }

  lemma StepSwitches(default: string, s: State, e: Event)
    requires Enabled(default, s, e) && s.debugger.enabled == On(default, s.config.ini)
    ensures var t := Step(default, s, e); t.debugger.enabled == On(default, t.config.ini)
  {
    hide RC.Step, On;
  }

  /** In every run the switch is on exactly when the entry shown decodes to true. */
  lemma {:induction false} SwitchFollowsEntry(default: string, s: State, es: seq<Event>)
    requires Valid(default, s, es) && s.debugger.enabled == On(default, s.config.ini)
    ensures var t := Exec(default, s, es); t.debugger.enabled == On(default, t.config.ini)
    decreases |es|
  {
    hide Step, Enabled, On;
    if es != [] {
      StepSwitches(default, s, es[0]);
      SwitchFollowsEntry(default, Step(default, s, es[0]), es[1..]);
    }
  }

  /**
   In every run of deliveries, withdrawals, user changes and files, the hooked
   configurations are the acceptable active probes when the entry shown decodes to true, and
   none otherwise.
   */
  lemma HookedFollowsEntry(default: string, can: LD.Probe -> bool, isProbe: string -> bool, ini: RC.Ini, es: seq<Event>)
    requires Valid(default, Fresh(default, ini), es) && SteadyIds(isProbe, es)
    requires RunObeys(default, can, Fresh(default, ini), es)
    ensures var t := Exec(default, Fresh(default, ini), es);
            t.debugger.spans.Keys == LD.Hookable(can, t.debugger.active, On(default, t.config.ini))
  {
    var s := Fresh(default, ini);
    var ds := DebuggerEvents(default, s, es);
    hide On, LD.Step, RC.Step;
    SwitchFollowsEntry(default, s, es);
    DebuggerRuns(default, s, es);
    DebuggerObeys(default, can, isProbe, s, es);
    LD.HookedIsHookable(can, isProbe, s.debugger, ds);
  }

  /** Once no file is left, the probes are hooked according to the user's recorded changes alone. */
  lemma HookedWithoutFiles(default: string, can: LD.Probe -> bool, isProbe: string -> bool, ini: RC.Ini, es: seq<Event>)
    requires Valid(default, Fresh(default, ini), es) && SteadyIds(isProbe, es)
    requires RunObeys(default, can, Fresh(default, ini), es)
    requires Exec(default, Fresh(default, ini), es).config.active == map[]
    ensures var t := Exec(default, Fresh(default, ini), es);
            var user := RC.ApplyWrites(ini, RC.NotedWrites(RC.Fresh(ini), ConfigEvents(es)));
            t.debugger.spans.Keys == LD.Hookable(can, t.debugger.active, On(default, user))
  {
    hide On, LD.Step, RC.Step;
    HookedFollowsEntry(default, can, isProbe, ini, es);
    ConfigRuns(default, Fresh(default, ini), es);
    RC.RemoteConfigLeavesNoTrace(ini, ConfigEvents(es));
  }

  lemma DecodesTrueIsTruthy(v: string)
    requires DecodesTrue(v)
    ensures RC.Truthy(v)
  {
    assert "1"[..0] == "" && RC.DecimalValue("1") == 1;
  }

  /**
   Right after every delivery that recomputes the merge, an explicit falsy value of the user
   keeps every probe unhooked, whatever the files say.
   */
  lemma UserOffKeepsHooksOff(default: string, ini: RC.Ini, es: seq<Event>, e: Event, v: string)
    requires Valid(default, Fresh(default, ini), es) && e.Configure?
    requires var s := Exec(default, Fresh(default, ini), es);
             Enabled(default, s, e) && RC.Recomputes(s.config, e.change)
    requires Lookup(RC.ApplyWrites(ini, RC.NotedWrites(RC.Fresh(ini), ConfigEvents(es))), DI_NAME) == Some(v)
    requires !RC.Truthy(v)
    ensures var t := Step(default, Exec(default, Fresh(default, ini), es), e).debugger;
            t.spans == map[] && t.installed == map[]
  {
    var f := Fresh(default, ini);
    var s := Exec(default, f, es);
    ConfigRuns(default, f, es);
    ConfigValues.VetoIsShown(ini, ConfigEvents(es), e.change, RC.DynamicInstrumentationEnabled, v);
    if DecodesTrue(v) {
      DecodesTrueIsTruthy(v);
    }
    DebuggerRuns(default, f, es);
    LD.HooksAreOwned(f.debugger, DebuggerEvents(default, f, es));
    NothingHooked(default, s, e);
  }

  lemma NothingHooked(default: string, s: State, e: Event)
    requires LD.Owned(s.debugger) && Enabled(default, s, e) && e.Configure?
    requires !On(default, RC.Step(s.config, e.change).ini)
    ensures var t := Step(default, s, e).debugger; t.spans == map[] && t.installed == map[]
  {
    hide On, RC.Step, RC.Enabled;
    LD.StepOwned(s.debugger, Switch(default, s, e.change, e.hooks));
    LD.NothingInstalled(Step(default, s, e).debugger);
  }
}
