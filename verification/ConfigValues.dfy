/**
 What the overlay makes of the texts a user can set: which of them are truthy, which of them
 veto a remote value, and which settings by name are free of traces.
 */
module ConfigValues {
  import opened Options
  import opened DynamicConfig
  import opened RemoteConfigState

  /******* Decimal text *******/

  function Digit(d: nat): char
    requires d < 10
  {
    ['0', '1', '2', '3', '4', '5', '6', '7', '8', '9'][d]
  }

  /** The decimal text of a number, without leading zeros. */
  function Decimal(n: nat): string {
    if n < 10 then [Digit(n)] else Decimal(n / 10) + [Digit(n % 10)]
  }

  function Zeros(k: nat): string {
    if k == 0 then "" else Zeros(k - 1) + "0"
  }

  datatype Sign = NoSign | Plus | Minus

  function SignText(sign: Sign): string {
    match sign
    case NoSign => ""
    case Plus => "+"
    case Minus => "-"
  }

  /** A number as it may be written: with a sign and leading zeros. */
  function IntegerText(sign: Sign, zeros: nat, n: nat): string {
    SignText(sign) + (Zeros(zeros) + Decimal(n))
  }

  /** A 32-bit signed integer can hold the number. */
  predicate Fits(sign: Sign, n: nat) {
    if sign == Minus then n <= 2_147_483_648 else n <= 2_147_483_647
  }

  lemma DigitValue(d: nat)
    requires d < 10
    ensures '0' <= Digit(d) <= '9' && Digit(d) as int - '0' as int == d
  {
  }

  lemma ValueAppends(s: string, d: nat)
    requires (forall i | 0 <= i < |s| :: '0' <= s[i] <= '9') && d < 10
    ensures forall i | 0 <= i < |s + [Digit(d)]| :: '0' <= (s + [Digit(d)])[i] <= '9'
    ensures DecimalValue(s + [Digit(d)]) == 10 * DecimalValue(s) + d
  {
    DigitValue(d);
    assert (s + [Digit(d)])[..|s|] == s;
  }

  lemma {:induction false} ZerosValue(k: nat)
    ensures (forall i | 0 <= i < |Zeros(k)| :: '0' <= Zeros(k)[i] <= '9') && DecimalValue(Zeros(k)) == 0
  {
    if k > 0 {
      ZerosValue(k - 1);
      assert Zeros(k) == Zeros(k - 1) + [Digit(0)];
      hide Zeros, Digit, DecimalValue;
      ValueAppends(Zeros(k - 1), 0);
    }
  }

  /** Reading a printed number, with any leading zeros, gives the number back. */
  lemma {:induction false} DecimalReads(zeros: nat, n: nat)
    ensures Digits(Zeros(zeros) + Decimal(n)) && DecimalValue(Zeros(zeros) + Decimal(n)) == n
    decreases n
  {
    if n < 10 {
      ZerosValue(zeros);
      ValueAppends(Zeros(zeros), n);
    } else {
      DecimalReads(zeros, n / 10);
      ValueAppends(Zeros(zeros) + Decimal(n / 10), n % 10);
      assert Zeros(zeros) + Decimal(n) == Zeros(zeros) + Decimal(n / 10) + [Digit(n % 10)];
    }
  }

  /** Every text of digits is a printed number with leading zeros. */
  lemma {:induction false} DigitsArePrinted(s: string) returns (zeros: nat, n: nat)
    requires Digits(s)
    ensures s == Zeros(zeros) + Decimal(n)
  {
    var init := s[..|s| - 1];
    var d := LastDigit(s);
    if |s| == 1 {
      zeros, n := 0, d;
      assert init == "" && Zeros(0) == "" && Decimal(d) == [Digit(d)];
    } else {
      hide Zeros, Decimal, Digit;
      var z, m := DigitsArePrinted(init);
      PrintedAppends(z, m, d);
      zeros, n := if m == 0 then z + 1 else z, 10 * m + d;
    }
  }

  lemma LastDigit(s: string) returns (d: nat)
    requires Digits(s)
    ensures d < 10 && s == s[..|s| - 1] + [Digit(d)]
  {
    d := s[|s| - 1] as int - '0' as int;
    DigitValue(d);
    assert s[|s| - 1] == Digit(d);
  }

  lemma PrintedAppends(zeros: nat, m: nat, d: nat)
    requires d < 10
    ensures Zeros(zeros) + Decimal(m) + [Digit(d)]
            == Zeros(if m == 0 then zeros + 1 else zeros) + Decimal(10 * m + d)
  {
    if m == 0 {
      assert Decimal(0) == "0" && Zeros(zeros + 1) == Zeros(zeros) + "0";
    } else {
      assert (10 * m + d) / 10 == m && (10 * m + d) % 10 == d;
      assert Zeros(zeros) + Decimal(m) + [Digit(d)] == Zeros(zeros) + (Decimal(m) + [Digit(d)]);
    }
  }

  /******* Truth *******/

  /** `s` is `word`, a word of small letters, with any of them replaced by capitals. */
  predicate InSomeCase(s: string, word: string) {
    |s| == |word| && forall i | 0 <= i < |s| :: s[i] == word[i] || s[i] as int + 32 == word[i] as int
  }

  lemma CaseIsIgnored(s: string, word: string)
    requires forall i | 0 <= i < |word| :: 'a' <= word[i] <= 'z'
    ensures EqualsIgnoringCase(s, word) <==> InSomeCase(s, word)
  {
    if |s| == |word| {
      forall i | 0 <= i < |s|
        ensures LowerChar(s[i]) == word[i] <==> s[i] == word[i] || s[i] as int + 32 == word[i] as int
      {
        LetterCase(s[i], word[i]);
      }
    }
  }

  lemma LetterCase(c: char, small: char)
    requires 'a' <= small <= 'z'
    ensures LowerChar(c) == small <==> c == small || c as int + 32 == small as int
  {
    if 'A' <= c <= 'Z' {
      assert (c - 'A' + 'a') as int == c as int + 32;
    }
  }

  /** The words that are compared without regard to case. */
  lemma WordsInSomeCase(s: string)
    ensures EqualsIgnoringCase(s, "true") <==> InSomeCase(s, "true")
    ensures EqualsIgnoringCase(s, "yes") <==> InSomeCase(s, "yes")
    ensures EqualsIgnoringCase(s, "on") <==> InSomeCase(s, "on")
  {
    CaseIsIgnored(s, "true");
    CaseIsIgnored(s, "yes");
    CaseIsIgnored(s, "on");
  }

  /** What the integer parser makes of a printed number: nothing if it does not fit. */
  lemma ParseUndoesDecimal(sign: Sign, zeros: nat, n: nat)
    ensures ParseI32(IntegerText(sign, zeros, n)) ==
            if Fits(sign, n) then Some(if sign == Minus then 0 - n else n) else None
  {
    DecimalReads(zeros, n);
    hide DecimalValue, Decimal, Zeros;
    var digits, s := Zeros(zeros) + Decimal(n), IntegerText(sign, zeros, n);
    if sign == NoSign {
      assert s == digits && '0' <= s[0] <= '9';
    } else {
      assert s[1..] == digits;
    }
  }

  /** The last character of a number is a digit, so no word with a letter at its end is a number. */
  lemma WordsAreNotIntegers(sign: Sign, zeros: nat, n: nat, word: string)
    requires word != "" && 'a' <= word[|word| - 1] <= 'z'
    ensures !InSomeCase(IntegerText(sign, zeros, n), word)
  {
    DecimalReads(zeros, n);
    hide Decimal, Zeros, DecimalValue;
    var s := IntegerText(sign, zeros, n);
    var last := s[|s| - 1];
    assert '0' <= last <= '9';
    if |s| == |word| {
      assert s[|word| - 1] != word[|word| - 1] && s[|word| - 1] as int + 32 != word[|word| - 1] as int;
    }
  }

  /** A number is truthy exactly when it is not zero and fits 32 bits, whatever its sign and leading zeros. */
  lemma IntegerIsTruthyIff(sign: Sign, zeros: nat, n: nat)
    ensures Truthy(IntegerText(sign, zeros, n)) <==> n != 0 && Fits(sign, n)
  {
    ParseUndoesDecimal(sign, zeros, n);
    WordsAreNotIntegers(sign, zeros, n, "true");
    WordsAreNotIntegers(sign, zeros, n, "yes");
    WordsAreNotIntegers(sign, zeros, n, "on");
    WordsInSomeCase(IntegerText(sign, zeros, n));
    hide ParseI32, EqualsIgnoringCase, IntegerText, InSomeCase;
  }

  lemma ParsedIsInteger(s: string) returns (sign: Sign, zeros: nat, n: nat)
    requires ParseI32(s).Some?
    ensures s == IntegerText(sign, zeros, n)
  {
    var signed := s != [] && (s[0] == '-' || s[0] == '+');
    var digits := if signed then s[1..] else s;
    zeros, n := DigitsArePrinted(digits);
    hide Zeros, Decimal;
    sign := if !signed then NoSign else if s[0] == '-' then Minus else Plus;
    assert signed ==> s == [s[0]] + s[1..];
    assert !signed ==> s == "" + digits;
  }

  ghost predicate IsInteger(s: string) {
    exists sign, zeros, n :: s == IntegerText(sign, zeros, n)
  }

  /** A text that is no number is truthy exactly when it is `true`, `yes` or `on` in some case. */
  lemma WordIsTruthyIff(s: string)
    requires !IsInteger(s)
    ensures Truthy(s) <==> InSomeCase(s, "true") || InSomeCase(s, "yes") || InSomeCase(s, "on")
  {
    WordsInSomeCase(s);
    if ParseI32(s).Some? {
      var sign, zeros, n := ParsedIsInteger(s);
    }
  }

  /** An empty text, `0`, and `false`, `no` or `off` in some case. */
  predicate SaysOff(s: string) {
    s == "" || s == "0" || InSomeCase(s, "false") || InSomeCase(s, "no") || InSomeCase(s, "off")
  }

  /** The usual ways of switching something off are falsy. */
  lemma OffIsFalsy(s: string)
    requires SaysOff(s)
    ensures !Truthy(s)
  {
    if s == "0" {
      assert Decimal(0) == "0" && Zeros(0) == "";
      assert IntegerText(NoSign, 0, 0) == "0";
      IntegerIsTruthyIff(NoSign, 0, 0);
    } else {
      NotAnInteger(s);
      WordIsTruthyIff(s);
      OffIsNotOn(s);
    }
  }

  lemma OffIsNotOn(s: string)
    requires SaysOff(s)
    ensures !InSomeCase(s, "true") && !InSomeCase(s, "yes") && !InSomeCase(s, "on")
  {
    if |s| == 3 {
      assert "yes"[0] == 'y' && "off"[0] == 'o';
      assert InSomeCase(s, "off");
      assert s[0] == 'o' || s[0] as int + 32 == 'o' as int;
    } else if |s| == 2 {
      assert "on"[0] == 'o' && "no"[0] == 'n';
      assert InSomeCase(s, "no");
      assert s[0] == 'n' || s[0] as int + 32 == 'n' as int;
    }
  }

  lemma NotAnInteger(s: string)
    requires SaysOff(s) && s != "0"
    ensures !IsInteger(s)
  {
    forall sign, zeros, n ensures s != IntegerText(sign, zeros, n) {
      DecimalReads(zeros, n);
      hide Decimal, Zeros, DecimalValue;
      WordsAreNotIntegers(sign, zeros, n, "false");
      WordsAreNotIntegers(sign, zeros, n, "no");
      WordsAreNotIntegers(sign, zeros, n, "off");
      assert IntegerText(sign, zeros, n) != "";
    }
  }

  /** The engine decodes as true exactly `1` and `on`, `yes` and `true` in some case. */
  lemma DecodesTrueIff(s: string)
    ensures DecodesTrue(s) <==>
            s == "1" || InSomeCase(s, "on") || InSomeCase(s, "yes") || InSomeCase(s, "true")
  {
    WordsInSomeCase(s);
  }

  /******* Vetoes *******/

  /** The state right after the recompute `e` that ends a run. */
  ghost function After(ini: Ini, es: seq<Event>, e: Event): State {
    Step(Exec(Fresh(ini), es), e)
  }

  /** What the user set, as the overlay recorded it. */
  ghost function UserSet(ini: Ini, es: seq<Event>, k: Kind): Option<string> {
    Lookup(ApplyWrites(ini, NotedWrites(Fresh(ini), es)), ConfigName(k))
  }

  ghost predicate RecomputeRun(ini: Ini, es: seq<Event>, e: Event) {
    Valid(Fresh(ini), es) && Enabled(Exec(Fresh(ini), es), e) && Recomputes(Exec(Fresh(ini), es), e)
  }

  /** A carried setting shows the value of a winning file of its own kind, or the user's. */
  lemma WinnerIsShown(t: State, k: Kind, user: Option<string>) returns (id: string)
    requires ShowsWinner(t, ConfigName(k), user)
    ensures Wins(t.active, id, ConfigName(k)) && Find(t.active[id].configs, ConfigName(k)).Some?
    ensures var c := Find(t.active[id].configs, ConfigName(k)).value;
            c.kind == k && Lookup(t.ini, ConfigName(k)) == Some(Shown(c, user))
  {
    hide ConfigName;
    id :| Wins(t.active, id, ConfigName(k)) && ShowsFile(t, t.active[id], ConfigName(k), user);
    NamesAreInjective(Find(t.active[id].configs, ConfigName(k)).value.kind, k);
  }

  /**
   Dynamic instrumentation, exception replay and code origin show an explicit falsy value of
   the user right after every recompute, whatever the files say.
   */
  lemma VetoIsShown(ini: Ini, es: seq<Event>, e: Event, k: Kind, v: string)
    requires RecomputeRun(ini, es, e) && UserSet(ini, es, k) == Some(v) && !Truthy(v)
    requires k == DynamicInstrumentationEnabled || k == ExceptionReplayEnabled || k == CodeOriginEnabled
    ensures Lookup(After(ini, es, e).ini, ConfigName(k)) == Some(v)
  {
    hide Truthy, ConfigName;
    OverlayAfterRecompute(ini, es, e, ConfigName(k));
    var t := After(ini, es, e);
    if ConfigName(k) in t.saved {
      var id := WinnerIsShown(t, k, Some(v));
    }
  }

  /** In particular an empty text, `0`, `false`, `no` and `off`, in any case. */
  lemma OffIsShown(ini: Ini, es: seq<Event>, e: Event, k: Kind, v: string)
    requires RecomputeRun(ini, es, e) && UserSet(ini, es, k) == Some(v)
    requires SaysOff(v)
    requires k == DynamicInstrumentationEnabled || k == ExceptionReplayEnabled || k == CodeOriginEnabled
    ensures Lookup(After(ini, es, e).ini, ConfigName(k)) == Some(v)
  {
    OffIsFalsy(v);
    hide Truthy, SaysOff;
    VetoIsShown(ini, es, e, k, v);
  }

  /**
   Any other carried setting shows the value of a winning file right after every recompute,
   and so do those three where the user set nothing or a truthy value.
   */
  lemma RemoteIsShown(ini: Ini, es: seq<Event>, e: Event, k: Kind) returns (id: string)
    requires RecomputeRun(ini, es, e) && exists j :: Carries(After(ini, es, e).active, j, ConfigName(k))
    requires k == DynamicInstrumentationEnabled || k == ExceptionReplayEnabled || k == CodeOriginEnabled ==>
               UserSet(ini, es, k).None? || Truthy(UserSet(ini, es, k).value)
    ensures var t := After(ini, es, e);
            && Wins(t.active, id, ConfigName(k)) && Find(t.active[id].configs, ConfigName(k)).Some?
            && Lookup(t.ini, ConfigName(k)) == Some(Find(t.active[id].configs, ConfigName(k)).value.value)
  {
    hide Truthy, ConfigName;
    OverlayAfterRecompute(ini, es, e, ConfigName(k));
    id := WinnerIsShown(After(ini, es, e), k, UserSet(ini, es, k));
  }

  /******* Traces by name *******/

  lemma GuardedByName(k: Kind)
    ensures Guarded(ConfigName(k)) <==> k != TracingTags && k != TracingEnabled && k != TracingSamplingRules
  {
    hide ConfigName;
    if Guarded(ConfigName(k)) {
      var j :| Reported(j) && ConfigName(k) == ConfigName(j);
      NamesAreInjective(k, j);
    } else {
      assert ConfigName(k) == ConfigName(k);
    }
  }

  /** User writes leave no trace in any setting but these three. */
  lemma NoTraceByName(n: string)
    ensures LeavesNoTrace(n) <==>
            n != "datadog.tags" && n != "datadog.trace.enabled" && n != "datadog.trace.sampling_rules"
  {
    NoTraceExactlyForGuarded(n);
    GuardedByName(TracingTags);
    GuardedByName(TracingEnabled);
    GuardedByName(TracingSamplingRules);
    assert ConfigName(TracingTags) == "datadog.tags" && ConfigName(TracingEnabled) == "datadog.trace.enabled"
           && ConfigName(TracingSamplingRules) == "datadog.trace.sampling_rules";
    hide LeavesNoTrace, Guarded, ConfigName;
    if Remote(n) {
      var k :| n == ConfigName(k);
      GuardedByName(k);
    } else {
      assert n != ConfigName(TracingTags) && n != ConfigName(TracingEnabled) && n != ConfigName(TracingSamplingRules);
    }
  }
}
