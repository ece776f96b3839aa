/** The conversion of OTEL_RESOURCE_ATTRIBUTES into `key:value` tags. */
module OtelTags {
  import opened OtelAttributes

  const MAX_TAGS := 10

  /** Overrun: the scan stepped past the terminator of the text. `out` is what it wrote. */
  datatype Outcome = Ended(out: string) | Overrun(out: string)

  predicate Reserved(key: string) {
    key == "deployment.environment" || key == "service.name" || key == "service.version"
  }

  function Tag(p: Pair): string {
    p.key + ":" + p.value
  }

  /** Drops the separator after the last tag. */
  function Trim(out: string): string {
    if out == "" then "" else out[..|out| - 1]
  }

  /** The conversion from position `i` on, with `tags` tags written as `out`. */
  function Convert(s: string, i: nat, tags: nat, out: string): Outcome
    decreases |s| + 1 - i
  {
    if !HasPair(s, i) then Ended(out)
    else if Reserved(PairAt(s, i).key) then
      if ValueEnd(s, i) == |s| then Overrun(out) else Convert(s, ValueEnd(s, i) + 1, tags, out)
    else
      var out' := out + Tag(PairAt(s, i)) + ",";
      if tags + 1 == MAX_TAGS && ValueEnd(s, i) < |s| then Ended(out')
      else Convert(s, ValueEnd(s, i) + 1, tags + 1, out')
  }

  /******* What the conversion means *******/

  function Kept(ps: seq<Pair>): seq<Pair> {
    if ps == [] then []
    else (if Reserved(ps[0].key) then [] else [ps[0]]) + Kept(ps[1..])
  }

  function Take(n: nat, ps: seq<Pair>): seq<Pair> {
    if |ps| <= n then ps else ps[..n]
  }

  /** Tags, each followed by a comma. */
  function Written(ps: seq<Pair>): string {
    if ps == [] then "" else Tag(ps[0]) + "," + Written(ps[1..])
  }

  /** Tags with commas between them. */
  function Join(ps: seq<Pair>): string {
    if ps == [] then "" else if |ps| == 1 then Tag(ps[0]) else Tag(ps[0]) + "," + Join(ps[1..])
  }

  /** The last pair ends the text and its key is reserved. */
  predicate EndsReserved(s: string, i: nat)
    decreases |s| + 1 - i
  {
    HasPair(s, i) &&
    if ValueEnd(s, i) == |s| then Reserved(PairAt(s, i).key) else EndsReserved(s, ValueEnd(s, i) + 1)
  }

  lemma {:induction false} TrimmedIsJoined(ps: seq<Pair>)
    ensures Trim(Written(ps)) == Join(ps)
  {
    if |ps| == 1 {
      assert Written(ps) == Tag(ps[0]) + ",";
    } else if |ps| > 1 {
      TrimmedIsJoined(ps[1..]);
      var rest := Written(ps[1..]);
      assert rest != "";
      assert (Tag(ps[0]) + "," + rest)[..|Tag(ps[0]) + "," + rest| - 1] == Tag(ps[0]) + "," + rest[..|rest| - 1];
    }
  }

  lemma WrittenOneMore(out: string, n: nat, p: Pair, ps: seq<Pair>)
    ensures out + Written(Take(n + 1, [p] + ps)) == out + Tag(p) + "," + Written(Take(n, ps))
  {
    var taken := Take(n + 1, [p] + ps);
    assert taken[0] == p && taken[1..] == Take(n, ps);
    assert out + (Tag(p) + "," + Written(Take(n, ps))) == out + Tag(p) + "," + Written(Take(n, ps));
  }

  /** What the conversion from `i` on yields: up to the tags still allowed, unless it overruns. */
  function Expected(s: string, i: nat, tags: nat, out: string): Outcome
    requires tags <= MAX_TAGS
  {
    var kept := Kept(Pairs(s, i));
    var written := out + Written(Take(MAX_TAGS - tags, kept));
    if |kept| < MAX_TAGS - tags && EndsReserved(s, i) then Overrun(written) else Ended(written)
  }

  lemma PairsStep(s: string, i: nat)
    requires HasPair(s, i)
    ensures Pairs(s, i) == [PairAt(s, i)] + Pairs(s, ValueEnd(s, i) + 1)
    ensures Kept(Pairs(s, i)) == (if Reserved(PairAt(s, i).key) then [] else [PairAt(s, i)])
                                 + Kept(Pairs(s, ValueEnd(s, i) + 1))
  {
    assert ([PairAt(s, i)] + Pairs(s, ValueEnd(s, i) + 1))[1..] == Pairs(s, ValueEnd(s, i) + 1);
  }

  lemma ExpectedReservedLast(s: string, i: nat, tags: nat, out: string)
    requires HasPair(s, i) && tags < MAX_TAGS && Reserved(PairAt(s, i).key) && ValueEnd(s, i) == |s|
    ensures Expected(s, i, tags, out) == Overrun(out)
  {
    PairsStep(s, i);
    PairsPastEnd(s);
    assert Kept(Pairs(s, i)) == [];
    assert out + "" == out;
  }

  lemma ExpectedReserved(s: string, i: nat, tags: nat, out: string)
    requires HasPair(s, i) && tags < MAX_TAGS && Reserved(PairAt(s, i).key) && ValueEnd(s, i) < |s|
    ensures Expected(s, i, tags, out) == Expected(s, ValueEnd(s, i) + 1, tags, out)
  {
    PairsStep(s, i);
    var rest := Kept(Pairs(s, ValueEnd(s, i) + 1));
    assert [] + rest == rest;
    assert EndsReserved(s, i) == EndsReserved(s, ValueEnd(s, i) + 1);
  }

  lemma ExpectedTag(s: string, i: nat, tags: nat, out: string)
    requires HasPair(s, i) && tags < MAX_TAGS && !Reserved(PairAt(s, i).key)
    ensures var out' := out + Tag(PairAt(s, i)) + ",";
            && (tags + 1 == MAX_TAGS ==> Expected(s, i, tags, out) == Ended(out'))
            && (tags + 1 < MAX_TAGS || ValueEnd(s, i) == |s| ==>
              Expected(s, i, tags, out) == Expected(s, ValueEnd(s, i) + 1, tags + 1, out'))
  {
    hide PairAt, KeyEnd, ValueEnd, Next, Pairs, Reserved, Tag, Trim;
    PairsStep(s, i);
    var rest := Kept(Pairs(s, ValueEnd(s, i) + 1));
    WrittenOneMore(out, MAX_TAGS - tags - 1, PairAt(s, i), rest);
    var out' := out + Tag(PairAt(s, i)) + ",";
    assert Written(Take(0, rest)) == "" && out' + "" == out';
    if ValueEnd(s, i) == |s| {
      PairsPastEnd(s);
    }
  }

  lemma NothingLeft(s: string, i: nat, tags: nat, out: string)
    requires !HasPair(s, i) && tags <= MAX_TAGS
    ensures Convert(s, i, tags, out) == Expected(s, i, tags, out)
  {
    assert Kept(Pairs(s, i)) == [];
    assert out + "" == out;
  }

  lemma ConvertReserved(s: string, i: nat, tags: nat, out: string)
    requires HasPair(s, i) && tags < MAX_TAGS && Reserved(PairAt(s, i).key)
    requires ValueEnd(s, i) < |s| ==>
               Convert(s, ValueEnd(s, i) + 1, tags, out) == Expected(s, ValueEnd(s, i) + 1, tags, out)
    ensures Convert(s, i, tags, out) == Expected(s, i, tags, out)
  {
    hide PairAt, KeyEnd, ValueEnd, Next, Reserved, Expected;
    if ValueEnd(s, i) == |s| {
      ExpectedReservedLast(s, i, tags, out);
    } else {
      ExpectedReserved(s, i, tags, out);
    }
  }

  lemma ConvertTag(s: string, i: nat, tags: nat, out: string)
    requires HasPair(s, i) && tags < MAX_TAGS && !Reserved(PairAt(s, i).key)
    requires tags + 1 < MAX_TAGS || ValueEnd(s, i) == |s| ==>
               var out' := out + Tag(PairAt(s, i)) + ",";
               Convert(s, ValueEnd(s, i) + 1, tags + 1, out') == Expected(s, ValueEnd(s, i) + 1, tags + 1, out')
    ensures Convert(s, i, tags, out) == Expected(s, i, tags, out)
  {
    hide PairAt, KeyEnd, ValueEnd, Next, Reserved, Expected, Trim;
    ExpectedTag(s, i, tags, out);
  }

  lemma {:induction false} ReservedCase(s: string, i: nat, tags: nat, out: string)
    requires HasPair(s, i) && tags < MAX_TAGS && Reserved(PairAt(s, i).key)
    ensures Convert(s, i, tags, out) == Expected(s, i, tags, out)
    decreases |s| + 1 - i, 0
  {
    hide Convert, Expected, Pairs, PairAt, KeyEnd, ValueEnd, Next, Reserved;
    if ValueEnd(s, i) < |s| {
      ConvertIsExpected(s, ValueEnd(s, i) + 1, tags, out);
    }
    ConvertReserved(s, i, tags, out);
  }

  lemma {:induction false} TagCase(s: string, i: nat, tags: nat, out: string)
    requires HasPair(s, i) && tags < MAX_TAGS && !Reserved(PairAt(s, i).key)
    ensures Convert(s, i, tags, out) == Expected(s, i, tags, out)
    decreases |s| + 1 - i, 0
  {
    hide Convert, Expected, Pairs, PairAt, KeyEnd, ValueEnd, Next, Reserved, Tag;
    if tags + 1 < MAX_TAGS || ValueEnd(s, i) == |s| {
      ConvertIsExpected(s, ValueEnd(s, i) + 1, tags + 1, out + Tag(PairAt(s, i)) + ",");
    }
    ConvertTag(s, i, tags, out);
  }

  lemma {:induction false} ConvertIsExpected(s: string, i: nat, tags: nat, out: string)
    requires tags < MAX_TAGS || (tags == MAX_TAGS && !HasPair(s, i))
    ensures Convert(s, i, tags, out) == Expected(s, i, tags, out)
    decreases |s| + 1 - i, 1
  {
    hide Convert, Expected, Pairs, PairAt, KeyEnd, ValueEnd, Next, Reserved;
    if !HasPair(s, i) {
      NothingLeft(s, i, tags, out);
    } else if Reserved(PairAt(s, i).key) {
      ReservedCase(s, i, tags, out);
    } else {
      TagCase(s, i, tags, out);
    }
  }

  /** The tags a text is converted into. */
  function Tags(s: string): seq<Pair> {
    Take(MAX_TAGS, Kept(Pairs(s, 0)))
  }

  /** The scan steps past the end: fewer than ten tags are kept and a reserved key ends the text. */
  predicate Overruns(s: string) {
    |Kept(Pairs(s, 0))| < MAX_TAGS && EndsReserved(s, 0)
  }

  /**
   For every text the first ten kept pairs are written in order, each followed by a comma,
   and the scan overruns exactly when fewer than ten are kept and a reserved key ends the
   text; without the last comma the tags are joined by commas.
   */
  lemma ConversionMeaning(s: string)
    ensures Convert(s, 0, 0, "") == if Overruns(s) then Overrun(Written(Tags(s))) else Ended(Written(Tags(s)))
    ensures Trim(Written(Tags(s))) == Join(Tags(s))
  {
    ConvertIsExpected(s, 0, 0, "");
    assert "" + Written(Tags(s)) == Written(Tags(s));
    TrimmedIsJoined(Tags(s));
  }

  /******* No longer than the input *******/

  lemma {:induction false} KeptFits(s: string, i: nat)
    requires i <= |s| + 1
    ensures |Written(Kept(Pairs(s, i)))| <= |s| + 1 - i
    decreases |s| + 1 - i
  {
    if HasPair(s, i) {
      KeptFits(s, ValueEnd(s, i) + 1);
      PairsStep(s, i);
      var rest := Kept(Pairs(s, ValueEnd(s, i) + 1));
      if !Reserved(PairAt(s, i).key) {
        assert ([PairAt(s, i)] + rest)[1..] == rest;
      } else {
        assert [] + rest == rest;
      }
    }
  }

  lemma {:induction false} TakeFits(n: nat, ps: seq<Pair>)
    ensures |Written(Take(n, ps))| <= |Written(ps)|
    decreases n
  {
    if n > 0 && |ps| > n {
      assert Take(n, ps)[1..] == Take(n - 1, ps[1..]);
      TakeFits(n - 1, ps[1..]);
    }
  }

  /** The tags are no longer than the text they come from. */
  lemma TagsFit(s: string)
    ensures |Join(Tags(s))| <= |s| && |Written(Tags(s))| <= |s| + 1
  {
    KeptFits(s, 0);
    TakeFits(MAX_TAGS, Kept(Pairs(s, 0)));
    TrimmedIsJoined(Tags(s));
  }

  /** A buffer of `n` characters holds everything the conversion writes. */
  predicate FitsIn(s: string, n: nat) {
    |Written(Tags(s))| <= n && (Overruns(s) || n > 0)
  }

  /** A buffer longer than the text is always large enough. */
  lemma LongerBufferFits(s: string, n: nat)
    requires n > |s|
    ensures FitsIn(s, n)
  {
    TagsFit(s);
  }

  /** One pair that fills the buffer does not fit, because its comma is written too. */
  lemma LongPairDoesNotFit(p: Pair, n: nat)
    requires Printable(p) && !Reserved(p.key) && |PrintPair(p)| >= n
    ensures !FitsIn(Print([p]), n)
  {
    ParseUndoesPrint([p]);
    hide Print, Pairs, Reserved;
    assert [p][1..] == [] && Kept([p]) == [p] + [] == [p];
    assert Take(MAX_TAGS, [p]) == [p];
    assert Written([p]) == Tag(p) + "," + "";
  }

  /******* Printed lists *******/

  lemma EndsExtend(s: string, i: nat, j: nat)
    requires HasPair(s, i) && j == ValueEnd(s, i) + 1 <= |s|
    ensures EndsReserved(s, i) == EndsReserved(s, j)
  {
  }

  lemma {:induction false} PrintEndsReserved(before: string, ps: seq<Pair>)
    requires ps != [] && forall i | 0 <= i < |ps| :: Printable(ps[i])
    ensures EndsReserved(before + Print(ps), |before|) == Reserved(ps[|ps| - 1].key)
    decreases |ps|
  {
    hide Print, HasPair, PairAt, KeyEnd, ValueEnd, Next, Reserved, Through, Printable;
    if |ps| == 1 {
      assert ps == [ps[0]];
      PrintLast(before, ps[0]);
    } else {
      PrintEndsReserved(Through(before, ps[0]), ps[1..]);
      PrintStep(before, ps);
      EndsExtend(before + Print(ps), |before|, |Through(before, ps[0])|);
    }
  }

  /** A printed list is converted into its first ten unreserved pairs unless a reserved key ends it too early. */
  lemma ConversionUndoesPrint(ps: seq<Pair>)
    requires forall i | 0 <= i < |ps| :: Printable(ps[i])
    ensures Convert(Print(ps), 0, 0, "") ==
            var written := Written(Take(MAX_TAGS, Kept(ps)));
            if |Kept(ps)| < MAX_TAGS && ps != [] && Reserved(ps[|ps| - 1].key) then Overrun(written)
            else Ended(written)
    ensures Trim(Written(Take(MAX_TAGS, Kept(ps)))) == Join(Take(MAX_TAGS, Kept(ps)))
  {
    ConversionMeaning(Print(ps));
    ParseUndoesPrint(ps);
    if ps != [] {
      PrintEndsReserved("", ps);
      assert "" + Print(ps) == Print(ps);
    }
  }

  /******* The conversion in place *******/

  /** Copies `key=value` and its comma to `out`, with a colon for the equals sign. */
  method WriteTag(buf: array<char>, out: nat, s: string, key: nat, keyEnd: nat, cur: nat) returns (next: nat)
    requires key <= keyEnd < cur <= |s| && out + (cur - key) < buf.Length
    modifies buf
    ensures next == out + (cur - key) + 1
    ensures buf[..next] == old(buf[..out]) + Tag(Pair(s[key..keyEnd], s[keyEnd + 1..cur])) + ","
  {
    for k := key to cur
      invariant buf[..out] == old(buf[..out])
      invariant forall n | key <= n < k :: buf[out + (n - key)] == s[n]
    {
      buf[out + (k - key)] := s[k];
    }
    buf[out + (keyEnd - key)] := ':';
    next := out + (cur - key);
    buf[next] := ',';
    next := next + 1;
    TagText(s, key, keyEnd, cur, buf[out..next - 1]);
    assert buf[..next] == buf[..out] + buf[out..next - 1] + [buf[next - 1]];
  }

  /** The copied text with a colon for the equals sign is the tag. */
  lemma TagText(s: string, key: nat, keyEnd: nat, cur: nat, b: string)
    requires key <= keyEnd < cur <= |s| && |b| == cur - key
    requires forall k | 0 <= k < |b| :: b[k] == if k == keyEnd - key then ':' else s[key + k]
    ensures b == Tag(Pair(s[key..keyEnd], s[keyEnd + 1..cur]))
  {
  }

  /** A pair starts at `i`, with its equals sign at `e` and its value ending at `c`. */
  ghost predicate Spans(s: string, i: nat, e: nat, c: nat) {
    && i <= e < c <= |s| && s[e] == '=' && (c < |s| ==> s[c] == ',')
    && (forall k | i <= k < e :: s[k] != '=') && (forall k | e < k < c :: s[k] != ',')
  }

  ghost predicate NoEquals(s: string, i: nat) {
    forall k | i <= k < |s| :: s[k] != '='
  }

  type Conversion = (nat, nat, string) -> Outcome

  function AfterPair(s: string, f: Conversion, i: nat, e: nat, c: nat, tags: nat, out: string): Outcome
    requires i <= e < c <= |s|
  {
    if Reserved(s[i..e]) then if c == |s| then Overrun(out) else f(c + 1, tags, out)
    else
      var out' := out + Tag(Pair(s[i..e], s[e + 1..c])) + ",";
      if tags + 1 == MAX_TAGS && c < |s| then Ended(out') else f(c + 1, tags + 1, out')
  }

  /** `f` converts pair by pair, ends where no pair is left and keeps what was written. */
  ghost predicate Converts(s: string, f: Conversion) {
    && (forall i, e, c, tags, out :: Spans(s, i, e, c) ==> f(i, tags, out) == AfterPair(s, f, i, e, c, tags, out))
    && (forall i, tags, out :: NoEquals(s, i) ==> f(i, tags, out) == Ended(out))
    && (forall i, tags, out :: out <= f(i, tags, out).out)
  }

  function ConvertFrom(s: string): Conversion {
    (i: nat, tags: nat, out: string) => Convert(s, i, tags, out)
  }

  lemma {:induction false} ConvertKeepsWritten(s: string, i: nat, tags: nat, out: string)
    ensures out <= Convert(s, i, tags, out).out
    decreases |s| + 1 - i
  {
    hide HasPair, PairAt, KeyEnd, ValueEnd, Next, Reserved, Tag;
    if HasPair(s, i) {
      if Reserved(PairAt(s, i).key) {
        ConvertKeepsWritten(s, ValueEnd(s, i) + 1, tags, out);
      } else {
        ConvertKeepsWritten(s, ValueEnd(s, i) + 1, tags + 1, out + Tag(PairAt(s, i)) + ",");
      }
    }
  }

  lemma ConvertConverts(s: string)
    ensures Converts(s, ConvertFrom(s))
  {
    hide Reserved, Tag, Trim, Next;
    var f := ConvertFrom(s);
    forall i, e, c, tags, out | Spans(s, i, e, c) ensures f(i, tags, out) == AfterPair(s, f, i, e, c, tags, out) {
      FoundPair(s, i, e, c);
    }
    forall i, tags, out | NoEquals(s, i) ensures f(i, tags, out) == Ended(out) {
      NoPair(s, i);
    }
    forall i, tags, out ensures out <= f(i, tags, out).out {
      ConvertKeepsWritten(s, i, tags, out);
    }
  }

  /** Handles the pair whose key starts at `key` and ends at `keyEnd`; a tag that does not fit is not written. */
  method ScanPair(s: string, buf: array<char>, key: nat, keyEnd: nat, out: nat)
    returns (cur: nat, reserved: bool, fits: bool, next: nat)
    requires key <= keyEnd < |s| && s[keyEnd] == '=' && out <= buf.Length
    requires forall k | key <= k < keyEnd :: s[k] != '='
    modifies buf
    ensures Spans(s, key, keyEnd, cur) && next <= buf.Length
    ensures reserved == Reserved(s[key..keyEnd])
    ensures fits == (reserved || out + (cur - key) < buf.Length)
    ensures buf[..next] == if reserved || !fits then old(buf[..out])
                           else old(buf[..out]) + Tag(Pair(s[key..keyEnd], s[keyEnd + 1..cur])) + ","
  {
    cur := SkipValue(s, keyEnd + 1);
    reserved, fits, next := Reserved(s[key..keyEnd]), true, out;
    if !reserved {
      fits := out + (cur - key) < buf.Length;
      if fits {
        next := WriteTag(buf, out, s, key, keyEnd, cur);
      }
    }
  }

  /** How a scan ends: after the text, past its terminator, or at a write outside the buffer. */
  datatype Scan = Wrote(out: nat) | PastText | PastBuffer

  /** Scans the text into `buf`, up to ten tags, each followed by a comma. */
  method ScanTags(s: string, buf: array<char>, ghost f: Conversion) returns (r: Scan)
    requires Converts(s, f)
    modifies buf
    ensures r.PastBuffer? <==> |f(0, 0, "").out| > buf.Length
    ensures r.PastText? ==> f(0, 0, "").Overrun?
    ensures r.Wrote? ==> r.out <= buf.Length && f(0, 0, "") == Ended(buf[..r.out])
  {
    hide Reserved, Tag, Converts;
    var out, cur, keyStart, tags := 0, 0, 0, 0;
    while cur < |s|
      invariant 0 <= keyStart <= cur + 1 <= |s| + 1 && 0 <= out <= buf.Length
      invariant keyStart <= cur || cur == |s| || s[cur] == ','
      invariant f(0, 0, "") == f(keyStart, tags, buf[..out])
      invariant forall k | keyStart <= k < cur :: s[k] != '='
      decreases |s| - cur
    {
      if s[cur] == '=' {
        ghost var key, keyEnd, acc := keyStart, cur, buf[..out];
        var reserved, fits;
        cur, reserved, fits, out := ScanPair(s, buf, keyStart, cur, out);
        StepsThrough(s, f, key, keyEnd, cur, tags, acc);
        if !fits {
          DoesNotFit(s, f, key, keyEnd, cur, tags, acc, buf.Length);
          return Scan.PastBuffer;
        }
        keyStart := cur + 1;
        if reserved {
          if cur == |s| {
            return PastText;
          }
          cur := cur + 1;
          continue;
        }
        tags := tags + 1;
        if tags == MAX_TAGS && cur < |s| {
          return Wrote(out);
        }
        cur := cur - 1;
      }
      cur := cur + 1;
    }
    StepsOut(s, f, keyStart, tags, buf[..out]);
    r := Wrote(out);
  }

  lemma StepsThrough(s: string, f: Conversion, i: nat, e: nat, c: nat, tags: nat, out: string)
    requires Converts(s, f) && Spans(s, i, e, c)
    ensures f(i, tags, out) == AfterPair(s, f, i, e, c, tags, out)
    ensures out <= f(i, tags, out).out
  {
  }

  lemma StepsOut(s: string, f: Conversion, i: nat, tags: nat, out: string)
    requires Converts(s, f) && forall k | i <= k < |s| :: s[k] != '='
    ensures f(i, tags, out) == Ended(out)
  {
    assert NoEquals(s, i);
  }

  /** A tag that does not fit makes everything written too long. */
  lemma DoesNotFit(s: string, f: Conversion, i: nat, e: nat, c: nat, tags: nat, out: string, n: nat)
    requires Converts(s, f) && Spans(s, i, e, c) && !Reserved(s[i..e]) && |out| + (c - i) >= n
    ensures |f(i, tags, out).out| > n
  {
    hide Reserved;
    var out' := out + Tag(Pair(s[i..e], s[e + 1..c])) + ",";
    assert |out'| == |out| + (c - i) + 1;
    assert f(i, tags, out) == AfterPair(s, f, i, e, c, tags, out);
    assert out' <= f(c + 1, tags + 1, out').out;
  }

  /**
   Writes the terminated tags to `buf`: all writes stay inside exactly when the tags with
   their commas, and at least the terminator, fit.
   */
  method ConvertTags(s: string, buf: array<char>) returns (r: Scan)
    modifies buf
    ensures r.PastBuffer? <==> !FitsIn(s, buf.Length)
    ensures FitsIn(s, buf.Length) ==> (r.PastText? <==> Overruns(s))
    ensures r.Wrote? ==> && r.out < buf.Length && buf[..r.out] == Join(Tags(s)) && buf[r.out] == '\0'
  {
    ConvertConverts(s);
    r := ScanTags(s, buf, ConvertFrom(s));
    assert ConvertFrom(s)(0, 0, "") == Convert(s, 0, 0, "");
    hide Convert, Pairs, Kept, Join, Take, EndsReserved, Converts, Written;
    ConversionMeaning(s);
    if r.Wrote? {
      var out := r.out;
      if out != 0 {
        assert buf[..out][..out - 1] == buf[..out - 1];
        out := out - 1;
      }
      if out == buf.Length {
        return Scan.PastBuffer;
      }
      buf[out] := '\0';
      r := Wrote(out);
    }
  }
}
