/**
 OTEL_RESOURCE_ATTRIBUTES: `key=value` pairs separated by commas, without percent-decoding.
 One loop looks a key up, another rewrites the pairs as `key:value` tags.
 */
module OtelAttributes {
  import opened Options

  datatype Pair = Pair(key: string, value: string)

  /******* The pairs of a string *******/

  /** The first position of `c` from `i` on, or the length. */
  function Next(s: string, c: char, i: nat): (r: nat)
    requires i <= |s|
    ensures i <= r <= |s| && (r < |s| ==> s[r] == c)
    ensures forall k | i <= k < r :: s[k] != c
    decreases |s| - i
  {
    if i == |s| || s[i] == c then i else Next(s, c, i + 1)
  }

  lemma NextIs(s: string, c: char, i: nat, r: nat)
    requires i <= r <= |s| && (r < |s| ==> s[r] == c)
    requires forall k | i <= k < r :: s[k] != c
    ensures Next(s, c, i) == r
  {
  }

  /** A pair starts at `i`: there is an equals sign from there on. */
  predicate HasPair(s: string, i: nat) {
    i <= |s| && Next(s, '=', i) < |s|
  }

  /** The equals sign that ends the key. */
  function KeyEnd(s: string, i: nat): (e: nat)
    requires HasPair(s, i)
    ensures i <= e < |s| && s[e] == '='
  {
    Next(s, '=', i)
  }

  /** The comma, or the end of the text, that ends the value. */
  function ValueEnd(s: string, i: nat): (c: nat)
    requires HasPair(s, i)
    ensures KeyEnd(s, i) < c <= |s| && (c < |s| ==> s[c] == ',')
  {
    Next(s, ',', KeyEnd(s, i) + 1)
  }

  function PairAt(s: string, i: nat): Pair
    requires HasPair(s, i)
  {
    Pair(s[i..KeyEnd(s, i)], s[KeyEnd(s, i) + 1..ValueEnd(s, i)])
  }

  function Pairs(s: string, i: nat): seq<Pair>
    decreases |s| + 1 - i
  {
    if HasPair(s, i) then [PairAt(s, i)] + Pairs(s, ValueEnd(s, i) + 1) else []
  }

  /** The positions a loop found are those of the pair at `i`. */
  lemma FoundPair(s: string, i: nat, e: nat, c: nat)
    requires i <= e < c <= |s| && s[e] == '=' && (c < |s| ==> s[c] == ',')
    requires (forall k | i <= k < e :: s[k] != '=') && (forall k | e < k < c :: s[k] != ',')
    ensures HasPair(s, i) && KeyEnd(s, i) == e && ValueEnd(s, i) == c
  {
    NextIs(s, '=', i, e);
    NextIs(s, ',', e + 1, c);
  }

  lemma NoPair(s: string, i: nat)
    requires forall k | i <= k < |s| :: s[k] != '='
    ensures !HasPair(s, i)
  {
    if i <= |s| {
      NextIs(s, '=', i, |s|);
    }
  }

  /******* Printing *******/

  predicate Printable(p: Pair) {
    '=' !in p.key && ',' !in p.key && ',' !in p.value
  }

  function PrintPair(p: Pair): string {
    p.key + "=" + p.value
  }

  function Print(ps: seq<Pair>): string {
    if ps == [] then ""
    else PrintPair(ps[0]) + if |ps| == 1 then "" else "," + Print(ps[1..])
  }

  lemma PrintedText(before: string, p: Pair, after: string)
    ensures var s, i := before + PrintPair(p) + after, |before|;
            var e := i + |p.key|;
            var c := e + 1 + |p.value|;
            && |PrintPair(p)| == c - i && |s| == c + |after|
            && s[i..e] == p.key && s[e] == '=' && s[e + 1..c] == p.value && s[c..] == after
  {
  }

  /** A printed pair is found where it was printed. */
  lemma PrintedPair(before: string, p: Pair, after: string)
    requires Printable(p) && (after != "" ==> after[0] == ',')
    ensures var s, i := before + PrintPair(p) + after, |before|;
            && HasPair(s, i) && PairAt(s, i) == p
            && KeyEnd(s, i) == i + |p.key| && ValueEnd(s, i) == i + |PrintPair(p)|
  {
    hide HasPair, KeyEnd, ValueEnd, Next;
    var s, i := before + PrintPair(p) + after, |before|;
    var e := i + |p.key|;
    var c := e + 1 + |p.value|;
    hide PrintPair;
    PrintedText(before, p, after);
    assert forall k | i <= k < e :: s[k] == p.key[k - i];
    assert forall k | e < k < c :: s[k] == p.value[k - e - 1];
    FoundPair(s, i, e, c);
  }

  /** The text before the second pair of a list. */
  function Through(before: string, p: Pair): string {
    before + PrintPair(p) + ","
  }

  /** The last pair of a printed list ends the text. */
  lemma PrintLast(before: string, p: Pair)
    requires Printable(p)
    ensures var s, i := before + Print([p]), |before|;
            && HasPair(s, i) && PairAt(s, i) == p && ValueEnd(s, i) == |s|
            && (KeyEnd(s, i) + 1 == |s| <==> p.value == "")
  {
    hide HasPair, PairAt, KeyEnd, ValueEnd, Next;
    assert before + Print([p]) == before + PrintPair(p) + "";
    PrintedPair(before, p, "");
  }

  /** Reading one pair of a longer printed list leaves the rest of the list printed. */
  lemma PrintStep(before: string, ps: seq<Pair>)
    requires |ps| > 1 && Printable(ps[0])
    ensures var s, i := before + Print(ps), |before|;
            && s == Through(before, ps[0]) + Print(ps[1..])
            && HasPair(s, i) && PairAt(s, i) == ps[0]
            && KeyEnd(s, i) + 1 < |s| && ValueEnd(s, i) + 1 == |Through(before, ps[0])|
  {
    hide HasPair, PairAt, KeyEnd, ValueEnd, Next;
    var s := before + Print(ps);
    assert s == before + PrintPair(ps[0]) + ("," + Print(ps[1..]));
    PrintedPair(before, ps[0], "," + Print(ps[1..]));
    assert s == Through(before, ps[0]) + Print(ps[1..]);
  }

  lemma PairsPastEnd(s: string)
    ensures Pairs(s, |s| + 1) == []
  {
  }

  lemma PairsOfLast(before: string, p: Pair)
    requires Printable(p)
    ensures Pairs(before + Print([p]), |before|) == [p]
  {
    hide HasPair, PairAt, KeyEnd, ValueEnd, Next, Pairs, Print;
    PrintLast(before, p);
    PairsPastEnd(before + Print([p]));
    PairsExtend(before + Print([p]), |before|, |before + Print([p])| + 1, [p]);
  }

  lemma PairsExtend(s: string, i: nat, j: nat, ps: seq<Pair>)
    requires ps != [] && HasPair(s, i) && PairAt(s, i) == ps[0] && j == ValueEnd(s, i) + 1
    requires Pairs(s, j) == ps[1..]
    ensures Pairs(s, i) == ps
  {
    hide HasPair, PairAt, KeyEnd, ValueEnd, Next;
  }

  lemma {:induction false} PairsOfPrint(before: string, ps: seq<Pair>)
    requires forall i | 0 <= i < |ps| :: Printable(ps[i])
    ensures Pairs(before + Print(ps), |before|) == ps
    decreases |ps|
  {
    hide HasPair, PairAt, KeyEnd, ValueEnd, Next;
    if ps == [] {
      NoPair(before + Print(ps), |before|);
    } else if |ps| == 1 {
      assert ps == [ps[0]];
      PairsOfLast(before, ps[0]);
    } else {
      hide Print, Pairs;
      var t := Through(before, ps[0]);
      PairsOfPrint(t, ps[1..]);
      PrintStep(before, ps);
      PairsExtend(before + Print(ps), |before|, |t|, ps);
    }
  }

  /** Reading a printed list gives the list back. */
  lemma ParseUndoesPrint(ps: seq<Pair>)
    requires forall i | 0 <= i < |ps| :: Printable(ps[i])
    ensures Pairs(Print(ps), 0) == ps
  {
    hide Pairs, Print, Printable;
    PairsOfPrint("", ps);
    assert "" + Print(ps) == Print(ps);
  }

  /******* Looking a key up *******/

  /** Where the value of `tag` lies; a key whose value is empty and ends the text is passed over. */
  function Find(s: string, i: nat, tag: string): (r: Option<(nat, nat)>)
    ensures r.Some? ==> r.value.0 <= r.value.1 <= |s|
    decreases |s| + 1 - i
  {
    if !HasPair(s, i) then None
    else if PairAt(s, i).key == tag && KeyEnd(s, i) + 1 < |s| then Some((KeyEnd(s, i) + 1, ValueEnd(s, i)))
    else Find(s, ValueEnd(s, i) + 1, tag)
  }

  function ValueOf(s: string, at: Option<(nat, nat)>): Option<string>
    requires at.Some? ==> at.value.0 <= at.value.1 <= |s|
  {
    if at.Some? then Some(s[at.value.0..at.value.1]) else None
  }

  /** The value of the first pair with the key, unless it is empty and the last. */
  function FirstValue(ps: seq<Pair>, tag: string): Option<string> {
    if ps == [] then None
    else if ps[0].key == tag && !(|ps| == 1 && ps[0].value == "") then Some(ps[0].value)
    else FirstValue(ps[1..], tag)
  }

  lemma FindAtLast(s: string, i: nat, tag: string)
    requires HasPair(s, i) && ValueEnd(s, i) == |s|
    requires KeyEnd(s, i) + 1 == |s| <==> PairAt(s, i).value == ""
    ensures ValueOf(s, Find(s, i, tag)) == FirstValue([PairAt(s, i)], tag)
  {
    assert Find(s, |s| + 1, tag) == None;
  }

  lemma FindLast(before: string, p: Pair, tag: string)
    requires Printable(p)
    ensures var s := before + Print([p]); ValueOf(s, Find(s, |before|, tag)) == FirstValue([p], tag)
  {
    hide HasPair, PairAt, KeyEnd, ValueEnd, Next, Find, FirstValue, Print;
    PrintLast(before, p);
    FindAtLast(before + Print([p]), |before|, tag);
  }

  lemma FindExtend(s: string, i: nat, j: nat, ps: seq<Pair>, tag: string)
    requires |ps| > 1 && HasPair(s, i) && PairAt(s, i) == ps[0] && KeyEnd(s, i) + 1 < |s|
    requires j == ValueEnd(s, i) + 1 && ValueOf(s, Find(s, j, tag)) == FirstValue(ps[1..], tag)
    ensures ValueOf(s, Find(s, i, tag)) == FirstValue(ps, tag)
  {
    hide HasPair, KeyEnd, ValueEnd, Next;
  }

  lemma {:induction false} FindInPrint(before: string, ps: seq<Pair>, tag: string)
    requires forall i | 0 <= i < |ps| :: Printable(ps[i])
    ensures var s := before + Print(ps); ValueOf(s, Find(s, |before|, tag)) == FirstValue(ps, tag)
    decreases |ps|
  {
    hide HasPair, PairAt, KeyEnd, ValueEnd, Next;
    if ps == [] {
      NoPair(before + Print(ps), |before|);
    } else if |ps| == 1 {
      assert ps == [ps[0]];
      FindLast(before, ps[0], tag);
    } else {
      hide Print, Find, FirstValue, ValueOf;
      var t := Through(before, ps[0]);
      FindInPrint(t, ps[1..], tag);
      PrintStep(before, ps);
      FindExtend(before + Print(ps), |before|, |t|, ps, tag);
    }
  }

  /** In a printed list, lookup returns the first matching value unless it is empty and ends the text. */
  lemma LookupUndoesPrint(ps: seq<Pair>, tag: string)
    requires forall i | 0 <= i < |ps| :: Printable(ps[i])
    ensures ValueOf(Print(ps), Find(Print(ps), 0, tag)) == FirstValue(ps, tag)
  {
    hide Find, FirstValue, Print, Printable;
    FindInPrint("", ps, tag);
    assert "" + Print(ps) == Print(ps);
  }

  /** Runs to the comma or the end. */
  method SkipValue(s: string, start: nat) returns (cur: nat)
    requires start <= |s|
    ensures start <= cur <= |s| && (cur < |s| ==> s[cur] == ',')
    ensures forall k | start <= k < cur :: s[k] != ','
  {
    cur := start;
    while cur < |s| && s[cur] != ','
      invariant start <= cur <= |s|
      invariant forall k | start <= k < cur :: s[k] != ','
    {
      cur := cur + 1;
    }
  }

  lemma FindStep(s: string, i: nat, e: nat, c: nat, tag: string)
    requires HasPair(s, i) && KeyEnd(s, i) == e && ValueEnd(s, i) == c
    ensures Find(s, i, tag) == if s[i..e] == tag && e + 1 < |s| then Some((e + 1, c)) else Find(s, c + 1, tag)
  {
  }

  lemma NotFound(s: string, i: nat, tag: string)
    requires forall k | i <= k < |s| :: s[k] != '='
    ensures Find(s, i, tag) == None
  {
    NoPair(s, i);
  }

  /** Finds the value of `tag` in the text. */
  method FindAttribute(s: string, tag: string) returns (r: Option<(nat, nat)>)
    ensures r == Find(s, 0, tag)
  {
    hide Find, HasPair, KeyEnd, ValueEnd, Next;
    var cur, keyStart := 0, 0;
    ghost var found := Find(s, 0, tag);
    while cur < |s|
      invariant 0 <= keyStart <= cur + 1 <= |s| + 1
      invariant keyStart <= cur || cur == |s| || s[cur] == ','
      invariant found == Find(s, keyStart, tag)
      invariant forall k | keyStart <= k < cur :: s[k] != '='
      decreases |s| - cur
    {
      if s[cur] == '=' {
        var keyEnd := cur;
        cur := SkipValue(s, cur + 1);
        FoundPair(s, keyStart, keyEnd, cur);
        FindStep(s, keyStart, keyEnd, cur, tag);
        if keyEnd - keyStart == |tag| && s[keyStart..keyEnd] == tag && keyEnd + 1 < |s| {
          return Some((keyEnd + 1, cur));
        }
        keyStart := cur + 1;
        cur := cur - 1;
      }
      cur := cur + 1;
    }
    NotFound(s, keyStart, tag);
    r := None;
  }

  /** How a lookup ends: no value, a terminated value in the buffer, or a write outside the buffer. */
  datatype Copy = NoValue | Copied(len: nat) | PastBuffer

  /** Copies the value of `tag`: the writes stay inside exactly when value and terminator fit. */
  method LookupAttribute(s: string, tag: string, buf: array<char>) returns (r: Copy)
    modifies buf
    ensures match ValueOf(s, Find(s, 0, tag))
            case None => r == NoValue
            case Some(v) =>
              if |v| < buf.Length then r == Copied(|v|) && buf[..|v|] == v && buf[|v|] == '\0'
              else r == PastBuffer
  {
    var found := FindAttribute(s, tag);
    hide Find;
    if found.None? {
      return NoValue;
    }
    var from, len := found.value.0, found.value.1 - found.value.0;
    if len >= buf.Length {
      return PastBuffer;
    }
    for k := 0 to len
      invariant buf[..k] == s[from..from + k]
    {
      buf[k] := s[from + k];
    }
    buf[len] := '\0';
    r := Copied(len);
  }
}
