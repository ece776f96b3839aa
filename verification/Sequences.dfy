/** Sequence helpers: reversal, filtering, and the multiset of everything a map holds. */
module Sequences {

  function Reverse<T>(s: seq<T>): (r: seq<T>)
    ensures |r| == |s|
  {
    if s == [] then [] else Reverse(s[1..]) + [s[0]]
  }

  lemma {:induction false} ReverseAppend<T>(a: seq<T>, b: seq<T>)
    ensures Reverse(a + b) == Reverse(b) + Reverse(a)
  {
    if a == [] {
      assert a + b == b;
      assert Reverse(b) + Reverse(a) == Reverse(b);
    } else {
      assert (a + b)[1..] == a[1..] + b;
      ReverseAppend(a[1..], b);
    }
  }

  lemma {:induction false} ReverseTwice<T>(s: seq<T>)
    ensures Reverse(Reverse(s)) == s
  {
    if s != [] {
      ReverseTwice(s[1..]);
      ReverseAppend(Reverse(s[1..]), [s[0]]);
      assert Reverse([s[0]]) == [s[0]];
    }
  }

  lemma {:induction false} ReverseMultiset<T>(s: seq<T>)
    ensures multiset(Reverse(s)) == multiset(s)
  {
    if s != [] {
      ReverseMultiset(s[1..]);
      assert s == [s[0]] + s[1..];
    }
  }

  function Filter<T>(p: T -> bool, s: seq<T>): seq<T> {
    if s == [] then [] else (if p(s[0]) then [s[0]] else []) + Filter(p, s[1..])
  }

  lemma {:induction false} FilterAppend<T>(p: T -> bool, a: seq<T>, b: seq<T>)
    ensures Filter(p, a + b) == Filter(p, a) + Filter(p, b)
  {
    if a == [] {
      assert a + b == b;
    } else {
      assert (a + b)[1..] == a[1..] + b;
      FilterAppend(p, a[1..], b);
      Associate(if p(a[0]) then [a[0]] else [], Filter(p, a[1..]), Filter(p, b));
    }
  }

  lemma Associate<T>(a: seq<T>, b: seq<T>, c: seq<T>)
    ensures a + (b + c) == (a + b) + c
  {
  }

  lemma {:induction false} FilterReverse<T>(p: T -> bool, s: seq<T>)
    ensures Filter(p, Reverse(s)) == Reverse(Filter(p, s))
  {
    if s != [] {
      FilterReverse(p, s[1..]);
      FilterAppend(p, Reverse(s[1..]), [s[0]]);
      assert Filter(p, [s[0]]) == if p(s[0]) then [s[0]] else [];
      ReverseAppend(if p(s[0]) then [s[0]] else [], Filter(p, s[1..]));
    }
  }

  lemma {:induction false} FilterNone<T>(p: T -> bool, s: seq<T>)
    requires forall x | x in s :: !p(x)
    ensures Filter(p, s) == []
  {
    if s != [] {
      FilterNone(p, s[1..]);
    }
  }

  /** Everything the sequences of a map hold. */
  ghost function Gather<K, T>(m: map<K, seq<T>>): multiset<T>
    decreases |m|
  {
    if m == map[] then multiset{}
    else
      var k :| k in m;
      multiset(m[k]) + Gather(m - {k})
  }

  lemma {:induction false} GatherSplit<K, T>(m: map<K, seq<T>>, k: K)
    requires k in m
    ensures Gather(m) == multiset(m[k]) + Gather(m - {k})
    decreases |m|
  {
    var j :| j in m && Gather(m) == multiset(m[j]) + Gather(m - {j});
    if j != k {
      GatherSplit(m - {j}, k);
      GatherSplit(m - {k}, j);
      assert m - {j} - {k} == m - {k} - {j};
    }
  }

  lemma GatherUpdate<K, T>(m: map<K, seq<T>>, k: K, s: seq<T>)
    ensures Gather(m[k := s]) == multiset(s) + Gather(m - {k})
  {
    GatherSplit(m[k := s], k);
    assert m[k := s] - {k} == m - {k};
  }

  lemma {:induction false} GatherHas<K, T>(m: map<K, seq<T>>, k: K, x: T)
    requires k in m && x in m[k]
    ensures x in Gather(m)
  {
    GatherSplit(m, k);
  }
}
