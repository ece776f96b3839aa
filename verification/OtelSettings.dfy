/**
 The settings read from OTEL_RESOURCE_ATTRIBUTES: environment, version and service name by
 their own keys, and everything else as tags.
 */
module OtelSettings {
  import opened Options
  import opened OtelAttributes
  import opened OtelTags

  function Attribute(s: string, key: string): Option<string> {
    ValueOf(s, Find(s, 0, key))
  }

  function Environment(s: string): Option<string> {
    Attribute(s, "deployment.environment")
  }

  function Version(s: string): Option<string> {
    Attribute(s, "service.version")
  }

  /** OTEL_SERVICE_NAME, if it is set, comes first. */
  function ServiceName(name: Option<string>, s: string): Option<string> {
    if name.Some? then name else Attribute(s, "service.name")
  }

  /** A setting has the key to itself. */
  predicate HasSetting(key: string) {
    key == "deployment.environment" || key == "service.version" || key == "service.name"
  }

  ghost predicate DistinctKeys(ps: seq<Pair>) {
    forall i, j | 0 <= i < j < |ps| :: ps[i].key != ps[j].key
  }

  lemma {:induction false} FirstValueAt(ps: seq<Pair>, k: nat)
    requires DistinctKeys(ps) && k < |ps| && !(k == |ps| - 1 && ps[k].value == "")
    ensures FirstValue(ps, ps[k].key) == Some(ps[k].value)
    decreases |ps|
  {
    if k > 0 {
      assert ps[0].key != ps[k].key && ps[1..][k - 1] == ps[k];
      FirstValueAt(ps[1..], k - 1);
    }
  }

  lemma {:induction false} FirstValueNone(ps: seq<Pair>, key: string)
    requires forall k | 0 <= k < |ps| :: ps[k].key != key
    ensures FirstValue(ps, key) == None
  {
    if ps != [] {
      FirstValueNone(ps[1..], key);
    }
  }

  lemma {:induction false} KeptMembers(ps: seq<Pair>, p: Pair)
    ensures p in Kept(ps) <==> p in ps && !Reserved(p.key)
  {
    if ps != [] {
      KeptMembers(ps[1..], p);
      assert p in ps <==> p == ps[0] || p in ps[1..];
    }
  }

  /** At most ten tags are written, and of up to ten kept pairs all are. */
  lemma TenTags(s: string)
    ensures |Tags(s)| <= 10 && Tags(s) <= Kept(Pairs(s, 0))
    ensures |Kept(Pairs(s, 0))| <= 10 ==> Tags(s) == Kept(Pairs(s, 0))
    ensures |Kept(Pairs(s, 0))| > 10 ==> |Tags(s)| == 10
  {
  }

  /** The keys the tags leave out are the keys of the settings. */
  lemma LeftOutHasSetting(key: string)
    ensures Reserved(key) <==> HasSetting(key)
  {
  }

  /**
   In a printed list of pairs with different keys, of which at most ten have no setting and
   the last one has none, no pair is lost and none is reported twice: a pair whose key has a
   setting is the value of that setting and no tag, every other pair is a tag, and there are
   no other tags.
   */
  lemma EveryPairIsReportedOnce(ps: seq<Pair>, p: Pair, name: Option<string>)
    requires (forall k | 0 <= k < |ps| :: Printable(ps[k])) && DistinctKeys(ps)
    requires |Kept(ps)| <= 10 && (ps != [] ==> !HasSetting(ps[|ps| - 1].key))
    ensures p in Tags(Print(ps)) <==> p in ps && !HasSetting(p.key)
    ensures p in ps && p.key == "deployment.environment" ==> Environment(Print(ps)) == Some(p.value)
    ensures p in ps && p.key == "service.version" ==> Version(Print(ps)) == Some(p.value)
    ensures p in ps && p.key == "service.name" ==>
              ServiceName(name, Print(ps)) == if name.Some? then name else Some(p.value)
  {
    ParseUndoesPrint(ps);
    TenTags(Print(ps));
    KeptMembers(ps, p);
    LeftOutHasSetting(p.key);
    if p in ps && HasSetting(p.key) {
      SettingIsFound(ps, p);
    }
    hide Tags, Kept, Reserved, Print, Pairs, Find;
  }

  lemma SettingIsFound(ps: seq<Pair>, p: Pair)
    requires (forall k | 0 <= k < |ps| :: Printable(ps[k])) && DistinctKeys(ps) && p in ps
    requires HasSetting(p.key) && !HasSetting(ps[|ps| - 1].key)
    ensures Attribute(Print(ps), p.key) == Some(p.value)
  {
    hide HasSetting, Printable, Attribute, Print;
    var k := NotTheLast(ps, p, key => HasSetting(key));
    FoundBeforeLast(ps, k);
  }

  lemma NotTheLast(ps: seq<Pair>, p: Pair, has: string -> bool) returns (k: nat)
    requires p in ps && has(p.key) && !has(ps[|ps| - 1].key)
    ensures k < |ps| - 1 && ps[k] == p
  {
    k :| k < |ps| && ps[k] == p;
  }

  lemma FoundBeforeLast(ps: seq<Pair>, k: nat)
    requires (forall i | 0 <= i < |ps| :: Printable(ps[i])) && DistinctKeys(ps) && k < |ps| - 1
    ensures Attribute(Print(ps), ps[k].key) == Some(ps[k].value)
  {
    hide FirstValue, Print, Find, ValueOf, Printable;
    FirstValueAt(ps, k);
    LookupUndoesPrint(ps, ps[k].key);
  }

  /** A setting whose key is in no pair is not set. */
  lemma MissingIsUnset(ps: seq<Pair>, key: string)
    requires forall k | 0 <= k < |ps| :: Printable(ps[k]) && ps[k].key != key
    ensures Attribute(Print(ps), key) == None
  {
    FirstValueNone(ps, key);
    LookupUndoesPrint(ps, key);
  }
}
