/**
 * The sequences of calls in test/unit.php, replayed on the model from a
 * flushed (empty) server, plus a sequence that shows what the
 * offset-based removal does to a neighbouring key. Each step is its own
 * small lemma over the store it starts from.
 */
module UnitScenarios {
  import opened Wrappers
  import opened Php
  import opened KeyNamer
  import opened Records
  import opened TagStore

  // ------------------------------------------------------- generic steps

  /** No ':' in a key means the value prefix cannot occur in it. */
  lemma PlainKey(ns: string, key: string)
    requires Separator !in key
    ensures !Occurs(ValuePrefix(ns), key)
  {
    NotOccursWithoutChar(ValuePrefix(ns), key, |ns|);
  }

  /** A tag's first member gets array key 0. */
  lemma FirstMember(s: Store, ns: string, key: string, value: Value, tags: seq<string>,
                    expire: Option<int>, now: int, t: string)
    requires TagMembers(s, ns, t) == [] && t in tags
    ensures TagMembers(SetState(s, ns, key, value, tags, expire, now), ns, t) == [Member(0, key)]
  {
    SetMembers(s, ns, key, value, tags, expire, now, t);
  }

  /** A second, different member gets array key 1. */
  lemma SecondMember(s: Store, ns: string, key: string, value: Value, tags: seq<string>,
                     expire: Option<int>, now: int, t: string, first: string)
    requires TagMembers(s, ns, t) == [Member(0, first)] && t in tags && key != first
    ensures TagMembers(SetState(s, ns, key, value, tags, expire, now), ns, t)
         == [Member(0, first), Member(1, key)]
  {
    SetMembers(s, ns, key, value, tags, expire, now, t);
    assert Keys([Member(0, first)]) == [first];
  }

  /** One more requested key: `getMany` adds it exactly when its value record holds a payload. */
  lemma BatchOneMore(s: Store, ns: string, ks: seq<string>, k: string)
    requires !Occurs(ValuePrefix(ns), k)
    ensures Batch(s, ns, ks + [k])
         == if ValueKey(ns, k) in s && s[ValueKey(ns, k)].entry.Payload?
            then Batch(s, ns, ks)[k := s[ValueKey(ns, k)].entry.v]
            else Batch(s, ns, ks)
  {
    assert (ks + [k])[..|ks|] == ks;
    RemoveAllLeading(ValuePrefix(ns), k);
    RemoveAllAbsent(k, ValuePrefix(ns));
  }

  /** A tag listing one key resolves to that key's value, or to nothing once it is deleted. */
  lemma ByTagOne(s: Store, ns: string, tag: string, m: Member, text: string)
    requires Separator !in m.key && TagMembers(s, ns, tag) == [m]
    ensures GetValue(s, ns, m.key, Null) == Str(text) ==> ByTag(s, ns, tag) == map[m.key := Str(text)]
    ensures ValueKey(ns, m.key) !in s ==> ByTag(s, ns, tag) == map[]
  {
    PlainKey(ns, m.key);
    assert Keys([m]) == [] + [m.key];
    BatchOneMore(s, ns, [], m.key);
  }

  /** A tag listing two keys resolves to the values of those still present. */
  lemma ByTagTwo(s: Store, ns: string, tag: string, m1: Member, m2: Member, t1: string, t2: string)
    requires Separator !in m1.key && Separator !in m2.key
    requires TagMembers(s, ns, tag) == [m1, m2] && GetValue(s, ns, m2.key, Null) == Str(t2)
    ensures GetValue(s, ns, m1.key, Null) == Str(t1)
        ==> ByTag(s, ns, tag) == map[m1.key := Str(t1), m2.key := Str(t2)]
    ensures ValueKey(ns, m1.key) !in s ==> ByTag(s, ns, tag) == map[m2.key := Str(t2)]
  {
    PlainKey(ns, m1.key);
    PlainKey(ns, m2.key);
    assert Keys([m1, m2]) == [m1.key] + [m2.key];
    assert [m1.key] == [] + [m1.key];
    BatchOneMore(s, ns, [], m1.key);
    BatchOneMore(s, ns, [m1.key], m2.key);
  }

  // ------------------------------------------- unit.php: set, get, delete

  /** After flush: `get('hoge')` is null, `get('hoge', 1)` is 1, and nothing is tagged. */
  lemma MissingDefaults(ns: string)
    ensures GetValue(map[], ns, "hoge", Null) == Null
    ensures GetValue(map[], ns, "hoge", Int(1)) == Int(1)
    ensures GetTags(map[], ns, "hoge") == []
    ensures ByTag(map[], ns, "hoge") == map[]
  {
  }

  /** unit.php:114-120: "key1" tagged 1, 2, 3, then "key2" tagged 2, 3, 4. */
  function FirstSet(ns: string, expire: Option<int>, now: int): Store {
    SetState(map[], ns, "key1", Str("value_1"), ["1", "2", "3"], expire, now)
  }

  function SecondSet(ns: string, expire: Option<int>, now: int): Store {
    SetState(FirstSet(ns, expire, now), ns, "key2", Str("value_2"), ["2", "3", "4"], expire, now)
  }

  lemma SecondSetShape(ns: string, expire: Option<int>, now: int)
    ensures WellFormedStore(SecondSet(ns, expire, now), ns)
  {
    SetKeepsStore(map[], ns, "key1", Str("value_1"), ["1", "2", "3"], expire, now);
    SetKeepsStore(FirstSet(ns, expire, now), ns, "key2", Str("value_2"), ["2", "3", "4"], expire, now);
  }

  lemma SecondSetValues(ns: string, expire: Option<int>, now: int)
    ensures GetValue(SecondSet(ns, expire, now), ns, "key1", Null) == Str("value_1")
    ensures GetValue(SecondSet(ns, expire, now), ns, "key2", Null) == Str("value_2")
  {
    var s1 := FirstSet(ns, expire, now);
    SetReadsBack(map[], ns, "key1", Str("value_1"), ["1", "2", "3"], expire, now, Null);
    SetLeavesOtherKeys(s1, ns, "key2", Str("value_2"), ["2", "3", "4"], expire, now, "key1", Null);
    SetReadsBack(s1, ns, "key2", Str("value_2"), ["2", "3", "4"], expire, now, Null);
  }

  lemma SecondSetTag1(ns: string, expire: Option<int>, now: int)
    ensures TagMembers(SecondSet(ns, expire, now), ns, "1") == [Member(0, "key1")]
  {
    FirstMember(map[], ns, "key1", Str("value_1"), ["1", "2", "3"], expire, now, "1");
    SetMembers(FirstSet(ns, expire, now), ns, "key2", Str("value_2"), ["2", "3", "4"], expire, now, "1");
  }

  lemma SecondSetTag2(ns: string, expire: Option<int>, now: int)
    ensures TagMembers(SecondSet(ns, expire, now), ns, "2") == [Member(0, "key1"), Member(1, "key2")]
  {
    FirstMember(map[], ns, "key1", Str("value_1"), ["1", "2", "3"], expire, now, "2");
    SecondMember(FirstSet(ns, expire, now), ns, "key2", Str("value_2"), ["2", "3", "4"], expire, now, "2", "key1");
  }

  lemma SecondSetTag3(ns: string, expire: Option<int>, now: int)
    ensures TagMembers(SecondSet(ns, expire, now), ns, "3") == [Member(0, "key1"), Member(1, "key2")]
  {
    FirstMember(map[], ns, "key1", Str("value_1"), ["1", "2", "3"], expire, now, "3");
    SecondMember(FirstSet(ns, expire, now), ns, "key2", Str("value_2"), ["2", "3", "4"], expire, now, "3", "key1");
  }

  lemma SecondSetTag4(ns: string, expire: Option<int>, now: int)
    ensures TagMembers(SecondSet(ns, expire, now), ns, "4") == [Member(0, "key2")]
  {
    SetMembers(map[], ns, "key1", Str("value_1"), ["1", "2", "3"], expire, now, "4");
    FirstMember(FirstSet(ns, expire, now), ns, "key2", Str("value_2"), ["2", "3", "4"], expire, now, "4");
  }

  /** unit.php:122-130: tag 1 resolves to value_1 only. */
  lemma SetThenByTag1(ns: string, expire: Option<int>, now: int)
    ensures ByTag(SecondSet(ns, expire, now), ns, "1") == map["key1" := Str("value_1")]
  {
    SecondSetValues(ns, expire, now);
    SecondSetTag1(ns, expire, now);
    ByTagOne(SecondSet(ns, expire, now), ns, "1", Member(0, "key1"), "value_1");
  }

  /** unit.php:122-130: tag 2 resolves to value_1 and value_2. */
  lemma SetThenByTag2(ns: string, expire: Option<int>, now: int)
    ensures ByTag(SecondSet(ns, expire, now), ns, "2")
         == map["key1" := Str("value_1"), "key2" := Str("value_2")]
  {
    SecondSetValues(ns, expire, now);
    SecondSetTag2(ns, expire, now);
    ByTagTwo(SecondSet(ns, expire, now), ns, "2", Member(0, "key1"), Member(1, "key2"), "value_1", "value_2");
  }

  /** unit.php:164: `delete('key1')` after the two sets. */
  function AfterDelete(ns: string, expire: Option<int>, now: int): Store {
    DeleteState(SecondSet(ns, expire, now), ns, "key1")
  }

  lemma AfterDeleteShape(ns: string, expire: Option<int>, now: int)
    ensures WellFormedStore(AfterDelete(ns, expire, now), ns)
  {
    SecondSetShape(ns, expire, now);
    DeleteKeepsStore(SecondSet(ns, expire, now), ns, "key1");
  }

  lemma AfterDeleteValues(ns: string, expire: Option<int>, now: int)
    ensures ValueKey(ns, "key1") !in AfterDelete(ns, expire, now)
    ensures GetValue(AfterDelete(ns, expire, now), ns, "key2", Null) == Str("value_2")
  {
    SecondSetValues(ns, expire, now);
    DeleteLeavesOtherKeys(SecondSet(ns, expire, now), ns, "key1", "key2", Null);
    DeleteClears(SecondSet(ns, expire, now), ns, "key1", Null);
  }

  /** "key1" is not an integer offset, so its delete leaves each list as it was. */
  lemma AfterDeleteTag1(ns: string, expire: Option<int>, now: int)
    ensures TagMembers(AfterDelete(ns, expire, now), ns, "1") == [Member(0, "key1")]
  {
    SecondSetTag1(ns, expire, now);
    UnsetByOffsetExamples();
    DeleteByNameKeepsLists(SecondSet(ns, expire, now), ns, "key1", "1");
  }

  lemma AfterDeleteTag2(ns: string, expire: Option<int>, now: int)
    ensures TagMembers(AfterDelete(ns, expire, now), ns, "2") == [Member(0, "key1"), Member(1, "key2")]
  {
    SecondSetTag2(ns, expire, now);
    UnsetByOffsetExamples();
    DeleteByNameKeepsLists(SecondSet(ns, expire, now), ns, "key1", "2");
  }

  lemma AfterDeleteTag3(ns: string, expire: Option<int>, now: int)
    ensures TagMembers(AfterDelete(ns, expire, now), ns, "3") == [Member(0, "key1"), Member(1, "key2")]
  {
    SecondSetTag3(ns, expire, now);
    UnsetByOffsetExamples();
    DeleteByNameKeepsLists(SecondSet(ns, expire, now), ns, "key1", "3");
  }

  lemma AfterDeleteTag4(ns: string, expire: Option<int>, now: int)
    ensures TagMembers(AfterDelete(ns, expire, now), ns, "4") == [Member(0, "key2")]
  {
    SecondSetTag4(ns, expire, now);
    UnsetByOffsetExamples();
    DeleteByNameKeepsLists(SecondSet(ns, expire, now), ns, "key1", "4");
  }

  /**
   * unit.php:166-182: after `delete('key1')`, tag 1 resolves to nothing,
   * although "key1" is still listed under it.
   */
  lemma DeleteThenByTag1(ns: string, expire: Option<int>, now: int)
    ensures ByTag(AfterDelete(ns, expire, now), ns, "1") == map[]
  {
    AfterDeleteValues(ns, expire, now);
    AfterDeleteTag1(ns, expire, now);
    ByTagOne(AfterDelete(ns, expire, now), ns, "1", Member(0, "key1"), "value_1");
  }

  /** unit.php:166-182: after `delete('key1')`, tag 2 resolves to value_2 only. */
  lemma DeleteThenByTag2(ns: string, expire: Option<int>, now: int)
    ensures ByTag(AfterDelete(ns, expire, now), ns, "2") == map["key2" := Str("value_2")]
  {
    AfterDeleteValues(ns, expire, now);
    AfterDeleteTag2(ns, expire, now);
    ByTagTwo(AfterDelete(ns, expire, now), ns, "2", Member(0, "key1"), Member(1, "key2"), "value_1", "value_2");
  }

  /** unit.php:166-182: after `delete('key1')`, tag 3 resolves to value_2 only. */
  lemma DeleteThenByTag3(ns: string, expire: Option<int>, now: int)
    ensures ByTag(AfterDelete(ns, expire, now), ns, "3") == map["key2" := Str("value_2")]
  {
    AfterDeleteValues(ns, expire, now);
    AfterDeleteTag3(ns, expire, now);
    ByTagTwo(AfterDelete(ns, expire, now), ns, "3", Member(0, "key1"), Member(1, "key2"), "value_1", "value_2");
  }

  /** unit.php:166-182: after `delete('key1')`, tag 4 still resolves to value_2. */
  lemma DeleteThenByTag4(ns: string, expire: Option<int>, now: int)
    ensures ByTag(AfterDelete(ns, expire, now), ns, "4") == map["key2" := Str("value_2")]
  {
    AfterDeleteValues(ns, expire, now);
    AfterDeleteTag4(ns, expire, now);
    ByTagOne(AfterDelete(ns, expire, now), ns, "4", Member(0, "key2"), "value_2");
  }

  // ------------------------------------ deleting a key named like an offset

  /** "a" then "0", both tagged "T". */
  function NeighbourSets(ns: string, expire: Option<int>, now: int): Store {
    SetState(SetState(map[], ns, "a", Str("A"), ["T"], expire, now), ns, "0", Str("Z"), ["T"], expire, now)
  }

  lemma NeighbourSetsFacts(ns: string, expire: Option<int>, now: int)
    ensures WellFormedStore(NeighbourSets(ns, expire, now), ns)
    ensures GetValue(NeighbourSets(ns, expire, now), ns, "a", Null) == Str("A")
    ensures GetTags(NeighbourSets(ns, expire, now), ns, "a") == ["T"]
    ensures GetTags(NeighbourSets(ns, expire, now), ns, "0") == ["T"]
    ensures TagMembers(NeighbourSets(ns, expire, now), ns, "T") == [Member(0, "a"), Member(1, "0")]
  {
    var s1 := SetState(map[], ns, "a", Str("A"), ["T"], expire, now);
    SetKeepsStore(map[], ns, "a", Str("A"), ["T"], expire, now);
    SetKeepsStore(s1, ns, "0", Str("Z"), ["T"], expire, now);
    SetReadsBack(map[], ns, "a", Str("A"), ["T"], expire, now, Null);
    SetLeavesOtherKeys(s1, ns, "0", Str("Z"), ["T"], expire, now, "a", Null);
    SetReadsBack(s1, ns, "0", Str("Z"), ["T"], expire, now, Null);
    FirstMember(map[], ns, "a", Str("A"), ["T"], expire, now, "T");
    SecondMember(s1, ns, "0", Str("Z"), ["T"], expire, now, "T", "a");
  }

  lemma NeighbourDeleteFacts(ns: string, expire: Option<int>, now: int)
    ensures var s3 := DeleteState(NeighbourSets(ns, expire, now), ns, "0");
      && WellFormedStore(s3, ns)
      && ValueKey(ns, "0") !in s3
      && GetValue(s3, ns, "a", Null) == Str("A")
      && GetTags(s3, ns, "a") == ["T"]
      && TagMembers(s3, ns, "T") == [Member(1, "0")]
  {
    var s2 := NeighbourSets(ns, expire, now);
    NeighbourSetsFacts(ns, expire, now);
    DeleteKeepsStore(s2, ns, "0");
    DeleteClears(s2, ns, "0", Null);
    DeleteLeavesOtherKeys(s2, ns, "0", "a", Null);
    DeleteScrubs(s2, ns, "0", "T");
    assert Keys([Member(0, "a"), Member(1, "0")]) == ["a", "0"];
    UnsetByOffsetExamples();
  }

  /**
   * Deleting the key "0" unsets array key 0 of its tag's list, which
   * holds the live key "a": "a" keeps its value and its tag, but the tag
   * no longer finds it, while the deleted "0" stays listed.
   */
  lemma DeleteNumericKeyDropsNeighbour(ns: string, expire: Option<int>, now: int)
    ensures var s3 := DeleteState(NeighbourSets(ns, expire, now), ns, "0");
      && GetValue(s3, ns, "a", Null) == Str("A")
      && "T" in GetTags(s3, ns, "a")
      && Keys(TagMembers(s3, ns, "T")) == ["0"]
      && ByTag(s3, ns, "T") == map[]
  {
    var s3 := DeleteState(NeighbourSets(ns, expire, now), ns, "0");
    NeighbourDeleteFacts(ns, expire, now);
    assert Keys([Member(1, "0")]) == ["0"];
    ByTagOne(s3, ns, "T", Member(1, "0"), "Z");
  }
}
