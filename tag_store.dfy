/**
 * The tagging layer's view of the store: the read paths as functions of
 * the store, and the effect of each write protocol as a function from the
 * store before to the store after, with what they promise.
 */
module TagStore {
  import opened Wrappers
  import opened Php
  import opened KeyNamer
  import opened Records

  // ---------------------------------------------------------------- reads

  /** `_get` without its default: `None` where `_get` would hand back the default. */
  function Fetch(s: Store, p: string): (r: Option<Entry>)
    ensures r == None <==> p !in s || s[p].entry == Payload(False)
    ensures r != None ==> r.value == s[p].entry
  {
    if p in s && s[p].entry != Payload(False) then Some(s[p].entry) else None
  }

  /** `get` / `getValue`: the stored payload, or `default`. */
  function GetValue(s: Store, ns: string, key: string, default: Value): Value {
    match Fetch(s, ValueKey(ns, key))
    case Some(Payload(v)) => v
    case _ => default  // a non-payload entry here is ruled out by WellFormedStore
  }

  /** `getTags` over `getValueMetaData`: the tag list of the metadata record, else empty. */
  function GetTags(s: Store, ns: string, key: string): seq<string> {
    match Fetch(s, MetaKey(ns, key))
    case Some(Meta(_, _, tags)) => tags
    case _ => []
  }

  /** `getTagMetaData($tag)['keys']`: the tag's key list, empty when the record is missing. */
  function TagMembers(s: Store, ns: string, tag: string): seq<Member> {
    match Fetch(s, TagKey(ns, tag))
    case Some(TagIndex(ms)) => ms
    case _ => []
  }

  /**
   * `getMany`: the payloads a multi-get finds under the value keys of
   * `keys`, each filed under its physical key with every occurrence of
   * the value prefix removed. The reply is walked in request order, so a
   * later key wins when two keys strip to the same name. The value keys
   * are the physical keys `set` writes, as they are for a namespace
   * without `$`, `\` or `"`.
   */
  function Batch(s: Store, ns: string, keys: seq<string>): map<string, Value>
    decreases |keys|
  {
    if keys == [] then map[]
    else
      var earlier := Batch(s, ns, keys[..|keys| - 1]);
      var p := ValueKey(ns, keys[|keys| - 1]);
      if p in s && s[p].entry.Payload? then earlier[RemoveAll(p, ValuePrefix(ns)) := s[p].entry.v]
      else earlier
  }

  /** `getByTag`: the tag's key list resolved through `getMany`; empty when the list is. */
  function ByTag(s: Store, ns: string, tag: string): map<string, Value> {
    var ms := TagMembers(s, ns, tag);
    if ms == [] then map[] else Batch(s, ns, Keys(ms))
  }

  // ------------------------------------------------------------ invariant

  /**
   * Every record under this namespace has the shape the layer writes:
   * payloads under value keys, metadata arrays under meta keys and well
   * formed key lists under tag keys.
   */
  ghost predicate WellFormedStore(s: Store, ns: string) {
    && (forall key :: ValueKey(ns, key) in s ==> s[ValueKey(ns, key)].entry.Payload?)
    && (forall key :: MetaKey(ns, key) in s ==> s[MetaKey(ns, key)].entry.Meta?)
    && (forall tag :: TagKey(ns, tag) in s ==>
          s[TagKey(ns, tag)].entry.TagIndex? && WellFormed(s[TagKey(ns, tag)].entry.members))
  }

  /** `p` holds the same item, or is absent, in both stores. */
  ghost predicate Agree(s: Store, r: Store, p: string) {
    (p in s <==> p in r) && (p in s ==> s[p] == r[p])
  }

  // --------------------------------------------------------------- writes

  /** `addTagMetaData`: append `key` to the tag's list and write it back, unless listed. */
  function AddTag(s: Store, ns: string, key: string, tag: string, expire: Option<int>): Store {
    var ms := TagMembers(s, ns, tag);
    if key in Keys(ms) then s else s[TagKey(ns, tag) := Stored(TagIndex(Appended(ms, key)), expire)]
  }

  /** The `foreach($tags as $tag)` loop of `set`. */
  function AddTags(s: Store, ns: string, key: string, tags: seq<string>, expire: Option<int>): Store
    decreases |tags|
  {
    if tags == [] then s else AddTags(AddTag(s, ns, key, tags[0], expire), ns, key, tags[1..], expire)
  }

  /** `set`: value record, then metadata record, then every tag's list. */
  function SetState(s: Store, ns: string, key: string, value: Value, tags: seq<string>,
                    expire: Option<int>, now: int): Store
  {
    var written := s[ValueKey(ns, key) := Stored(Payload(value), expire)]
                    [MetaKey(ns, key) := Stored(Meta(now, expire, tags), expire)];
    AddTags(written, ns, key, tags, expire)
  }

  /** `removeFromTagMetaData`: when `in_array` finds `key`, unset it and write the list back. */
  function RemoveTag(s: Store, ns: string, key: string, tag: string, expire: Option<int>): Store {
    var ms := TagMembers(s, ns, tag);
    if key in Keys(ms) then s[TagKey(ns, tag) := Stored(TagIndex(Scrubbed(ms, key)), expire)] else s
  }

  /** The `foreach($tags as $tag)` loop of `delete`. */
  function RemoveTags(s: Store, ns: string, key: string, tags: seq<string>, expire: Option<int>): Store
    decreases |tags|
  {
    if tags == [] then s else RemoveTags(RemoveTag(s, ns, key, tags[0], expire), ns, key, tags[1..], expire)
  }

  /**
   * `delete`: read the tags first, drop the value and metadata records,
   * then remove `key` from each tag read (the list is rewritten with no
   * expiry, since `removeFromTagMetaData` is called without one).
   */
  function DeleteState(s: Store, ns: string, key: string): Store {
    var tags := GetTags(s, ns, key);
    RemoveTags(s - {ValueKey(ns, key)} - {MetaKey(ns, key)}, ns, key, tags, None)
  }

  // ------------------------------------------------------- read properties

  /**
   * `getMany` returns exactly the requested keys whose value record is
   * present, each with its stored payload, provided no key contains the
   * value prefix (which `str_replace` would strip from it too).
   */
  lemma {:induction false} BatchExact(s: Store, ns: string, keys: seq<string>)
    requires WellFormedStore(s, ns)
    requires forall k :: k in keys ==> !Occurs(ValuePrefix(ns), k)
    ensures forall k :: k in Batch(s, ns, keys) <==> k in keys && ValueKey(ns, k) in s
    ensures forall k :: k in Batch(s, ns, keys) ==> s[ValueKey(ns, k)].entry == Payload(Batch(s, ns, keys)[k])
    decreases |keys|
  {
    if keys != [] {
      var init := keys[..|keys| - 1];
      var last := keys[|keys| - 1];
      assert keys == init + [last];
      BatchExact(s, ns, init);
      RemoveAllLeading(ValuePrefix(ns), last);
      RemoveAllAbsent(last, ValuePrefix(ns));
    }
  }

  /**
   * `getByTag` yields the live members of the tag's list and nothing else:
   * empty when the list is missing or empty, and stale members (whose
   * value record is gone) are silently skipped.
   */
  lemma ByTagLive(s: Store, ns: string, tag: string)
    requires WellFormedStore(s, ns)
    requires forall k :: k in Keys(TagMembers(s, ns, tag)) ==> !Occurs(ValuePrefix(ns), k)
    ensures forall k :: k in ByTag(s, ns, tag) <==> k in Keys(TagMembers(s, ns, tag)) && ValueKey(ns, k) in s
    ensures forall k :: k in ByTag(s, ns, tag) ==> s[ValueKey(ns, k)].entry == Payload(ByTag(s, ns, tag)[k])
  {
    var ms := TagMembers(s, ns, tag);
    if ms != [] {
      BatchExact(s, ns, Keys(ms));
    }
  }

  // ------------------------------------------------------ write properties

  lemma AddTagMembers(s: Store, ns: string, key: string, tag: string, expire: Option<int>, t: string)
    ensures TagMembers(AddTag(s, ns, key, tag, expire), ns, t)
         == if t == tag then Appended(TagMembers(s, ns, tag), key) else TagMembers(s, ns, t)
  {
  }

  /**
   * `addTagMetaData` lists `key` under `tag` exactly once: a listed key
   * leaves the store as it is, an unlisted one is appended at the end.
   */
  lemma AddTagOnce(s: Store, ns: string, key: string, tag: string, expire: Option<int>)
    ensures key in Keys(TagMembers(s, ns, tag)) ==> AddTag(s, ns, key, tag, expire) == s
    ensures var before := Keys(TagMembers(s, ns, tag));
      Keys(TagMembers(AddTag(s, ns, key, tag, expire), ns, tag))
        == if key in before then before else before + [key]
    ensures AddTag(AddTag(s, ns, key, tag, expire), ns, key, tag, expire) == AddTag(s, ns, key, tag, expire)
  {
    AddTagMembers(s, ns, key, tag, expire, tag);
    AppendedKeys(TagMembers(s, ns, tag), key);
  }

  lemma {:induction false} AddTagsFrame(s: Store, ns: string, key: string, tags: seq<string>,
                                        expire: Option<int>, p: string)
    requires forall t :: t in tags ==> p != TagKey(ns, t)
    ensures Agree(s, AddTags(s, ns, key, tags, expire), p)
    decreases |tags|
  {
    if tags != [] {
      AddTagsFrame(AddTag(s, ns, key, tags[0], expire), ns, key, tags[1..], expire, p);
    }
  }

  /** After the tag loop of `set`, every listed tag holds `key` once; other tags are untouched. */
  lemma {:induction false} AddTagsMembers(s: Store, ns: string, key: string, tags: seq<string>,
                                          expire: Option<int>, t: string)
    ensures TagMembers(AddTags(s, ns, key, tags, expire), ns, t)
         == if t in tags then Appended(TagMembers(s, ns, t), key) else TagMembers(s, ns, t)
    decreases |tags|
  {
    if tags != [] {
      var s1 := AddTag(s, ns, key, tags[0], expire);
      AddTagsMembers(s1, ns, key, tags[1..], expire, t);
      AddTagMembers(s, ns, key, tags[0], expire, t);
      AppendedKeys(TagMembers(s, ns, t), key);
      assert t in tags <==> t == tags[0] || t in tags[1..];
    }
  }

  lemma AddTagKeepsStore(s: Store, ns: string, key: string, tag: string, expire: Option<int>)
    requires WellFormedStore(s, ns)
    ensures WellFormedStore(AddTag(s, ns, key, tag, expire), ns)
  {
    AppendedWellFormed(TagMembers(s, ns, tag), key);
  }

  lemma {:induction false} AddTagsKeepsStore(s: Store, ns: string, key: string, tags: seq<string>,
                                             expire: Option<int>)
    requires WellFormedStore(s, ns)
    ensures WellFormedStore(AddTags(s, ns, key, tags, expire), ns)
    decreases |tags|
  {
    if tags != [] {
      AddTagKeepsStore(s, ns, key, tags[0], expire);
      AddTagsKeepsStore(AddTag(s, ns, key, tags[0], expire), ns, key, tags[1..], expire);
    }
  }

  /** Round trip of `set`: `get` gives the value back (unless it is `false`), `getTags` the tags, order included. */
  lemma SetReadsBack(s: Store, ns: string, key: string, value: Value, tags: seq<string>,
                     expire: Option<int>, now: int, default: Value)
    ensures GetValue(SetState(s, ns, key, value, tags, expire, now), ns, key, default)
         == if value == False then default else value
    ensures GetTags(SetState(s, ns, key, value, tags, expire, now), ns, key) == tags
  {
    var written := s[ValueKey(ns, key) := Stored(Payload(value), expire)]
                    [MetaKey(ns, key) := Stored(Meta(now, expire, tags), expire)];
    AddTagsFrame(written, ns, key, tags, expire, ValueKey(ns, key));
    AddTagsFrame(written, ns, key, tags, expire, MetaKey(ns, key));
  }

  /** The key list `set` leaves under tag `t`, array keys included. */
  lemma SetMembers(s: Store, ns: string, key: string, value: Value, tags: seq<string>,
                   expire: Option<int>, now: int, t: string)
    ensures TagMembers(SetState(s, ns, key, value, tags, expire, now), ns, t)
         == if t in tags then Appended(TagMembers(s, ns, t), key) else TagMembers(s, ns, t)
  {
    var written := s[ValueKey(ns, key) := Stored(Payload(value), expire)]
                    [MetaKey(ns, key) := Stored(Meta(now, expire, tags), expire)];
    assert TagMembers(written, ns, t) == TagMembers(s, ns, t);
    AddTagsMembers(written, ns, key, tags, expire, t);
  }

  /** `set` appends `key` once to each of its tags' lists and leaves every other list alone. */
  lemma SetIndexesKey(s: Store, ns: string, key: string, value: Value, tags: seq<string>,
                      expire: Option<int>, now: int, t: string)
    ensures var before := Keys(TagMembers(s, ns, t));
      Keys(TagMembers(SetState(s, ns, key, value, tags, expire, now), ns, t))
        == if t in tags && key !in before then before + [key] else before
  {
    SetMembers(s, ns, key, value, tags, expire, now, t);
    AppendedKeys(TagMembers(s, ns, t), key);
  }

  /** `set` does not disturb the value or the tags of any other key. */
  lemma SetLeavesOtherKeys(s: Store, ns: string, key: string, value: Value, tags: seq<string>,
                           expire: Option<int>, now: int, other: string, default: Value)
    requires other != key
    ensures GetValue(SetState(s, ns, key, value, tags, expire, now), ns, other, default)
         == GetValue(s, ns, other, default)
    ensures GetTags(SetState(s, ns, key, value, tags, expire, now), ns, other) == GetTags(s, ns, other)
  {
    var written := s[ValueKey(ns, key) := Stored(Payload(value), expire)]
                    [MetaKey(ns, key) := Stored(Meta(now, expire, tags), expire)];
    AddTagsFrame(written, ns, key, tags, expire, ValueKey(ns, other));
    AddTagsFrame(written, ns, key, tags, expire, MetaKey(ns, other));
  }

  lemma SetKeepsStore(s: Store, ns: string, key: string, value: Value, tags: seq<string>,
                      expire: Option<int>, now: int)
    requires WellFormedStore(s, ns)
    ensures WellFormedStore(SetState(s, ns, key, value, tags, expire, now), ns)
  {
    var written := s[ValueKey(ns, key) := Stored(Payload(value), expire)]
                    [MetaKey(ns, key) := Stored(Meta(now, expire, tags), expire)];
    AddTagsKeepsStore(written, ns, key, tags, expire);
  }

  lemma RemoveTagMembers(s: Store, ns: string, key: string, tag: string, expire: Option<int>, t: string)
    ensures TagMembers(RemoveTag(s, ns, key, tag, expire), ns, t)
         == if t == tag then Scrubbed(TagMembers(s, ns, tag), key) else TagMembers(s, ns, t)
  {
  }

  lemma {:induction false} RemoveTagsFrame(s: Store, ns: string, key: string, tags: seq<string>,
                                           expire: Option<int>, p: string)
    requires forall t :: t in tags ==> p != TagKey(ns, t)
    ensures Agree(s, RemoveTags(s, ns, key, tags, expire), p)
    decreases |tags|
  {
    if tags != [] {
      RemoveTagsFrame(RemoveTag(s, ns, key, tags[0], expire), ns, key, tags[1..], expire, p);
    }
  }

  lemma {:induction false} RemoveTagsMembers(s: Store, ns: string, key: string, tags: seq<string>,
                                             expire: Option<int>, t: string)
    ensures TagMembers(RemoveTags(s, ns, key, tags, expire), ns, t)
         == if t in tags then Scrubbed(TagMembers(s, ns, t), key) else TagMembers(s, ns, t)
    decreases |tags|
  {
    if tags != [] {
      var s1 := RemoveTag(s, ns, key, tags[0], expire);
      RemoveTagsMembers(s1, ns, key, tags[1..], expire, t);
      RemoveTagMembers(s, ns, key, tags[0], expire, t);
      ScrubbedIdempotent(TagMembers(s, ns, t), key);
      assert t in tags <==> t == tags[0] || t in tags[1..];
    }
  }

  /** A tag whose list does not hold `key` is never rewritten, not even its expiry. */
  lemma {:induction false} RemoveTagsSpares(s: Store, ns: string, key: string, tags: seq<string>,
                                            expire: Option<int>, t: string)
    requires key !in Keys(TagMembers(s, ns, t))
    ensures Agree(s, RemoveTags(s, ns, key, tags, expire), TagKey(ns, t))
    decreases |tags|
  {
    if tags != [] {
      var s1 := RemoveTag(s, ns, key, tags[0], expire);
      assert Agree(s, s1, TagKey(ns, t));
      assert TagMembers(s1, ns, t) == TagMembers(s, ns, t);
      RemoveTagsSpares(s1, ns, key, tags[1..], expire, t);
    }
  }

  lemma RemoveTagKeepsStore(s: Store, ns: string, key: string, tag: string, expire: Option<int>)
    requires WellFormedStore(s, ns)
    ensures WellFormedStore(RemoveTag(s, ns, key, tag, expire), ns)
  {
    ScrubbedWellFormed(TagMembers(s, ns, tag), key);
  }

  lemma {:induction false} RemoveTagsKeepsStore(s: Store, ns: string, key: string, tags: seq<string>,
                                                expire: Option<int>)
    requires WellFormedStore(s, ns)
    ensures WellFormedStore(RemoveTags(s, ns, key, tags, expire), ns)
    decreases |tags|
  {
    if tags != [] {
      RemoveTagKeepsStore(s, ns, key, tags[0], expire);
      RemoveTagsKeepsStore(RemoveTag(s, ns, key, tags[0], expire), ns, key, tags[1..], expire);
    }
  }

  /** After `delete`, `get` gives the default and `getTags` is empty. */
  lemma DeleteClears(s: Store, ns: string, key: string, default: Value)
    ensures ValueKey(ns, key) !in DeleteState(s, ns, key) && MetaKey(ns, key) !in DeleteState(s, ns, key)
    ensures GetValue(DeleteState(s, ns, key), ns, key, default) == default
    ensures GetTags(DeleteState(s, ns, key), ns, key) == []
  {
    var base := s - {ValueKey(ns, key)} - {MetaKey(ns, key)};
    RemoveTagsFrame(base, ns, key, GetTags(s, ns, key), None, ValueKey(ns, key));
    RemoveTagsFrame(base, ns, key, GetTags(s, ns, key), None, MetaKey(ns, key));
  }

  /** `delete` does not disturb the value or the tags of any other key. */
  lemma DeleteLeavesOtherKeys(s: Store, ns: string, key: string, other: string, default: Value)
    requires other != key
    ensures GetValue(DeleteState(s, ns, key), ns, other, default) == GetValue(s, ns, other, default)
    ensures GetTags(DeleteState(s, ns, key), ns, other) == GetTags(s, ns, other)
  {
    var base := s - {ValueKey(ns, key)} - {MetaKey(ns, key)};
    RemoveTagsFrame(base, ns, key, GetTags(s, ns, key), None, ValueKey(ns, other));
    RemoveTagsFrame(base, ns, key, GetTags(s, ns, key), None, MetaKey(ns, other));
  }

  /** `delete` applies the list removal to exactly the tags its metadata named. */
  lemma DeleteScrubs(s: Store, ns: string, key: string, t: string)
    ensures TagMembers(DeleteState(s, ns, key), ns, t)
         == if t in GetTags(s, ns, key) then Scrubbed(TagMembers(s, ns, t), key) else TagMembers(s, ns, t)
  {
    var base := s - {ValueKey(ns, key)} - {MetaKey(ns, key)};
    assert TagMembers(base, ns, t) == TagMembers(s, ns, t);
    RemoveTagsMembers(base, ns, key, GetTags(s, ns, key), None, t);
  }

  /** A tag record is rewritten by `delete` only when its list holds the key. */
  lemma DeleteSparesNonMembers(s: Store, ns: string, key: string, t: string)
    requires key !in Keys(TagMembers(s, ns, t))
    ensures Agree(s, DeleteState(s, ns, key), TagKey(ns, t))
  {
    var base := s - {ValueKey(ns, key)} - {MetaKey(ns, key)};
    assert Agree(s, base, TagKey(ns, t));
    RemoveTagsSpares(base, ns, key, GetTags(s, ns, key), None, t);
  }

  /**
   * As written, deleting a key PHP does not read as an integer leaves
   * every tag list as it was: the key stays listed under its tags.
   */
  lemma DeleteByNameKeepsLists(s: Store, ns: string, key: string, t: string)
    requires ArrayOffset(key) == None
    ensures TagMembers(DeleteState(s, ns, key), ns, t) == TagMembers(s, ns, t)
  {
    DeleteScrubs(s, ns, key, t);
    ScrubbedIdempotent(TagMembers(s, ns, t), key);
  }

  /** Deleting a second time changes nothing. */
  lemma DeleteTwice(s: Store, ns: string, key: string)
    ensures DeleteState(DeleteState(s, ns, key), ns, key) == DeleteState(s, ns, key)
  {
    var s1 := DeleteState(s, ns, key);
    var base := s - {ValueKey(ns, key)} - {MetaKey(ns, key)};
    RemoveTagsFrame(base, ns, key, GetTags(s, ns, key), None, ValueKey(ns, key));
    RemoveTagsFrame(base, ns, key, GetTags(s, ns, key), None, MetaKey(ns, key));
    assert GetTags(s1, ns, key) == [];
    assert s1 - {ValueKey(ns, key)} - {MetaKey(ns, key)} == s1;
  }

  lemma DeleteKeepsStore(s: Store, ns: string, key: string)
    requires WellFormedStore(s, ns)
    ensures WellFormedStore(DeleteState(s, ns, key), ns)
  {
    RemoveTagsKeepsStore(s - {ValueKey(ns, key)} - {MetaKey(ns, key)}, ns, key, GetTags(s, ns, key), None);
  }
}
