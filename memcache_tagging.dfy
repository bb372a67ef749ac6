/**
 * The tagging facade: an object bound to one namespace of a shared
 * Memcache store, whose methods read and rewrite that store step by step
 * as MemcacheTagging.class.php does.
 */
module Tagging {
  import opened Wrappers
  import opened Php
  import opened KeyNamer
  import opened Records
  import opened TagStore

  /** The lifetime used when the options name none. */
  const DefaultLifetime: int := 3600

  class MemcacheTagging {
    const namespace: string
    const lifetime: int
    const valueKeyPrefix: string
    const metaKeyPrefix: string
    const tagKeyPrefix: string

    /** The Memcache server's contents, shared with every other client. */
    var store: Store

    ghost predicate Valid()
      reads this
    {
      && valueKeyPrefix == ValuePrefix(namespace)
      && metaKeyPrefix == MetaPrefix(namespace)
      && tagKeyPrefix == TagPrefix(namespace)
      && WellFormedStore(store, namespace)
    }

    /**
     * Binds to a server that already holds `server` (connection set-up is
     * not modelled); `lifetime` is the 'lifetime' option, if given.
     */
    constructor (namespace: string, lifetime: Option<int>, server: Store)
      requires WellFormedStore(server, namespace)
      ensures Valid()
      ensures this.namespace == namespace && store == server
      ensures this.lifetime == lifetime.GetOr(DefaultLifetime)
    {
      this.namespace := namespace;
      this.lifetime := lifetime.GetOr(DefaultLifetime);
      valueKeyPrefix := namespace + [Separator, ValueIndicator, Separator];
      metaKeyPrefix := namespace + [Separator, MetaIndicator, Separator];
      tagKeyPrefix := namespace + [Separator, TagIndicator, Separator];
      store := server;
    }

    // ------------------------------------------- the server's own operations

    /** Memcache::replace: stores only over an existing item. */
    method ServerReplace(p: string, e: Entry, expire: Option<int>) returns (ok: bool)
      modifies this
      ensures ok == (p in old(store))
      ensures store == if ok then old(store)[p := Stored(e, expire)] else old(store)
    {
      ok := p in store;
      if ok {
        store := store[p := Stored(e, expire)];
      }
    }

    /** Memcache::set: stores unconditionally. */
    method ServerSet(p: string, e: Entry, expire: Option<int>) returns (ok: bool)
      modifies this
      ensures ok && store == old(store)[p := Stored(e, expire)]
    {
      store := store[p := Stored(e, expire)];
      ok := true;
    }

    /** Memcache::delete: false when there was nothing to delete. */
    method ServerDelete(p: string) returns (ok: bool)
      modifies this
      ensures ok == (p in old(store))
      ensures store == old(store) - {p}
    {
      ok := p in store;
      store := store - {p};
    }

    /** Memcache::get on a list of keys: the items found, by key. */
    function MultiGet(ps: seq<string>): (found: map<string, Entry>)
      reads this
      ensures forall p :: p in found <==> p in ps && p in store
      ensures forall p :: p in found ==> found[p] == store[p].entry
    {
      map p | p in ps && p in store :: store[p].entry
    }

    // ----------------------------------------------------- store wrappers

    /** `_set`: replace, and set when replace finds nothing; either way the item is written. */
    method Put(p: string, e: Entry, expire: Option<int>) returns (ok: bool)
      modifies this
      ensures ok && store == old(store)[p := Stored(e, expire)]
    {
      var replaced := ServerReplace(p, e, expire);
      if replaced {
        return true;
      }
      ok := ServerSet(p, e, expire);
    }

    /** `_delete`. */
    method Erase(p: string) returns (ok: bool)
      modifies this
      ensures ok == (p in old(store))
      ensures store == old(store) - {p}
    {
      ok := ServerDelete(p);
    }

    // ------------------------------------------------------ record writers

    method SetValue(key: string, value: Value, expire: Option<int>)
      requires Valid()
      modifies this
      ensures Valid()
      ensures store == old(store)[ValueKey(namespace, key) := Stored(Payload(value), expire)]
    {
      var ok := Put(valueKeyPrefix + key, Payload(value), expire);
    }

    method SetValueMetaData(key: string, tags: seq<string>, expire: Option<int>, now: int)
      requires Valid()
      modifies this
      ensures Valid()
      ensures store == old(store)[MetaKey(namespace, key) := Stored(Meta(now, expire, tags), expire)]
    {
      var ok := Put(metaKeyPrefix + key, Meta(now, expire, tags), expire);
    }

    method AddTagMetaData(key: string, tag: string, expire: Option<int>)
      requires Valid()
      modifies this
      ensures Valid()
      ensures store == AddTag(old(store), namespace, key, tag, expire)
    {
      AddTagKeepsStore(store, namespace, key, tag, expire);
      var tagKey := tagKeyPrefix + tag;
      var members := TagMembers(store, namespace, tag);
      if key !in Keys(members) {
        var ok := Put(tagKey, TagIndex(members + [Member(NextOffset(members), key)]), expire);
      }
    }

    method DeleteValue(key: string)
      requires Valid()
      modifies this
      ensures Valid()
      ensures store == old(store) - {ValueKey(namespace, key)}
    {
      var ok := Erase(valueKeyPrefix + key);
    }

    method DeleteValueMetaData(key: string)
      requires Valid()
      modifies this
      ensures Valid()
      ensures store == old(store) - {MetaKey(namespace, key)}
    {
      var ok := Erase(metaKeyPrefix + key);
    }

    /** Present in the class but called by none of its operations. */
    method DeleteTagMetaData(tag: string)
      requires Valid()
      modifies this
      ensures Valid()
      ensures store == old(store) - {TagKey(namespace, tag)}
    {
      var ok := Erase(tagKeyPrefix + tag);
    }

    method RemoveFromTagMetaData(key: string, tag: string, expire: Option<int>)
      requires Valid()
      modifies this
      ensures Valid()
      ensures store == RemoveTag(old(store), namespace, key, tag, expire)
    {
      RemoveTagKeepsStore(store, namespace, key, tag, expire);
      var tagKey := tagKeyPrefix + tag;
      var members := TagMembers(store, namespace, tag);
      if key in Keys(members) {
        var ok := Put(tagKey, TagIndex(Unset(members, key)), expire);
      }
    }

    // ------------------------------------------------------ public surface

    /**
     * `set`: a missing lifetime falls back to the instance's; `now` is the
     * clock reading the expiry and the metadata's last-modified stamp use.
     */
    method Set(key: string, value: Value, tags: seq<string>, lifetime: Option<int>, now: int)
      requires Valid()
      modifies this
      ensures Valid()
      ensures store == SetState(old(store), namespace, key, value, tags,
                                Some(now + lifetime.GetOr(this.lifetime)), now)
      ensures forall d :: GetValue(store, namespace, key, d) == if value == False then d else value
      ensures GetTags(store, namespace, key) == tags
      ensures forall t :: t in tags ==> key in Keys(TagMembers(store, namespace, t))
    {
      var lifetime := lifetime.GetOr(this.lifetime);
      var expire := Some(now + lifetime);
      ghost var before := store;

      SetValue(key, value, expire);
      SetValueMetaData(key, tags, expire, now);
      ghost var written := store;

      for i := 0 to |tags|
        invariant Valid()
        invariant AddTags(store, namespace, key, tags[i..], expire)
               == AddTags(written, namespace, key, tags, expire)
      {
        AddTagMetaData(key, tags[i], expire);
        assert tags[i..][1..] == tags[i + 1..];
      }
      assert tags[|tags|..] == [];

      forall d | true
        ensures GetValue(store, namespace, key, d) == if value == False then d else value
      {
        SetReadsBack(before, namespace, key, value, tags, expire, now, d);
      }
      SetReadsBack(before, namespace, key, value, tags, expire, now, Null);
      forall t | t in tags
        ensures key in Keys(TagMembers(store, namespace, t))
      {
        SetIndexesKey(before, namespace, key, value, tags, expire, now, t);
      }
    }

    /** `delete`: the tags are read before the metadata record goes. */
    method Delete(key: string)
      requires Valid()
      modifies this
      ensures Valid()
      ensures store == DeleteState(old(store), namespace, key)
      ensures forall d :: GetValue(store, namespace, key, d) == d
      ensures GetTags(store, namespace, key) == []
    {
      ghost var before := store;
      var tags := GetTags(store, namespace, key);

      DeleteValue(key);
      DeleteValueMetaData(key);
      ghost var removed := store;

      for i := 0 to |tags|
        invariant Valid()
        invariant RemoveTags(store, namespace, key, tags[i..], None)
               == RemoveTags(removed, namespace, key, tags, None)
      {
        RemoveFromTagMetaData(key, tags[i], None);
        assert tags[i..][1..] == tags[i + 1..];
      }
      assert tags[|tags|..] == [];

      forall d | true
        ensures GetValue(store, namespace, key, d) == d
      {
        DeleteClears(before, namespace, key, d);
      }
      DeleteClears(before, namespace, key, Null);
    }

    /** `get`: the stored value, or `default` when it is missing or is `false`. */
    function Get(key: string, default: Value): (v: Value)
      requires Valid()
      reads this
      ensures var p := ValueKey(namespace, key);
        v == if p in store && store[p].entry != Payload(False) then store[p].entry.v else default
    {
      GetValue(store, namespace, key, default)
    }

    /** `getTags`: the tag list of the key's metadata record, empty without one. */
    function Tags(key: string): (tags: seq<string>)
      requires Valid()
      reads this
      ensures var p := MetaKey(namespace, key);
        tags == if p in store then store[p].entry.tags else []
    {
      GetTags(store, namespace, key)
    }

    /** `deleteByTags` has an empty body. */
    method DeleteByTags(tags: seq<string>)
      requires Valid()
      ensures Valid() && store == old(store)
    {
    }

    /** `flush`: the server drops every item, in every namespace. */
    method Flush()
      requires Valid()
      modifies this
      ensures Valid() && store == map[]
    {
      store := map[];
    }

    /**
     * `getMany`: one multi-get for the value keys, then every item found
     * is filed under its key with the value prefix stripped. The PHP
     * builds the requested keys with a lambda whose source pastes the
     * prefix inside a double-quoted string; the model requests
     * `valueKeyPrefix + k`, which is what that lambda returns for a
     * namespace without `$`, `\` or `"`.
     */
    method GetMany(keys: seq<string>) returns (values: map<string, Value>)
      requires Valid()
      ensures values == Batch(store, namespace, keys)
      ensures (forall k :: k in keys ==> !Occurs(valueKeyPrefix, k)) ==>
                && (forall k :: k in values <==> k in keys && ValueKey(namespace, k) in store)
                && (forall k :: k in values ==> store[ValueKey(namespace, k)].entry == Payload(values[k]))
    {
      var physical := seq(|keys|, i requires 0 <= i < |keys| => valueKeyPrefix + keys[i]);
      var found := MultiGet(physical);
      values := map[];
      for i := 0 to |physical|
        invariant values == Batch(store, namespace, keys[..i])
      {
        var p := physical[i];
        assert keys[..i + 1][..i] == keys[..i];
        if p in found && found[p].Payload? {
          values := values[RemoveAll(p, valueKeyPrefix) := found[p].v];
        }
      }
      assert keys[..|keys|] == keys;
      if forall k :: k in keys ==> !Occurs(valueKeyPrefix, k) {
        BatchExact(store, namespace, keys);
      }
    }

    /** `getByTag`: the tag's list resolved through `getMany`. */
    method GetByTag(tag: string) returns (values: map<string, Value>)
      requires Valid()
      ensures values == ByTag(store, namespace, tag)
      ensures TagMembers(store, namespace, tag) == [] ==> values == map[]
      ensures (forall k :: k in Keys(TagMembers(store, namespace, tag)) ==> !Occurs(valueKeyPrefix, k)) ==>
                forall k :: k in values <==> k in Keys(TagMembers(store, namespace, tag)) && ValueKey(namespace, k) in store
    {
      values := map[];
      var members := TagMembers(store, namespace, tag);
      if members != [] {
        values := GetMany(Keys(members));
      }
    }
  }
}
