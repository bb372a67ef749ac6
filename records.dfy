/**
 * What the tagging layer keeps in the store: caller values, per-key
 * metadata arrays and per-tag key lists, together with the list
 * operations that `addTagMetaData` and `removeFromTagMetaData` perform.
 */
module Records {
  import opened Wrappers
  import opened Php

  /** The PHP scalars a caller stores; `Bool(false)` is the one `_get` cannot tell from a miss. */
  datatype Value = Null | Bool(b: bool) | Int(i: int) | Str(s: string)

  const False: Value := Bool(false)

  /**
   * One element of the PHP array `$meta['keys']`: its integer array key
   * (`offset`) and the logical key stored there. Array keys are not
   * renumbered when an element is unset.
   */
  datatype Member = Member(offset: nat, key: string)

  datatype Entry =
    | Payload(v: Value)
      /** array('last_modified' => ..., 'expire' => ..., 'tags' => ...) */
    | Meta(lastModified: int, expire: Option<int>, tags: seq<string>)
      /** array('keys' => ...) */
    | TagIndex(members: seq<Member>)

  /** A store item: the entry and the expiry the store holds it under (`None`: never). */
  datatype Stored = Stored(entry: Entry, ttl: Option<int>)

  type Store = map<string, Stored>

  /** The values of the key list, in array order. */
  function Keys(ms: seq<Member>): (ks: seq<string>)
    ensures |ks| == |ms|
    ensures forall i :: 0 <= i < |ms| ==> ks[i] == ms[i].key
  {
    seq(|ms|, i requires 0 <= i < |ms| => ms[i].key)
  }

  /**
   * What every key list written by the tagging layer looks like: array
   * keys strictly increasing and no logical key listed twice.
   */
  ghost predicate WellFormed(ms: seq<Member>) {
    forall i, j :: 0 <= i < j < |ms| ==> ms[i].offset < ms[j].offset && ms[i].key != ms[j].key
  }

  /** The array key `$a[] = ...` picks: one past the largest, 0 for an empty array. */
  function NextOffset(ms: seq<Member>): nat {
    if ms == [] then 0 else ms[|ms| - 1].offset + 1
  }

  /** The key list after `addTagMetaData`: `key` appended unless `in_array` finds it. */
  function Appended(ms: seq<Member>, key: string): seq<Member> {
    if key in Keys(ms) then ms else ms + [Member(NextOffset(ms), key)]
  }

  /** Appending lists the key exactly once, however often it is repeated. */
  lemma AppendedKeys(ms: seq<Member>, key: string)
    ensures Keys(Appended(ms, key)) == if key in Keys(ms) then Keys(ms) else Keys(ms) + [key]
    ensures Appended(Appended(ms, key), key) == Appended(ms, key)
  {
    if key !in Keys(ms) {
      assert Keys(Appended(ms, key))[|ms|] == key;
    }
  }

  lemma AppendedWellFormed(ms: seq<Member>, key: string)
    requires WellFormed(ms)
    ensures WellFormed(Appended(ms, key))
  {
    var r := Appended(ms, key);
    if key !in Keys(ms) {
      forall i, j | 0 <= i < j < |r|
        ensures r[i].offset < r[j].offset && r[i].key != r[j].key
      {
        if j == |ms| {
          assert Keys(ms)[i] == ms[i].key;
          if i < |ms| - 1 {
            assert ms[i].offset < ms[|ms| - 1].offset;
          }
        }
      }
    }
  }

  /** The elements whose array key is not `n`, in their order. */
  function WithoutOffset(ms: seq<Member>, n: nat): (r: seq<Member>)
    ensures forall m :: m in r <==> m in ms && m.offset != n
    ensures |r| <= |ms|
  {
    if ms == [] then []
    else (if ms[0].offset == n then [] else [ms[0]]) + WithoutOffset(ms[1..], n)
  }

  /**
   * `unset($meta['keys'][$key])`: the logical key is used as an array
   * key. Only a string PHP reads as the integer `n` removes anything, and
   * what it removes is the element stored at array key `n`, whichever
   * logical key that is.
   */
  function Unset(ms: seq<Member>, key: string): seq<Member> {
    match ArrayOffset(key)
    case None => ms
    case Some(n) => WithoutOffset(ms, n)
  }

  /** The key list after `removeFromTagMetaData`: unset only when `in_array` finds the key. */
  function Scrubbed(ms: seq<Member>, key: string): seq<Member> {
    if key in Keys(ms) then Unset(ms, key) else ms
  }

  lemma TailWellFormed(ms: seq<Member>)
    requires WellFormed(ms) && ms != []
    ensures WellFormed(ms[1..])
    ensures forall m :: m in ms[1..] ==> ms[0].offset < m.offset && ms[0].key != m.key
  {
    var tail := ms[1..];
    forall i, j | 0 <= i < j < |tail|
      ensures tail[i].offset < tail[j].offset && tail[i].key != tail[j].key
    {
      assert tail[i] == ms[i + 1] && tail[j] == ms[j + 1];
    }
    forall m | m in tail
      ensures ms[0].offset < m.offset && ms[0].key != m.key
    {
      var k :| 0 <= k < |tail| && tail[k] == m;
      assert tail[k] == ms[k + 1];
    }
  }

  lemma ConsWellFormed(m: Member, rest: seq<Member>)
    requires WellFormed(rest)
    requires forall x :: x in rest ==> m.offset < x.offset && m.key != x.key
    ensures WellFormed([m] + rest)
  {
    var r := [m] + rest;
    forall i, j | 0 <= i < j < |r|
      ensures r[i].offset < r[j].offset && r[i].key != r[j].key
    {
      assert r[j] == rest[j - 1];
      assert rest[j - 1] in rest;
      if i > 0 {
        assert r[i] == rest[i - 1];
      }
    }
  }

  lemma {:induction false} WithoutOffsetWellFormed(ms: seq<Member>, n: nat)
    requires WellFormed(ms)
    ensures WellFormed(WithoutOffset(ms, n))
  {
    if ms != [] {
      TailWellFormed(ms);
      WithoutOffsetWellFormed(ms[1..], n);
      var rest := WithoutOffset(ms[1..], n);
      if ms[0].offset != n {
        ConsWellFormed(ms[0], rest);
        assert WithoutOffset(ms, n) == [ms[0]] + rest;
      } else {
        assert WithoutOffset(ms, n) == rest;
      }
    }
  }

  lemma {:induction false} WithoutOffsetIdempotent(ms: seq<Member>, n: nat)
    ensures WithoutOffset(WithoutOffset(ms, n), n) == WithoutOffset(ms, n)
  {
    if ms != [] {
      WithoutOffsetIdempotent(ms[1..], n);
      var rest := WithoutOffset(ms[1..], n);
      if ms[0].offset != n {
        var r := [ms[0]] + rest;
        assert WithoutOffset(ms, n) == r;
        assert r[0] == ms[0] && r[1..] == rest;
        assert WithoutOffset(r, n) == [ms[0]] + WithoutOffset(rest, n);
      } else {
        assert WithoutOffset(ms, n) == rest;
      }
    }
  }

  /** Removing twice removes no more than removing once; a non-numeric key removes nothing. */
  lemma ScrubbedIdempotent(ms: seq<Member>, key: string)
    ensures Scrubbed(Scrubbed(ms, key), key) == Scrubbed(ms, key)
    ensures ArrayOffset(key) == None ==> Scrubbed(ms, key) == ms
  {
    match ArrayOffset(key)
    case None =>
    case Some(n) => WithoutOffsetIdempotent(ms, n);
  }

  lemma ScrubbedWellFormed(ms: seq<Member>, key: string)
    requires WellFormed(ms)
    ensures WellFormed(Scrubbed(ms, key))
  {
    match ArrayOffset(key)
    case None =>
    case Some(n) => WithoutOffsetWellFormed(ms, n);
  }

  /**
   * As written, removal by a non-numeric key such as "key1" leaves the
   * key listed; removal by "0" drops whatever sits at array key 0.
   */
  lemma UnsetByOffsetExamples()
    ensures ArrayOffset("key1") == None && ArrayOffset("0") == Some(0)
    ensures Unset([Member(0, "key1")], "key1") == [Member(0, "key1")]
    ensures Unset([Member(0, "a"), Member(1, "0")], "0") == [Member(1, "0")]
  {
    assert ArrayOffset("key1") == None by {
      assert !IsDigit("key1"[0]);
    }
    assert ArrayOffset("0") == Some(0) by {
      assert DecimalValue("0") == DecimalValue("0"[..0]) * 10 + 0;
    }
    assert WithoutOffset([Member(1, "0")], 0) == [Member(1, "0")] by {
      assert [Member(1, "0")][1..] == [];
    }
    assert [Member(0, "a"), Member(1, "0")][1..] == [Member(1, "0")];
  }
}
