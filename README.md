# MemcacheTagging in Dafny

MemcacheTagging is a PHP layer over a Memcache server that adds tags to
cached values. For each logical key `k` in a namespace `ns` it keeps three
kinds of item in the flat key-value store:

- the value record under `ns:v:k`;
- the metadata record under `ns:m:k`, holding the array
  `(last_modified, expire, tags)`;
- one tag-index record per tag `t` under `ns:t:t`, holding the array
  `('keys' => [...])` of logical keys tagged `t`.

`set` writes the value and the metadata, then appends the key to each tag's
list unless `in_array` already finds it there. `delete` reads the key's tags
first, then deletes the value and the metadata, then removes the key from
each of those tags' lists. `getByTag` resolves a tag's list through
`getMany`, a single multi-get that strips the value prefix off every key it
returns. The keys it asks for are the value keys that `set` writes as long
as the namespace holds no `$`, `\` or `"`, which the model assumes (see
"Left out").

The model has these parts:

- `KeyNamer`: the three prefixes and the physical keys built from them.
- `Php`: the two runtime behaviours the layer depends on. These are
  `str_replace` with an empty replacement, and the conversion of a string
  used as an array offset into an integer key.
- `Records`: the stored entries and the key-list operations.
- `TagStore`: every read path as a function of the store. Each write
  protocol is a function from the store before to the store after. Both
  come with their properties as lemmas.
- `Tagging`: the class `MemcacheTagging`, which holds the server's
  contents in a `store` field. Its methods rewrite that field step by step
  as the PHP methods do. `set` and `delete` loop over the tags, and
  `getMany` loops over the multi-get reply. Each method is proved against
  the `TagStore` function for its operation.
- `UnitScenarios`: the call sequences of `test/unit.php`, replayed on the
  model.

The key list of a tag is a PHP array, and the model keeps it as one:
a sequence of `Member(offset, key)`, in insertion order. Its integer array
keys survive serialisation, and they are not renumbered when an element is
unset. An append uses one more than the last array key.

`removeFromTagMetaData` checks membership by value. It then runs
`unset($meta['keys'][$key])`, which uses the logical key as an array key.
The model does exactly that (`Records.Unset`):

- A key that PHP does not read as an integer, such as `key1`, removes
  nothing. The deleted key stays listed under its tags, and `getByTag`
  only hides it because `getMany` skips missing values.
- A key that reads as the integer `n` removes whatever element sits at
  array key `n`. That element may be another, live key.

The model follows the code where it departs from what a tag index is
usually expected to do:

- Tag-index records are written with the value's expiry when a key is
  appended. They are rewritten with no expiry only by the removal.
- Removal is by array key, as above, not by value.
- `deleteByTags` has an empty body. There is no `deleteByTag`
  cascade.
- The class has no `has`, `getLastModified` or `getTimeout`.

## Model

| member | source | states |
|---|---|---|
| KeyNamer.Prefix | MemcacheTagging.class.php:225-227 | a prefix is the namespace, ':', the record-kind indicator, ':' |
| KeyNamer.PhysicalKey | MemcacheTagging.class.php:117 | a physical key is its kind's prefix followed by the logical key |
| KeyNamer.PhysicalKeyInjective | MemcacheTagging.class.php:225-227 | equal physical keys in one namespace have the same record kind and the same logical key |
| KeyNamer.KeySpacesDisjoint | MemcacheTagging.class.php:5-8 | value, meta and tag keys never collide, whatever the logical keys |
| Php.RemoveAll | MemcacheTagging.class.php:56 | `str_replace(prefix, '', k)`: every non-overlapping occurrence of the prefix, scanned left to right, is deleted from the key (no ensures; its properties are the two lemmas below) |
| Php.ArrayOffset | MemcacheTagging.class.php:185 | the integer array key PHP uses for a string offset: the decimal value of a canonical digit string up to `PHP_INT_MAX`, and none for any other string (no ensures; characterised by `ArrayOffsetIsDecimal`) |
| Php.RemoveAllLeading | MemcacheTagging.class.php:56 | `str_replace` deletes a leading occurrence of the prefix and goes on after it |
| Php.RemoveAllAbsent | MemcacheTagging.class.php:56 | `str_replace` leaves a string without the prefix unchanged |
| Php.ArrayOffsetIsDecimal | MemcacheTagging.class.php:185 | a string is used as integer offset n exactly when it is the canonical decimal spelling of n and n fits in a PHP int |
| Records.Keys | MemcacheTagging.class.php:138 | the values of the key array, in order, one per element; this is what `in_array` searches |
| Records.NextOffset | MemcacheTagging.class.php:139 | the array key `$a[] =` uses: one more than the last array key, 0 for an empty array (no ensures) |
| Records.Appended | MemcacheTagging.class.php:138-139 | the list unchanged when the key is already a value in it, otherwise the list with `Member(NextOffset, key)` added at the end (no ensures; see `AppendedKeys`) |
| Records.AppendedKeys | MemcacheTagging.class.php:138-139 | appending lists the key at the end unless it is already listed; appending twice is appending once |
| Records.AppendedWellFormed | MemcacheTagging.class.php:133-142 | appending keeps array keys increasing and logical keys distinct |
| Records.WithoutOffset | MemcacheTagging.class.php:185 | `unset` at offset n keeps exactly the elements whose array key is not n |
| Records.WithoutOffsetWellFormed | MemcacheTagging.class.php:185 | `unset` keeps a well-formed key list well formed |
| Records.WithoutOffsetIdempotent | MemcacheTagging.class.php:185 | unsetting the same offset twice is unsetting it once |
| Records.Unset | MemcacheTagging.class.php:185 | `unset($keys[$key])`: `WithoutOffset` at the key's integer offset when PHP reads the key as one, otherwise the list unchanged (no ensures; see `UnsetByOffsetExamples`) |
| Records.Scrubbed | MemcacheTagging.class.php:184-185 | the list unchanged unless the key is one of its values, and then `Unset` by the key (no ensures; see `ScrubbedIdempotent`) |
| Records.ScrubbedIdempotent | MemcacheTagging.class.php:184-185 | removal is idempotent, and a key that is not an integer string removes nothing |
| Records.ScrubbedWellFormed | MemcacheTagging.class.php:184-186 | removal keeps a key list well formed |
| Records.UnsetByOffsetExamples | MemcacheTagging.class.php:185 | "key1" is no array offset and "0" is offset 0; removing "key1" leaves it listed; removing "0" drops the element at array key 0, here "a" |
| TagStore.Fetch | MemcacheTagging.class.php:204-207 | `_get` falls back exactly when the item is missing or is `false`, and otherwise returns the stored entry |
| TagStore.GetValue | MemcacheTagging.class.php:144-148 | `getValue`: the payload of the value record, or the default when `_get` falls back (no ensures; its meaning is stated by `Tagging.MemcacheTagging.Get`) |
| TagStore.GetTags | MemcacheTagging.class.php:62-74 | `getTags`: the tags of the metadata record, or the empty list when `_get` falls back (no ensures; stated by `Tagging.MemcacheTagging.Tags`) |
| TagStore.TagMembers | MemcacheTagging.class.php:156-160 | `getTagMetaData(tag)['keys']`: the tag record's key list, or the empty list when `_get` falls back (no ensures) |
| TagStore.Batch | MemcacheTagging.class.php:51-60 | the map `getMany` builds: the requested keys in order, each present value record filed under its physical key with the prefix stripped by `RemoveAll`, a later key overwriting an earlier one (no ensures; see `BatchExact`) |
| TagStore.ByTag | MemcacheTagging.class.php:76-89 | the empty map for a missing or empty key list, and otherwise `Batch` over the listed keys (no ensures; see `ByTagLive`) |
| TagStore.BatchExact | MemcacheTagging.class.php:51-60 | `getMany` returns exactly the requested keys whose value record is present, each with its stored payload, when no key contains the value prefix |
| TagStore.ByTagLive | MemcacheTagging.class.php:76-89 | `getByTag` yields exactly the listed keys whose value record still exists, with their payloads; stale members are skipped |
| TagStore.AddTag | MemcacheTagging.class.php:133-142 | `addTagMetaData`: the store unchanged when the key is listed under the tag, otherwise the tag record rewritten as the `Appended` list with the given expiry (no ensures; see the lemmas below) |
| TagStore.AddTags | MemcacheTagging.class.php:41-43 | the tag loop of `set`: `AddTag` for each tag in order (no ensures) |
| TagStore.AddTagMembers | MemcacheTagging.class.php:133-142 | `addTagMetaData` changes only its own tag's list, to the appended list |
| TagStore.AddTagOnce | MemcacheTagging.class.php:133-142 | a listed key leaves the store unchanged, an unlisted one is appended once, and a second call changes nothing |
| TagStore.AddTagsFrame | MemcacheTagging.class.php:41-43 | the tag loop of `set` leaves every item that is not one of its tag records as it was |
| TagStore.AddTagsMembers | MemcacheTagging.class.php:41-43 | after the tag loop each listed tag holds the key once, and other tags are untouched |
| TagStore.AddTagKeepsStore | MemcacheTagging.class.php:133-142 | `addTagMetaData` keeps the store well formed |
| TagStore.AddTagsKeepsStore | MemcacheTagging.class.php:41-43 | the tag loop keeps the store well formed |
| TagStore.SetState | MemcacheTagging.class.php:33-44 | `set`: the value record, then the metadata record (now, expire, tags), both with the expiry, then `AddTags` (no ensures; see the lemmas below) |
| TagStore.SetReadsBack | MemcacheTagging.class.php:33-44 | after `set`, `get` returns the value (the default if it is `false`) and `getTags` returns the tags, order included |
| TagStore.SetMembers | MemcacheTagging.class.php:33-44 | after `set`, each of its tags holds the appended list, array keys included, and other tags are unchanged |
| TagStore.SetIndexesKey | MemcacheTagging.class.php:41-43 | `set` lists the key once at the end of each of its tags that did not list it, even if a tag is repeated |
| TagStore.SetLeavesOtherKeys | MemcacheTagging.class.php:33-44 | `set` does not change the value or the tags of any other key |
| TagStore.SetKeepsStore | MemcacheTagging.class.php:33-44 | `set` keeps the store well formed |
| TagStore.RemoveTag | MemcacheTagging.class.php:180-188 | `removeFromTagMetaData`: the store unchanged when the key is not listed under the tag, otherwise the tag record rewritten as the `Scrubbed` list with no expiry (no ensures; see the lemmas below) |
| TagStore.RemoveTags | MemcacheTagging.class.php:97-99 | the tag loop of `delete`: `RemoveTag` for each tag in order (no ensures) |
| TagStore.RemoveTagMembers | MemcacheTagging.class.php:180-188 | `removeFromTagMetaData` changes only its tag's list, and only by the offset-based removal |
| TagStore.RemoveTagsFrame | MemcacheTagging.class.php:97-99 | the tag loop of `delete` leaves every item that is not one of its tag records as it was |
| TagStore.RemoveTagsMembers | MemcacheTagging.class.php:97-99 | after the tag loop each listed tag holds the scrubbed list, and other tags are untouched |
| TagStore.RemoveTagsSpares | MemcacheTagging.class.php:184-187 | a tag record whose list lacks the key is never rewritten, not even its expiry |
| TagStore.RemoveTagKeepsStore | MemcacheTagging.class.php:180-188 | removal keeps the store well formed |
| TagStore.RemoveTagsKeepsStore | MemcacheTagging.class.php:97-99 | the removal loop keeps the store well formed |
| TagStore.DeleteState | MemcacheTagging.class.php:91-100 | `delete`: the tags read from the metadata first, then the value and metadata records removed, then `RemoveTags` over those tags (no ensures; see the lemmas below) |
| TagStore.DeleteClears | MemcacheTagging.class.php:91-100 | after `delete` the value and meta records are gone, `get` gives the default and `getTags` is empty |
| TagStore.DeleteLeavesOtherKeys | MemcacheTagging.class.php:91-100 | `delete` does not change the value or the tags of any other key |
| TagStore.DeleteScrubs | MemcacheTagging.class.php:93-99 | `delete` applies the removal to exactly the tags the metadata named before the delete |
| TagStore.DeleteSparesNonMembers | MemcacheTagging.class.php:184-187 | `delete` rewrites a tag record only when its list holds the key |
| TagStore.DeleteByNameKeepsLists | MemcacheTagging.class.php:185 | deleting a key that is not an integer string leaves every tag list unchanged |
| TagStore.DeleteTwice | MemcacheTagging.class.php:91-100 | deleting twice is deleting once |
| TagStore.DeleteKeepsStore | MemcacheTagging.class.php:91-100 | `delete` keeps the store well formed |
| Tagging.MemcacheTagging.constructor | MemcacheTagging.class.php:222-227 | the lifetime option defaults to 3600, and the three prefixes are built from the namespace |
| Tagging.MemcacheTagging.ServerReplace | MemcacheTagging.class.php:197 | replace writes and succeeds exactly when the item exists |
| Tagging.MemcacheTagging.ServerSet | MemcacheTagging.class.php:201 | set writes the item unconditionally |
| Tagging.MemcacheTagging.ServerDelete | MemcacheTagging.class.php:211 | delete removes the item and reports whether it was there |
| Tagging.MemcacheTagging.MultiGet | MemcacheTagging.class.php:54 | a multi-get returns exactly the requested items that exist |
| Tagging.MemcacheTagging.Put | MemcacheTagging.class.php:195-202 | `_set` writes the item whether the replace or the set branch runs, and changes nothing else |
| Tagging.MemcacheTagging.Erase | MemcacheTagging.class.php:209-212 | `_delete` removes exactly that item |
| Tagging.MemcacheTagging.SetValue | MemcacheTagging.class.php:115-119 | writes the payload under the value key with the expiry |
| Tagging.MemcacheTagging.SetValueMetaData | MemcacheTagging.class.php:121-131 | writes (now, expire, tags) under the meta key with the expiry |
| Tagging.MemcacheTagging.AddTagMetaData | MemcacheTagging.class.php:133-142 | the store after is `AddTag` of the store before; the store stays well formed |
| Tagging.MemcacheTagging.DeleteValue | MemcacheTagging.class.php:162-166 | removes exactly the value record |
| Tagging.MemcacheTagging.DeleteValueMetaData | MemcacheTagging.class.php:168-172 | removes exactly the meta record |
| Tagging.MemcacheTagging.DeleteTagMetaData | MemcacheTagging.class.php:174-178 | removes exactly the tag record |
| Tagging.MemcacheTagging.RemoveFromTagMetaData | MemcacheTagging.class.php:180-188 | the store after is `RemoveTag` of the store before; the store stays well formed |
| Tagging.MemcacheTagging.Get | MemcacheTagging.class.php:46-49 | `get` (through `getValue`, lines 144-148) returns the stored payload unless the value record is missing or `false`, and then the default |
| Tagging.MemcacheTagging.Tags | MemcacheTagging.class.php:62-74 | `getTags` returns the tags of the metadata record, or nothing without one |
| Tagging.MemcacheTagging.Set | MemcacheTagging.class.php:33-44 | the store after is `SetState` with expiry now + lifetime (the instance's when none is given); `get` returns the value, `getTags` the tags, and every tag lists the key |
| Tagging.MemcacheTagging.Delete | MemcacheTagging.class.php:91-100 | the store after is `DeleteState` of the store before; `get` gives the default and `getTags` is empty |
| Tagging.MemcacheTagging.DeleteByTags | MemcacheTagging.class.php:103-106 | changes nothing |
| Tagging.MemcacheTagging.Flush | MemcacheTagging.class.php:108-111 | the server is empty afterwards |
| Tagging.MemcacheTagging.GetMany | MemcacheTagging.class.php:51-60 | the loop over the reply computes `Batch`, which is exactly the present requested keys with their payloads when no key contains the prefix |
| Tagging.MemcacheTagging.GetByTag | MemcacheTagging.class.php:76-89 | empty for a missing or empty list, and otherwise exactly the listed keys whose value record exists |
| UnitScenarios.MissingDefaults | test/unit.php:46-50 | on a flushed server `get('hoge')` is null, `get('hoge', 1)` is 1, and nothing is tagged |
| UnitScenarios.SecondSetShape | test/unit.php:114-120 | after the two sets the store is well formed |
| UnitScenarios.SecondSetValues | test/unit.php:77-82 | after the two sets each key reads back its own value |
| UnitScenarios.SecondSetTag1 | test/unit.php:114-120 | tag 1 lists key1 at array key 0 |
| UnitScenarios.SecondSetTag2 | test/unit.php:114-120 | tag 2 lists key1 at 0 and key2 at 1 |
| UnitScenarios.SecondSetTag3 | test/unit.php:114-120 | tag 3 lists key1 at 0 and key2 at 1 |
| UnitScenarios.SecondSetTag4 | test/unit.php:114-120 | tag 4 lists key2 at 0 |
| UnitScenarios.SetThenByTag1 | test/unit.php:122-125 | `getByTag(1)` is {key1: value_1} |
| UnitScenarios.SetThenByTag2 | test/unit.php:127-130 | `getByTag(2)` is {key1: value_1, key2: value_2} |
| UnitScenarios.AfterDeleteShape | test/unit.php:164 | the store stays well formed after `delete('key1')` |
| UnitScenarios.AfterDeleteValues | test/unit.php:164 | after `delete('key1')` its value record is gone and key2 still reads value_2 |
| UnitScenarios.AfterDeleteTag1 | test/unit.php:164 | key1 is still listed under tag 1 after its delete |
| UnitScenarios.AfterDeleteTag2 | test/unit.php:164 | tag 2's list is unchanged by the delete |
| UnitScenarios.AfterDeleteTag3 | test/unit.php:164 | tag 3's list is unchanged by the delete |
| UnitScenarios.AfterDeleteTag4 | test/unit.php:164 | tag 4's list is unchanged by the delete |
| UnitScenarios.DeleteThenByTag1 | test/unit.php:166-167 | `getByTag('1')` is empty after `delete('key1')` |
| UnitScenarios.DeleteThenByTag2 | test/unit.php:169-172 | `getByTag('2')` is {key2: value_2} |
| UnitScenarios.DeleteThenByTag3 | test/unit.php:174-177 | `getByTag('3')` is {key2: value_2} |
| UnitScenarios.DeleteThenByTag4 | test/unit.php:179-182 | `getByTag('4')` is {key2: value_2} |
| UnitScenarios.NeighbourSetsFacts | MemcacheTagging.class.php:133-142 | after setting "a" then "0" under tag T, T lists "a" at 0 and "0" at 1 |
| UnitScenarios.NeighbourDeleteFacts | MemcacheTagging.class.php:184-185 | deleting "0" unsets array key 0, leaving T's list as ["0" at 1] |
| UnitScenarios.DeleteNumericKeyDropsNeighbour | MemcacheTagging.class.php:184-185 | after deleting "0", "a" keeps its value and tag T, but `getByTag(T)` is empty and the deleted "0" stays listed |

## Left out

- Server connection: the `Memcache` class check, the `addServer` loop, the
  default server options and the exceptions
  (MemcacheTagging.class.php:214-252) are network set-up. The constructor
  takes the server's current contents instead.
- Default namespace: `md5(dirname(__FILE__))` hashes a file path. The
  namespace is a parameter.
- `getInstance` is a trivial factory.
- Clock and expiry: `time()` is the parameter `now`. The two calls in
  `set` (lines 36 and 125) read the same `now`. Each item's expiry is
  recorded, but the store never evicts by time. Memcache's reading of large
  expiry values as absolute timestamps is not modelled.
- Server failures: replace, set and delete never fail for reasons other
  than the item's presence. This excludes a lost connection, an item that
  is too large and a key that is too long.
- Concurrency: the model runs one operation at a time. The lost updates
  between a tag record's read and its write-back are not represented.
- Foreign writes: other clients writing items of another shape into the
  namespace are excluded by the invariant `WellFormedStore`. The
  constructor requires that invariant of the server's initial contents,
  and every method keeps `Tagging.MemcacheTagging.Valid`, which includes
  it.
- Tagging.MemcacheTagging.GetMany: its exactness promise holds only when
  no requested key contains the value prefix. For other keys, `str_replace`
  also strips inner occurrences. The result is still given exactly by
  `Batch`. It also assumes a namespace without `$`, `\` or `"`: line 54
  builds the requested keys with `create_function`, whose source pastes
  the prefix inside a double-quoted PHP string. A `$name` in the namespace
  is interpolated, a backslash escape such as `\n` or `\x41` is decoded,
  and a `"` makes the lambda a parse error after which `getMany` returns an
  empty array. The model requests `prefix + key` literally. The default
  md5 namespace has none of these characters.
- TagStore.Batch: takes the value keys literally, which is what line 54
  requests only for a namespace without `$`, `\` or `"`, as above.
- TagStore.BatchExact: holds under the same assumption of a namespace
  without `$`, `\` or `"`. For another namespace the PHP asks the server
  for other keys than the value keys `set` wrote.
- TagStore.ByTagLive: inherits the assumption of `BatchExact` of a
  namespace without `$`, `\` or `"`.
- Tagging.MemcacheTagging.GetByTag: inherits the assumption of `GetMany`
  of a namespace without `$`, `\` or `"`.
- The multi-get reply is walked in request order. Memcache's own reply
  order is not modelled.
- `Php.PhpIntMax` is the `PHP_INT_MAX` of a 64-bit PHP build. On a 32-bit
  build digit strings above 2147483647 stay string keys, which the model
  does not cover.
- PHP loose comparison: `in_array` compares loosely, so "1" equals "01".
  The model compares keys exactly.
- Tags and keys are strings. The test's integer tags 1, 2, 3 are modelled
  as their decimal strings.
- Payloads are null, booleans, integers and strings. PHP arrays, objects
  and floats are not modelled.
- A string such as "-3" becomes a negative integer array key. Such a key
  can never equal an appended offset, so the model treats it like any
  other string key.
- `flush` clears every namespace on the server. Its boolean result is not
  modelled.
- The tests at test/unit.php:186-215 call `deleteByTag`, which the class
  does not define. The only related method, `deleteByTags`, does nothing.
  No cascade delete is modelled.
- The test harness and the instantiation tests (test/unit.php:1-41) are
  not modelled.
