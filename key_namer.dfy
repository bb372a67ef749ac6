/**
 * The key namer: every logical key or tag is stored under a physical key
 * `namespace ':' indicator ':' id`, where the indicator names the record
 * kind -- 'v' for the value, 'm' for its metadata, 't' for a tag index.
 */
module KeyNamer {

  const Separator: char := ':'
  const ValueIndicator: char := 'v'
  const MetaIndicator: char := 'm'
  const TagIndicator: char := 't'

  /** `namespace . SEPARATOR . indicator . SEPARATOR`. */
  function Prefix(ns: string, indicator: char): (p: string)
    ensures |p| == |ns| + 3
    ensures p[..|ns|] == ns && p[|ns|] == Separator && p[|ns| + 2] == Separator
    ensures p[|ns| + 1] == indicator
  {
    ns + [Separator, indicator, Separator]
  }

  function ValuePrefix(ns: string): string { Prefix(ns, ValueIndicator) }
  function MetaPrefix(ns: string): string { Prefix(ns, MetaIndicator) }
  function TagPrefix(ns: string): string { Prefix(ns, TagIndicator) }

  /** The physical key of record kind `indicator` for the logical `id`. */
  function PhysicalKey(ns: string, indicator: char, id: string): (p: string)
    ensures |p| == |ns| + 3 + |id|
    ensures p[..|ns| + 3] == Prefix(ns, indicator) && p[|ns| + 3..] == id
    ensures p[|ns| + 1] == indicator
  {
    Prefix(ns, indicator) + id
  }

  function ValueKey(ns: string, key: string): string { PhysicalKey(ns, ValueIndicator, key) }
  function MetaKey(ns: string, key: string): string { PhysicalKey(ns, MetaIndicator, key) }
  function TagKey(ns: string, tag: string): string { PhysicalKey(ns, TagIndicator, tag) }

  /**
   * Within one namespace a physical key determines both the record kind
   * and the logical id: the three key spaces are disjoint and each naming
   * is injective.
   */
  lemma PhysicalKeyInjective(ns: string, i: char, x: string, j: char, y: string)
    requires PhysicalKey(ns, i, x) == PhysicalKey(ns, j, y)
    ensures i == j && x == y
  {
    assert PhysicalKey(ns, i, x)[|ns| + 1] == i;
  }

  lemma KeySpacesDisjoint(ns: string, x: string, y: string)
    ensures ValueKey(ns, x) != MetaKey(ns, y)
    ensures ValueKey(ns, x) != TagKey(ns, y)
    ensures MetaKey(ns, x) != TagKey(ns, y)
  {
  }
}
