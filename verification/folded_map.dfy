/** The case-folded copy of the caller's column-name map that `transformSql`
    builds before rewriting (lib/sqlite/sql-parser.ts:29-32). */
module FoldedMap {
  import opened Ascii

  /** A JavaScript `Map<string, string>` as its entries in insertion order. */
  type Entries = seq<(string, string)>

  /** Entry `i` is the last one whose key folds to the same lower-case form,
      so its value is the one a later `set` cannot overwrite. */
  predicate LastOfFold(entries: Entries, i: int)
    requires 0 <= i < |entries|
  {
    forall j :: i < j < |entries| ==> Lower(entries[j].0) != Lower(entries[i].0)
  }

  /** Visits the entries in insertion order and stores each value under the
      lower-cased key; a later key with the same folding replaces the value. */
  function FoldKeys(entries: Entries): (m: map<string, string>)
    ensures forall i :: 0 <= i < |entries| ==> Lower(entries[i].0) in m
    ensures forall k :: k in m ==> exists i :: 0 <= i < |entries| && Lower(entries[i].0) == k
    ensures forall i :: 0 <= i < |entries| && LastOfFold(entries, i) ==> m[Lower(entries[i].0)] == entries[i].1
    ensures forall k :: k in m ==> NoUpper(k)
  {
    if |entries| == 0 then map[]
    else
      var prefix := entries[..|entries| - 1];
      var last := entries[|entries| - 1];
      assert forall i :: 0 <= i < |prefix| ==> prefix[i] == entries[i];
      FoldKeys(prefix)[Lower(last.0) := last.1]
  }

  /** The source's `if (rawName)` after `get(name)`: the lookup succeeds only
      for a present key whose value is a non-empty (truthy) string. */
  predicate Hits(m: map<string, string>, name: string)
  {
    name in m && m[name] != ""
  }
}
