/** The request's query-parameter map as the crud helpers read it: keys are
    matched case-insensitively, and the first matching key wins. */
module QueryString {
  import opened Wrappers
  import Seqs
  import Text

  /** One entry of the query-parameter map: its key and its raw values, each
      raw value already split into field names (`sort=a,b&sort=c` gives the
      values `[["a", "b"], ["c"]]`). */
  datatype Param = Param(key: string, values: seq<seq<string>>)

  /** The entries in the map's key iteration order. */
  type Query = seq<Param>

  function KeyMatches(key: string): Param -> bool {
    (p: Param) => Text.EqualsIgnoreCase(key, p.key)
  }

  /** Some key of the query equals `key` ignoring case. */
  function HasKey(query: Query, key: string): (b: bool)
    ensures b <==> exists i :: 0 <= i < |query| && Text.EqualsIgnoreCase(key, query[i].key)
  {
    Seqs.FindFirst(query, KeyMatches(key)).Some?
  }

  /** The values of the first key equal to `key` ignoring case, concatenated
      in order; `None` (Java's null) when no key matches. A key that is
      present with no values gives `Some([])`. */
  function ValuesOf(query: Query, key: string): (r: Option<seq<string>>)
    ensures r.None? <==> forall i :: 0 <= i < |query| ==> !Text.EqualsIgnoreCase(key, query[i].key)
    ensures r.Some? ==>
      exists i :: 0 <= i < |query| && Text.EqualsIgnoreCase(key, query[i].key)
        && (forall j :: 0 <= j < i ==> !Text.EqualsIgnoreCase(key, query[j].key))
        && r.value == Seqs.Flatten(query[i].values)
  {
    match Seqs.FindFirst(query, KeyMatches(key))
    case None => None
    case Some(i) => Some(Seqs.Flatten(query[i].values))
  }

  /** A key is present exactly when a lookup for it succeeds. */
  lemma HasKeyIffValuesPresent(query: Query, key: string)
    ensures HasKey(query, key) <==> ValuesOf(query, key).Some?
  {
  }
}
