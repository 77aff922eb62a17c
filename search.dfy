/**
 * The dashboard's search box test: a field matches when its lower-cased
 * text contains the lower-cased search, and a list of fields matches when
 * some element does (`Array.prototype.some`).
 */
module Search {
  import opened Text

  /** `field.toLowerCase().includes(search.toLowerCase())`. */
  predicate Matches(field: string, search: string)
  {
    Contains(ToLower(field), ToLower(search))
  }

  /** `fields.some((f) => Matches(f, search))`. */
  predicate SomeMatches(fields: seq<string>, search: string)
  {
    exists i :: 0 <= i < |fields| && Matches(fields[i], search)
  }

  /** The empty search matches every field. */
  lemma EmptySearchMatches(field: string)
    ensures Matches(field, "")
  {
    ContainsEmpty(ToLower(field));
  }

  /** Case does not matter on either side. */
  lemma MatchesIgnoresCase(field: string, search: string)
    ensures Matches(field, search) == Matches(ToLower(field), search)
    ensures Matches(field, search) == Matches(field, ToLower(search))
  {
    ToLowerIdempotent(field);
    ToLowerIdempotent(search);
  }

  /** A match is an occurrence of the lower-cased search at some position of
      the lower-cased field. */
  lemma MatchesAt(field: string, search: string)
    ensures Matches(field, search) <==>
      exists i :: 0 <= i <= |field| && ToLower(search) <= ToLower(field)[i..]
  {
    ContainsAt(ToLower(field), ToLower(search));
  }
}
