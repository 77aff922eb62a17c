/**
 * The badge cell of the posts and projects tables: at most the first three
 * entries, then one "+n" badge counting the rest when there are more.
 */
module Badges {
  import opened Options

  const MaxShown: nat := 3

  datatype BadgeRow = BadgeRow(shown: seq<string>, hidden: Option<nat>)

  /** `items.slice(0, 3)`, and `items.length - 3` when `items.length > 3`. */
  function BadgeRowOf(items: seq<string>): (r: BadgeRow)
    ensures |r.shown| == if |items| < MaxShown then |items| else MaxShown
    ensures r.shown == items[..|r.shown|]
    ensures r.hidden.Some? <==> |items| > MaxShown
    ensures |r.shown| + (if r.hidden.Some? then r.hidden.value else 0) == |items|
  {
    if |items| > MaxShown then BadgeRow(items[..MaxShown], Some(|items| - MaxShown))
    else BadgeRow(items, None)
  }

  /** Exactly three entries show no "+n" badge; a fourth shows "+1". */
  lemma OverflowBoundary(a: string, b: string, c: string, d: string)
    ensures BadgeRowOf([a, b, c]) == BadgeRow([a, b, c], None)
    ensures BadgeRowOf([a, b, c, d]) == BadgeRow([a, b, c], Some(1))
  {
  }
}
