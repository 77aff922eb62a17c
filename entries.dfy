/**
 * The rule both editors use to add a typed entry (a post tag, a project
 * tool) to a list: the input is trimmed, and appended only when the trimmed
 * value is non-empty and not already listed, by exact string equality.
 */
module Entries {
  import opened Text
  import opened Lists

  /** Whether the input is added: its trimmed value is non-empty and new. */
  predicate Accepts(entries: seq<string>, input: string)
  {
    Trim(input) != "" && Trim(input) !in entries
  }

  /** The list after an add attempt. */
  function AddEntry(entries: seq<string>, input: string): (r: seq<string>)
  {
    if Accepts(entries, input) then entries + [Trim(input)] else entries
  }

  /** An accepted entry is appended at the end, trimmed, and the existing
      entries keep their order; anything else leaves the list unchanged. */
  lemma AddEntryAppends(entries: seq<string>, input: string)
    ensures var r := AddEntry(entries, input);
      && (Accepts(entries, input) ==> |r| == |entries| + 1 && r[..|entries|] == entries && r[|entries|] == Trim(input))
      && (!Accepts(entries, input) ==> r == entries)
  {
  }

  /** A blank input (empty or white space only) or one already listed,
      once trimmed, is not accepted. */
  lemma BlankOrPresentRejected(entries: seq<string>, input: string)
    requires (forall i :: 0 <= i < |input| ==> IsJsWhitespace(input[i])) || Trim(input) in entries
    ensures AddEntry(entries, input) == entries
  {
    var a, b := TrimBounds(input);
  }

  /** The added entry has no white space at either end. */
  lemma AddedEntryIsTrimmed(entries: seq<string>, input: string)
    requires Accepts(entries, input)
    ensures var v := AddEntry(entries, input)[|entries|];
      v != [] && !IsJsWhitespace(v[0]) && !IsJsWhitespace(v[|v| - 1])
  {
    var a, b := TrimBounds(input);
  }

  /** A duplicate-free list stays duplicate-free. */
  lemma AddEntryKeepsNoDuplicates(entries: seq<string>, input: string)
    requires NoDuplicates(entries)
    ensures NoDuplicates(AddEntry(entries, input))
  {
    if Accepts(entries, input) {
      AppendFreshNoDuplicates(entries, Trim(input));
    }
  }

  /** The duplicate check is case-sensitive: "js" is added beside "JS". */
  lemma CaseSensitiveDuplicates()
    ensures AddEntry(["JS"], "js") == ["JS", "js"]
  {
    TrimOfTrimmed("js");
    assert "js" != "JS";
  }

  /** Surrounding white space does not make a new entry: " JS " is "JS". */
  lemma PaddedDuplicateRejected()
    ensures AddEntry(["JS"], " JS ") == ["JS"]
  {
    assert TrimStart(" JS ") == "JS ";
    assert TrimEnd("JS ") == "JS";
  }

  /** Removing an entry removes every equal element; the rest keep their order. */
  lemma RemoveEntryKeepsOthers(entries: seq<string>, v: string)
    ensures v !in RemoveAll(entries, v)
    ensures IsSubsequence(RemoveAll(entries, v), entries)
    ensures forall k :: 0 <= k < |entries| && entries[k] != v ==> entries[k] in RemoveAll(entries, v)
    ensures NoDuplicates(entries) ==> NoDuplicates(RemoveAll(entries, v))
  {
    if NoDuplicates(entries) {
      FilterNoDuplicates(entries, x => x != v);
    }
  }
}
