/**
 * String helpers shared by the modelled components: ASCII-only
 * `toLowerCase`, ECMAScript whitespace, `trim`, `split` on one character,
 * `includes` (substring search) and run replacement as the global regular
 * expression replacements `/\s+/g` and `/-+/g` perform it.
 */
module Text {

  /** ECMAScript WhiteSpace and LineTerminator code points: what `\s` and
      `String.prototype.trim` treat as white space. */
  predicate IsJsWhitespace(c: char)
  {
    c == '\t' || c == '\n' || c == '\U{B}' || c == '\U{C}' || c == '\r' || c == ' '
    || c == '\U{A0}' || c == '\U{1680}' || ('\U{2000}' <= c <= '\U{200A}')
    || c == '\U{2028}' || c == '\U{2029}' || c == '\U{202F}' || c == '\U{205F}'
    || c == '\U{3000}' || c == '\U{FEFF}'
  }

  predicate IsAsciiUpper(c: char) { 'A' <= c <= 'Z' }

  /** `toLowerCase` restricted to ASCII: other characters are kept as they are. */
  function LowerChar(c: char): (r: char)
    ensures !IsAsciiUpper(r)
    ensures IsAsciiUpper(c) ==> r as int == c as int + 32
    ensures !IsAsciiUpper(c) ==> r == c
  {
    if IsAsciiUpper(c) then (c as int + 32) as char else c
  }

  function ToLower(s: string): (r: string)
    ensures |r| == |s|
    ensures forall i :: 0 <= i < |s| ==> r[i] == LowerChar(s[i])
  {
    seq(|s|, i requires 0 <= i < |s| => LowerChar(s[i]))
  }

  lemma ToLowerIdempotent(s: string)
    ensures ToLower(ToLower(s)) == ToLower(s)
  {
  }

  /** A string with no ASCII capital is its own lower-case form. */
  lemma ToLowerOfLower(s: string)
    requires forall i :: 0 <= i < |s| ==> !IsAsciiUpper(s[i])
    ensures ToLower(s) == s
  {
  }

  // ---------------------------------------------------------------------
  // Substring search: `hay.includes(needle)`

  /** `needle` occurs in `hay` at some position. */
  function Contains(hay: string, needle: string): (r: bool)
    decreases |hay|
  {
    needle <= hay || (|hay| > 0 && Contains(hay[1..], needle))
  }

  lemma {:induction false} ContainsAt(hay: string, needle: string)
    ensures Contains(hay, needle) <==> exists i :: 0 <= i <= |hay| && needle <= hay[i..]
    decreases |hay|
  {
    if needle <= hay {
      assert hay[0..] == hay;
    } else if |hay| > 0 {
      ContainsAt(hay[1..], needle);
      if Contains(hay[1..], needle) {
        var i :| 0 <= i <= |hay[1..]| && needle <= hay[1..][i..];
        assert hay[1..][i..] == hay[i + 1..];
      }
      if exists i :: 0 <= i <= |hay| && needle <= hay[i..] {
        var i :| 0 <= i <= |hay| && needle <= hay[i..];
        assert i != 0 by { assert hay[0..] == hay; }
        assert hay[1..][i - 1..] == hay[i..];
      }
    }
  }

  /** The empty search string occurs in every string. */
  lemma ContainsEmpty(hay: string)
    ensures Contains(hay, "")
  {
  }

  // ---------------------------------------------------------------------
  // `trim`

  function TrimStart(s: string): string
  {
    if |s| > 0 && IsJsWhitespace(s[0]) then TrimStart(s[1..]) else s
  }

  function TrimEnd(s: string): string
  {
    if |s| > 0 && IsJsWhitespace(s[|s| - 1]) then TrimEnd(s[..|s| - 1]) else s
  }

  /** `String.prototype.trim`. */
  function Trim(s: string): string
  {
    TrimEnd(TrimStart(s))
  }

  /** `TrimStart` cuts a prefix of white space and stops at the first other character. */
  lemma {:induction false} TrimStartCuts(s: string) returns (i: nat)
    ensures i <= |s| && TrimStart(s) == s[i..]
    ensures TrimStart(s) == [] || !IsJsWhitespace(TrimStart(s)[0])
    ensures forall k :: 0 <= k < i ==> IsJsWhitespace(s[k])
  {
    if |s| > 0 && IsJsWhitespace(s[0]) {
      var i' := TrimStartCuts(s[1..]);
      i := i' + 1;
      assert s[1..][i'..] == s[i..];
    } else {
      i := 0;
    }
  }

  /** `TrimEnd` cuts a suffix of white space and stops at the last other character. */
  lemma {:induction false} TrimEndCuts(s: string) returns (j: nat)
    ensures j <= |s| && TrimEnd(s) == s[..j]
    ensures TrimEnd(s) == [] || !IsJsWhitespace(TrimEnd(s)[|TrimEnd(s)| - 1])
    ensures forall k :: j <= k < |s| ==> IsJsWhitespace(s[k])
  {
    if |s| > 0 && IsJsWhitespace(s[|s| - 1]) {
      j := TrimEndCuts(s[..|s| - 1]);
      assert s[..|s| - 1][..j] == s[..j];
    } else {
      j := |s|;
    }
  }

  lemma {:induction false} TrimStartNoLeading(s: string)
    requires s == [] || !IsJsWhitespace(s[0])
    ensures TrimStart(s) == s
  {
  }

  lemma {:induction false} TrimEndNoTrailing(s: string)
    requires s == [] || !IsJsWhitespace(s[|s| - 1])
    ensures TrimEnd(s) == s
  {
  }

  /** What `Trim` returns: the slice `s[i..j]` with only white space cut
      away and no white space left at either end. */
  lemma TrimBounds(s: string) returns (i: nat, j: nat)
    ensures i <= j <= |s| && Trim(s) == s[i..j]
    ensures forall k :: 0 <= k < i ==> IsJsWhitespace(s[k])
    ensures forall k :: j <= k < |s| ==> IsJsWhitespace(s[k])
    ensures Trim(s) == [] || (!IsJsWhitespace(Trim(s)[0]) && !IsJsWhitespace(Trim(s)[|Trim(s)| - 1]))
  {
    i := TrimStartCuts(s);
    var t := s[i..];
    var e := TrimEndCuts(t);
    j := i + e;
    assert t[..e] == s[i..j];
    forall k | j <= k < |s| ensures IsJsWhitespace(s[k]) {
      assert s[k] == t[k - i];
    }
    if e > 0 {
      assert Trim(s)[0] == t[0];
    }
  }

  /** A string with no white space at either end is its own trim. */
  lemma TrimOfTrimmed(s: string)
    requires s == [] || (!IsJsWhitespace(s[0]) && !IsJsWhitespace(s[|s| - 1]))
    ensures Trim(s) == s
  {
    TrimStartNoLeading(s);
    TrimEndNoTrailing(s);
  }

  lemma TrimIdempotent(s: string)
    ensures Trim(Trim(s)) == Trim(s)
  {
    var _, _ := TrimBounds(s);
    TrimOfTrimmed(Trim(s));
  }

  /** Removing every occurrence of one character: `s.replace(/c/g, '')`. */
  function RemoveChar(s: string, c: char): (r: string)
    ensures forall i :: 0 <= i < |r| ==> r[i] != c
    ensures forall i :: 0 <= i < |r| ==> r[i] in s
    ensures c !in s ==> r == s
  {
    if s == [] then []
    else if s[0] == c then RemoveChar(s[1..], c)
    else [s[0]] + RemoveChar(s[1..], c)
  }

  // ---------------------------------------------------------------------
  // `split` on a one-character separator, and its inverse `join`

  /** `s.split(sep)`: the pieces between separators, with empty pieces kept,
      so `""` splits into `[""]` and a trailing separator adds a final `""`. */
  function Split(s: string, sep: char): (r: seq<string>)
    ensures |r| >= 1
    decreases |s|
  {
    if |s| == 0 then [""]
    else if s[0] == sep then [""] + Split(s[1..], sep)
    else var rest := Split(s[1..], sep); [[s[0]] + rest[0]] + rest[1..]
  }

  /** `pieces.join(sep)`. */
  function Join(pieces: seq<string>, sep: char): (r: string)
    requires |pieces| >= 1
    decreases |pieces|
  {
    if |pieces| == 1 then pieces[0] else pieces[0] + [sep] + Join(pieces[1..], sep)
  }

  /** No piece of a split holds the separator. */
  lemma {:induction false} SplitPiecesHaveNoSep(s: string, sep: char)
    ensures forall k :: 0 <= k < |Split(s, sep)| ==> sep !in Split(s, sep)[k]
    decreases |s|
  {
    if |s| > 0 {
      SplitPiecesHaveNoSep(s[1..], sep);
    }
  }

  /** A string without the separator splits into itself alone. */
  lemma {:induction false} SplitNoSep(s: string, sep: char)
    requires sep !in s
    ensures Split(s, sep) == [s]
    decreases |s|
  {
    if |s| > 0 {
      SplitNoSep(s[1..], sep);
      assert [s[0]] + s[1..] == s;
    }
  }

  /** The first piece runs up to the first separator; the rest is the split
      of what follows it. */
  lemma {:induction false} SplitAtSep(a: string, b: string, sep: char)
    requires sep !in a
    ensures Split(a + [sep] + b, sep) == [a] + Split(b, sep)
    decreases |a|
  {
    var s := a + [sep] + b;
    if |a| == 0 {
      assert s[0] == sep && s[1..] == b;
    } else {
      assert s[0] == a[0] && s[1..] == a[1..] + [sep] + b;
      SplitAtSep(a[1..], b, sep);
      assert [a[0]] + a[1..] == a;
    }
  }

  /** Joining the pieces of a split with the same separator gives back the string. */
  lemma {:induction false} JoinSplit(s: string, sep: char)
    ensures Join(Split(s, sep), sep) == s
    decreases |s|
  {
    if |s| == 0 {
    } else if s[0] == sep {
      JoinSplit(s[1..], sep);
      assert Split(s, sep)[1..] == Split(s[1..], sep);
    } else {
      var rest := Split(s[1..], sep);
      JoinSplit(s[1..], sep);
      var r := Split(s, sep);
      if |rest| == 1 {
        assert r == [[s[0]] + rest[0]];
      } else {
        assert r[1..] == rest[1..];
        assert Join(rest, sep) == rest[0] + [sep] + Join(rest[1..], sep);
      }
    }
  }

  /** Number of occurrences of `c` in `s`. */
  function Count(s: string, c: char): nat
  {
    if s == [] then 0 else (if s[0] == c then 1 else 0) + Count(s[1..], c)
  }

  /** A split yields one piece more than there are separators. */
  lemma {:induction false} SplitLength(s: string, sep: char)
    ensures |Split(s, sep)| == Count(s, sep) + 1
    decreases |s|
  {
    if |s| > 0 {
      SplitLength(s[1..], sep);
    }
  }

  /** The last piece of a split, what `split(sep).pop()` returns. */
  function LastPiece(s: string, sep: char): (r: string)
  {
    var pieces := Split(s, sep);
    pieces[|pieces| - 1]
  }

  /** `r` is the text of `s` after its last `sep`, or all of `s` when it has none. */
  predicate IsLastSegment(r: string, s: string, sep: char)
  {
    |r| <= |s| && r == s[|s| - |r|..] && sep !in r
    && (|r| == |s| || s[|s| - |r| - 1] == sep)
  }

  /** The last piece is the text after the last separator, or the whole
      string when there is none. */
  lemma {:induction false} LastPieceIsSuffix(s: string, sep: char)
    ensures IsLastSegment(LastPiece(s, sep), s, sep)
    decreases |s|
  {
    SplitPiecesHaveNoSep(s, sep);
    if |s| > 0 {
      var tail := s[1..];
      LastPieceIsSuffix(tail, sep);
      var rest := Split(tail, sep);
      if s[0] == sep {
        LastSegmentExtend(LastPiece(tail, sep), s, sep);
      } else if |rest| == 1 {
        JoinSplit(tail, sep);
        assert Split(s, sep) == [[s[0]] + rest[0]];
      } else {
        assert LastPiece(s, sep) == LastPiece(tail, sep);
        JoinSplit(tail, sep);
        JoinLast(rest, sep);
        LastSegmentExtend(LastPiece(tail, sep), s, sep);
      }
    }
  }

  /** A string has only one last segment. */
  lemma LastSegmentUnique(r: string, q: string, s: string, sep: char)
    requires IsLastSegment(r, s, sep) && IsLastSegment(q, s, sep)
    ensures r == q
  {
  }

  /** What follows a separator, when it holds no separator itself, is the last piece. */
  lemma LastPieceAfterSep(a: string, b: string, sep: char)
    requires sep !in b
    ensures LastPiece(a + [sep] + b, sep) == b
  {
    var s := a + [sep] + b;
    LastPieceIsSuffix(s, sep);
    assert s[|s| - |b|..] == b;
    assert s[|s| - |b| - 1] == sep;
    LastSegmentUnique(LastPiece(s, sep), b, s, sep);
  }

  lemma LastSegmentExtend(r: string, s: string, sep: char)
    requires |s| > 0 && IsLastSegment(r, s[1..], sep)
    requires |r| < |s| - 1 || s[0] == sep
    ensures IsLastSegment(r, s, sep)
  {
    assert s[1..][|s| - 1 - |r|..] == s[|s| - |r|..];
    if |r| < |s| - 1 {
      assert s[1..][|s| - 1 - |r| - 1] == s[|s| - |r| - 1];
    }
  }

  lemma {:induction false} JoinLast(pieces: seq<string>, sep: char)
    requires |pieces| >= 2
    ensures |Join(pieces, sep)| > |pieces[|pieces| - 1]|
    decreases |pieces|
  {
    if |pieces| > 2 {
      JoinLast(pieces[1..], sep);
    }
  }

  // ---------------------------------------------------------------------
  // Global replacement of maximal runs: `s.replace(/x+/g, rep)`

  /** Every maximal run of characters satisfying `p` replaced by the single
      character `rep`; everything else kept in order. The replacement is
      emitted at the last character of each run. */
  function ReplaceRuns(s: string, p: char -> bool, rep: char): (r: string)
  {
    if s == [] then []
    else
      var head := if !p(s[0]) then [s[0]] else if |s| > 1 && p(s[1]) then [] else [rep];
      head + ReplaceRuns(s[1..], p, rep)
  }

  /** The output starts with the input's first character when that one is not in a run. */
  lemma ReplaceRunsHead(s: string, p: char -> bool, rep: char)
    requires s != [] && !p(s[0])
    ensures ReplaceRuns(s, p, rep) != [] && ReplaceRuns(s, p, rep)[0] == s[0]
  {
  }

  /** Characters of the output are `rep` or characters of the input outside the runs. */
  lemma {:induction false} ReplaceRunsChars(s: string, p: char -> bool, rep: char)
    ensures forall i :: 0 <= i < |ReplaceRuns(s, p, rep)| ==>
      ReplaceRuns(s, p, rep)[i] == rep || (ReplaceRuns(s, p, rep)[i] in s && !p(ReplaceRuns(s, p, rep)[i]))
  {
    if s != [] {
      ReplaceRunsChars(s[1..], p, rep);
    }
  }

  /** When `rep` itself satisfies `p`, the output never holds `rep` twice in a row. */
  lemma {:induction false} ReplaceRunsNoDoubleRep(s: string, p: char -> bool, rep: char)
    requires p(rep)
    ensures forall i :: 0 <= i < |ReplaceRuns(s, p, rep)| - 1 ==>
      !(ReplaceRuns(s, p, rep)[i] == rep && ReplaceRuns(s, p, rep)[i + 1] == rep)
  {
    if s != [] {
      ReplaceRunsNoDoubleRep(s[1..], p, rep);
      if p(s[0]) && |s| > 1 && !p(s[1]) {
        ReplaceRunsHead(s[1..], p, rep);
      }
    }
  }

  /** A string with no character satisfying `p` is left as it is. */
  lemma {:induction false} ReplaceRunsNoRun(s: string, p: char -> bool, rep: char)
    requires forall i :: 0 <= i < |s| ==> !p(s[i])
    ensures ReplaceRuns(s, p, rep) == s
  {
    if s != [] {
      ReplaceRunsNoRun(s[1..], p, rep);
    }
  }

  /** A string whose runs are already single `rep` characters is left as it is. */
  lemma {:induction false} ReplaceRunsSingleRuns(s: string, p: char -> bool, rep: char)
    requires forall i :: 0 <= i < |s| ==> (p(s[i]) <==> s[i] == rep)
    requires forall i :: 0 <= i < |s| - 1 ==> !(p(s[i]) && p(s[i + 1]))
    ensures ReplaceRuns(s, p, rep) == s
  {
    if s != [] {
      ReplaceRunsSingleRuns(s[1..], p, rep);
    }
  }

  // ---------------------------------------------------------------------
  // Keeping only some characters

  function KeepChars(s: string, keep: char -> bool): (r: string)
    ensures forall i :: 0 <= i < |r| ==> keep(r[i]) && r[i] in s
    ensures |r| <= |s|
  {
    if s == [] then []
    else if keep(s[0]) then [s[0]] + KeepChars(s[1..], keep)
    else KeepChars(s[1..], keep)
  }

  /** Keeping with a stronger test after a weaker one is keeping with the stronger test. */
  lemma {:induction false} KeepCharsNarrow(s: string, wide: char -> bool, narrow: char -> bool)
    requires forall c :: narrow(c) ==> wide(c)
    ensures KeepChars(KeepChars(s, wide), narrow) == KeepChars(s, narrow)
    decreases |s|
  {
    if s != [] {
      KeepCharsNarrow(s[1..], wide, narrow);
    }
  }

  /** Keeping every character changes nothing. */
  lemma {:induction false} KeepCharsAll(s: string, keep: char -> bool)
    requires forall i :: 0 <= i < |s| ==> keep(s[i])
    ensures KeepChars(s, keep) == s
    decreases |s|
  {
    if s != [] {
      KeepCharsAll(s[1..], keep);
    }
  }

  /** Run replacement does not disturb the characters a test keeps, provided
      neither the runs nor `rep` pass that test. */
  lemma {:induction false} KeepCharsReplaceRuns(s: string, p: char -> bool, rep: char, keep: char -> bool)
    requires forall c :: p(c) ==> !keep(c)
    requires !keep(rep)
    ensures KeepChars(ReplaceRuns(s, p, rep), keep) == KeepChars(s, keep)
  {
    if s != [] {
      KeepCharsReplaceRuns(s[1..], p, rep, keep);
      var head := if !p(s[0]) then [s[0]] else if |s| > 1 && p(s[1]) then [] else [rep];
      KeepCharsAppend(head, ReplaceRuns(s[1..], p, rep), keep);
    }
  }

  lemma {:induction false} KeepCharsAppend(a: string, b: string, keep: char -> bool)
    ensures KeepChars(a + b, keep) == KeepChars(a, keep) + KeepChars(b, keep)
  {
    if a != [] {
      KeepCharsAppend(a[1..], b, keep);
      assert (a + b)[1..] == a[1..] + b;
    } else {
      assert a + b == b;
    }
  }
}
