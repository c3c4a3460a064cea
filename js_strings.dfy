/**
 * The JavaScript string and array primitives the core relies on:
 * `String.prototype.trim`, `split` (string separator and a character-class
 * regular expression), `Array.prototype.join`, `slice`, `reverse`, `indexOf`.
 */
module JsStrings {
  import opened Wrappers

  /** The characters `String.prototype.trim` removes (white space and line terminators). */
  predicate IsWhitespace(c: char) {
    c == ' ' || c == '\t' || c == '\n' || c == '\r' || c == '\U{000B}' || c == '\U{000C}'
    || c == '\U{00A0}' || c == '\U{1680}' || ('\U{2000}' <= c <= '\U{200A}')
    || c == '\U{2028}' || c == '\U{2029}' || c == '\U{202F}' || c == '\U{205F}'
    || c == '\U{3000}' || c == '\U{FEFF}'
  }

  /** Leading white space removed. */
  function TrimStart(s: string): (r: string)
    ensures |r| <= |s| && r == s[|s| - |r|..]
    ensures forall i :: 0 <= i < |s| - |r| ==> IsWhitespace(s[i])
    ensures r == [] || !IsWhitespace(r[0])
  {
    if |s| > 0 && IsWhitespace(s[0]) then TrimStart(s[1..]) else s
  }

  /** Trailing white space removed. */
  function TrimEnd(s: string): (r: string)
    ensures |r| <= |s| && r == s[..|r|]
    ensures forall i :: |r| <= i < |s| ==> IsWhitespace(s[i])
    ensures r == [] || !IsWhitespace(r[|r| - 1])
  {
    if |s| > 0 && IsWhitespace(s[|s| - 1]) then TrimEnd(s[..|s| - 1]) else s
  }

  /** `r` is `s` with exactly the white space before position `i` and after `i + |r|` removed. */
  predicate TrimmedAt(s: string, r: string, i: nat) {
    && i + |r| <= |s| && r == s[i..i + |r|]
    && (forall j :: 0 <= j < i ==> IsWhitespace(s[j]))
    && (forall j :: i + |r| <= j < |s| ==> IsWhitespace(s[j]))
  }

  /** `s.trim()`: the infix of `s` left once white space is removed from both ends (see
      `TrimRemovesOnlyWhitespace`). */
  function Trim(s: string): (r: string)
    ensures r == [] || (!IsWhitespace(r[0]) && !IsWhitespace(r[|r| - 1]))
  {
    TrimEnd(TrimStart(s))
  }

  /** `trim` removes white space at both ends and nothing else. */
  lemma TrimRemovesOnlyWhitespace(s: string)
    ensures exists i :: TrimmedAt(s, Trim(s), i)
  {
    var t := TrimStart(s);
    TrimmedAtSlices(s, t, TrimEnd(t));
    assert Trim(s) == TrimEnd(t);
    assert TrimmedAt(s, Trim(s), |s| - |t|);
  }

  /** A white-space-free-ended suffix of `s` cut down to a prefix is trimmed at its start. */
  lemma TrimmedAtSlices(s: string, t: string, r: string)
    requires |t| <= |s| && t == s[|s| - |t|..]
    requires forall j :: 0 <= j < |s| - |t| ==> IsWhitespace(s[j])
    requires |r| <= |t| && r == t[..|r|]
    requires forall k :: |r| <= k < |t| ==> IsWhitespace(t[k])
    ensures TrimmedAt(s, r, |s| - |t|)
  {
    var i := |s| - |t|;
    assert r == s[i..i + |r|];
    forall j | i + |r| <= j < |s| ensures IsWhitespace(s[j]) {
      assert s[j] == t[j - i];
    }
  }

  /** Trimming is the identity on a string with no white space at either end. */
  lemma TrimNoop(s: string)
    requires s == [] || (!IsWhitespace(s[0]) && !IsWhitespace(s[|s| - 1]))
    ensures Trim(s) == s
  {
  }

  /** Leading white space in front of text that does not start with white space is all
      that `TrimStart` removes. */
  lemma {:induction false} TrimStartLeading(pre: string, t: string)
    requires forall j :: 0 <= j < |pre| ==> IsWhitespace(pre[j])
    requires t == [] || !IsWhitespace(t[0])
    ensures TrimStart(pre + t) == t
    decreases |pre|
  {
    if pre != [] {
      assert (pre + t)[1..] == pre[1..] + t;
      TrimStartLeading(pre[1..], t);
    }
  }

  /** Trailing white space after text that does not end with white space is all that
      `TrimEnd` removes. */
  lemma {:induction false} TrimEndTrailing(t: string, post: string)
    requires forall j :: 0 <= j < |post| ==> IsWhitespace(post[j])
    requires t == [] || !IsWhitespace(t[|t| - 1])
    ensures TrimEnd(t + post) == t
    decreases |post|
  {
    if post != [] {
      var n := |post| - 1;
      assert (t + post)[..|t + post| - 1] == t + post[..n];
      TrimEndTrailing(t, post[..n]);
    } else {
      assert t + post == t;
    }
  }

  /** Trimming text surrounded only by white space leaves the text. */
  lemma TrimAround(pre: string, t: string, post: string)
    requires forall j :: 0 <= j < |pre| ==> IsWhitespace(pre[j])
    requires forall j :: 0 <= j < |post| ==> IsWhitespace(post[j])
    requires t != [] && !IsWhitespace(t[0]) && !IsWhitespace(t[|t| - 1])
    ensures Trim(pre + t + post) == t
  {
    assert pre + t + post == pre + (t + post);
    TrimStartLeading(pre, t + post);
    TrimEndTrailing(t, post);
  }

  /** Trimming text that only has whitespace in front of it leaves the text. */
  lemma TrimLeading(pre: string, t: string)
    requires forall j :: 0 <= j < |pre| ==> IsWhitespace(pre[j])
    requires t == [] || (!IsWhitespace(t[0]) && !IsWhitespace(t[|t| - 1]))
    ensures Trim(pre + t) == t
  {
    TrimStartLeading(pre, t);
  }

  /** `sub` occurs in `s` at position `i`. */
  predicate OccursAt(s: string, sub: string, i: nat) {
    i + |sub| <= |s| && s[i..i + |sub|] == sub
  }

  function IndexOfFrom(s: string, sub: string, from: nat): (r: Option<nat>)
    requires from <= |s|
    ensures r.Some? ==> from <= r.value && OccursAt(s, sub, r.value)
    ensures r.Some? ==> forall j :: from <= j < r.value ==> !OccursAt(s, sub, j)
    ensures r.None? ==> forall j :: from <= j <= |s| ==> !OccursAt(s, sub, j)
    decreases |s| - from
  {
    if OccursAt(s, sub, from) then Some(from)
    else if from == |s| then None
    else IndexOfFrom(s, sub, from + 1)
  }

  /** `s.indexOf(sub)`, with `None` for -1: the first position where `sub` occurs. */
  function IndexOf(s: string, sub: string): (r: Option<nat>)
    ensures r.Some? ==> OccursAt(s, sub, r.value) && forall j :: 0 <= j < r.value ==> !OccursAt(s, sub, j)
    ensures r.None? ==> forall j :: 0 <= j <= |s| ==> !OccursAt(s, sub, j)
  {
    IndexOfFrom(s, sub, 0)
  }

  /** `s.indexOf(sub) > -1`. */
  predicate Contains(s: string, sub: string) {
    IndexOf(s, sub).Some?
  }

  /** A string without an occurrence of a one-character string lacks that character. */
  lemma NotContainsChar(s: string, c: char)
    requires !Contains(s, [c])
    ensures c !in s
  {
    forall j | 0 <= j < |s| ensures s[j] != c {
      assert !OccursAt(s, [c], j);
      assert s[j..j + 1] == [s[j]];
    }
  }

  /** `parts.join(sep)`. */
  function Join(parts: seq<string>, sep: string): (r: string)
    ensures parts == [] ==> r == []
    ensures |parts| == 1 ==> r == parts[0]
  {
    if |parts| == 0 then []
    else if |parts| == 1 then parts[0]
    else parts[0] + sep + Join(parts[1..], sep)
  }

  /** No occurrence of `sep` lies inside the text before its first occurrence. */
  lemma PrefixBeforeFirst(s: string, sep: string, i: nat)
    requires |sep| > 0 && OccursAt(s, sep, i)
    requires forall j :: 0 <= j < i ==> !OccursAt(s, sep, j)
    ensures !Contains(s[..i], sep)
  {
    forall j | 0 <= j <= i ensures !OccursAt(s[..i], sep, j) {
      if j + |sep| <= i {
        assert !OccursAt(s, sep, j);
        assert s[..i][j..j + |sep|] == s[j..j + |sep|];
      }
    }
  }

  /** `s.split(sep)` for a non-empty string separator: the pieces between the non-overlapping
      left-to-right occurrences of `sep`. */
  function Split(s: string, sep: string): (parts: seq<string>)
    requires |sep| > 0
    ensures |parts| >= 1
    decreases |s|
  {
    match IndexOf(s, sep)
    case None => [s]
    case Some(i) => [s[..i]] + Split(s[i + |sep|..], sep)
  }

  /** Joining the pieces of a split with the separator gives back the string. */
  lemma {:induction false} JoinSplit(s: string, sep: string)
    requires |sep| > 0
    ensures Join(Split(s, sep), sep) == s
    decreases |s|
  {
    match IndexOf(s, sep)
    case None =>
    case Some(i) =>
      var rest := Split(s[i + |sep|..], sep);
      JoinSplit(s[i + |sep|..], sep);
      assert s == s[..i] + sep + s[i + |sep|..];
      assert ([s[..i]] + rest)[1..] == rest;
  }

  /** No piece of a split holds the separator. */
  lemma {:induction false} SplitPiecesFree(s: string, sep: string)
    requires |sep| > 0
    ensures forall k :: 0 <= k < |Split(s, sep)| ==> !Contains(Split(s, sep)[k], sep)
    decreases |s|
  {
    match IndexOf(s, sep)
    case None =>
      assert Split(s, sep) == [s];
    case Some(i) =>
      var rest := Split(s[i + |sep|..], sep);
      assert Split(s, sep) == [s[..i]] + rest;
      PrefixBeforeFirst(s, sep, i);
      SplitPiecesFree(s[i + |sep|..], sep);
  }

  /** The `n`-th piece of `s` between occurrences of `sep`, found by searching from the left. */
  function Piece(s: string, sep: string, n: nat): Option<string>
    requires |sep| > 0
    decreases |s|
  {
    match IndexOf(s, sep)
    case None => if n == 0 then Some(s) else None
    case Some(i) => if n == 0 then Some(s[..i]) else Piece(s[i + |sep|..], sep, n - 1)
  }

  /** The text after the `n`-th occurrence of `sep`, if `sep` occurs `n` times. */
  function AfterNth(s: string, sep: string, n: nat): Option<string>
    requires |sep| > 0
    decreases |s|
  {
    if n == 0 then Some(s)
    else match IndexOf(s, sep)
      case None => None
      case Some(i) => AfterNth(s[i + |sep|..], sep, n - 1)
  }

  /** The text after the last occurrence of `sep` (all of `s` when there is none). */
  function AfterLast(s: string, sep: string): string
    requires |sep| > 0
    decreases |s|
  {
    match IndexOf(s, sep)
    case None => s
    case Some(i) => AfterLast(s[i + |sep|..], sep)
  }

  /** `s.split(sep)[n]` is the `n`-th piece, and is `undefined` past the last one. */
  lemma {:induction false} SplitPiece(s: string, sep: string, n: nat)
    requires |sep| > 0
    ensures var parts := Split(s, sep);
      Piece(s, sep, n) == if n < |parts| then Some(parts[n]) else None
    decreases |s|
  {
    match IndexOf(s, sep)
    case None =>
      assert Split(s, sep) == [s];
    case Some(i) =>
      var rest := Split(s[i + |sep|..], sep);
      assert Split(s, sep) == [s[..i]] + rest;
      if n > 0 {
        assert Piece(s, sep, n) == Piece(s[i + |sep|..], sep, n - 1);
        SplitPiece(s[i + |sep|..], sep, n - 1);
      }
  }

  /** `s.split(sep).slice(n).join(sep)` is everything after the `n`-th separator, or the empty
      string when there are fewer than `n` separators. */
  lemma {:induction false} SplitDropJoin(s: string, sep: string, n: nat)
    requires |sep| > 0
    ensures Join(Drop(Split(s, sep), n), sep) == AfterNth(s, sep, n).GetOr([])
    decreases |s|
  {
    if n == 0 {
      JoinSplit(s, sep);
    } else {
      match IndexOf(s, sep)
      case None =>
        assert Split(s, sep) == [s];
      case Some(i) =>
        var rest := Split(s[i + |sep|..], sep);
        assert Split(s, sep) == [s[..i]] + rest;
        assert Drop(Split(s, sep), n) == Drop(rest, n - 1);
        assert AfterNth(s, sep, n) == AfterNth(s[i + |sep|..], sep, n - 1);
        SplitDropJoin(s[i + |sep|..], sep, n - 1);
    }
  }

  /** When `pre` does not hold `c`, the first `c` of `pre + [c] + rest` is the one after
      `pre`: one more separator is passed by skipping `pre`. */
  lemma AfterFirstSep(pre: string, c: char, rest: string, n: nat)
    requires c !in pre
    ensures AfterNth(pre + [c] + rest, [c], n + 1) == AfterNth(rest, [c], n)
  {
    var s := pre + [c] + rest;
    assert OccursAt(s, [c], |pre|);
    forall j | 0 <= j < |pre| ensures !OccursAt(s, [c], j) {
      assert s[j..j + 1] == [pre[j]];
    }
    assert s[|pre| + 1..] == rest;
  }

  /** `s.split(sep).slice(-1)[0]` is the text after the last separator. */
  lemma {:induction false} SplitLast(s: string, sep: string)
    requires |sep| > 0
    ensures var parts := Split(s, sep); parts[|parts| - 1] == AfterLast(s, sep)
    decreases |s|
  {
    match IndexOf(s, sep)
    case None =>
      assert Split(s, sep) == [s];
    case Some(i) =>
      var rest := Split(s[i + |sep|..], sep);
      assert Split(s, sep) == [s[..i]] + rest;
      assert AfterLast(s, sep) == AfterLast(s[i + |sep|..], sep);
      SplitLast(s[i + |sep|..], sep);
  }

  /** Splitting on a single character inverts joining on it, when no piece holds that character. */
  lemma {:induction false} SplitJoin(parts: seq<string>, c: char)
    requires |parts| >= 1
    requires forall k :: 0 <= k < |parts| ==> c !in parts[k]
    ensures Split(Join(parts, [c]), [c]) == parts
    decreases |parts|
  {
    var s := Join(parts, [c]);
    var p := parts[0];
    forall j | 0 <= j < |p| ensures !OccursAt(s, [c], j) {
      if |parts| > 1 {
        assert s == p + [c] + Join(parts[1..], [c]);
      }
      assert s[j] == p[j];
    }
    if |parts| == 1 {
      assert !OccursAt(s, [c], |p|);
      assert IndexOf(s, [c]) == None;
      assert Split(s, [c]) == [s];
    } else {
      var rest := Join(parts[1..], [c]);
      assert s == p + [c] + rest;
      assert OccursAt(s, [c], |p|);
      assert IndexOf(s, [c]) == Some(|p|);
      assert s[..|p|] == p && s[|p| + 1..] == rest;
      assert Split(s, [c]) == [p] + Split(rest, [c]);
      SplitJoin(parts[1..], c);
      assert parts == [p] + parts[1..];
    }
  }

  /** `s.split(re)` for a regular expression that matches any one character of `seps`
      (such as `/\0|\n/`). */
  function SplitAny(s: string, seps: set<char>): (parts: seq<string>)
    ensures |parts| >= 1
    ensures forall k, j :: 0 <= k < |parts| && 0 <= j < |parts[k]| ==> parts[k][j] !in seps
  {
    if s == [] then [[]]
    else if s[0] in seps then [[]] + SplitAny(s[1..], seps)
    else
      var rest := SplitAny(s[1..], seps);
      [[s[0]] + rest[0]] + rest[1..]
  }

  /** A piece free of separators, followed by a separator, is split off as the first piece. */
  lemma {:induction false} SplitAnyFirst(a: string, c: char, b: string, seps: set<char>)
    requires c in seps
    requires forall j :: 0 <= j < |a| ==> a[j] !in seps
    ensures SplitAny(a + [c] + b, seps) == [a] + SplitAny(b, seps)
    decreases |a|
  {
    if a == [] {
      assert a + [c] + b == [c] + b;
    } else {
      assert (a + [c] + b)[1..] == a[1..] + [c] + b;
      SplitAnyFirst(a[1..], c, b, seps);
      assert [a[0]] + a[1..] == a;
    }
  }

  /** `s.slice(0, n)` for `n >= 0`. */
  function Take<T>(s: seq<T>, n: nat): (r: seq<T>)
    ensures |r| == if n <= |s| then n else |s|
    ensures r <= s
  {
    if n <= |s| then s[..n] else s
  }

  /** `s.slice(n)` for `n >= 0`. */
  function Drop<T>(s: seq<T>, n: nat): (r: seq<T>)
    ensures |r| == if n <= |s| then |s| - n else 0
    ensures Take(s, n) + r == s
  {
    if n <= |s| then s[n..] else []
  }

  /** `a.reverse()`. */
  function Reverse<T>(s: seq<T>): (r: seq<T>)
    ensures |r| == |s|
    ensures forall i :: 0 <= i < |s| ==> r[i] == s[|s| - 1 - i]
  {
    if s == [] then [] else Reverse(s[1..]) + [s[0]]
  }

  /** Reversing twice gives back the sequence. */
  lemma ReverseReverse<T>(s: seq<T>)
    ensures Reverse(Reverse(s)) == s
  {
    assert forall i :: 0 <= i < |s| ==> Reverse(Reverse(s))[i] == s[i];
  }

  predicate StartsWith(s: string, prefix: string) {
    prefix <= s
  }
}
