/**
 * The string primitives of JavaScript that the application's logic is built
 * from: `toLowerCase`, `includes`, `indexOf`, `split`, `trim`,
 * `replace(/\s+/g, r)`, `padStart` and the decimal rendering of a
 * non-negative integer.  Strings are sequences of characters.
 */
module Text {
  import opened Wrappers

  /** The two-character sequence backslash, `n` that the source writes as "\\n". */
  const BackslashN: string := "\\n"

  // ---------------------------------------------------------------------------
  // Characters
  // ---------------------------------------------------------------------------

  /** The characters removed by `String.prototype.trim` and matched by `\s`. */
  predicate IsWhitespace(c: char) {
    || c == '\t' || c == '\n' || c == '\U{000B}' || c == '\U{000C}' || c == '\r'
    || c == ' ' || c == '\U{00A0}' || c == '\U{1680}'
    || ('\U{2000}' <= c <= '\U{200A}')
    || c == '\U{2028}' || c == '\U{2029}' || c == '\U{202F}' || c == '\U{205F}'
    || c == '\U{3000}' || c == '\U{FEFF}'
  }

  predicate IsDigit(c: char) {
    '0' <= c <= '9'
  }

  /** Lower-cases the letters A to Z and leaves every other character alone. */
  function LowerChar(c: char): (r: char)
    ensures 'A' <= c <= 'Z' ==> 'a' <= r <= 'z' && r as int == c as int + 32
    ensures !('A' <= c <= 'Z') ==> r == c
  {
    if 'A' <= c <= 'Z' then (c as int + 32) as char else c
  }

  /** `s.toLowerCase()`, character by character. */
  function ToLower(s: string): (r: string)
    ensures |r| == |s|
    ensures forall i :: 0 <= i < |s| ==> r[i] == LowerChar(s[i])
    ensures forall i :: 0 <= i < |r| ==> !('A' <= r[i] <= 'Z')
  {
    seq(|s|, i requires 0 <= i < |s| => LowerChar(s[i]))
  }

  predicate IsLower(s: string) {
    forall i :: 0 <= i < |s| ==> !('A' <= s[i] <= 'Z')
  }

  /** Lower-casing twice is lower-casing once, and lower-case text is left alone. */
  lemma LowerIdempotent(s: string)
    ensures ToLower(ToLower(s)) == ToLower(s)
    ensures IsLower(s) ==> ToLower(s) == s
  {
    assert forall i :: 0 <= i < |s| ==> LowerChar(LowerChar(s[i])) == LowerChar(s[i]);
  }

  // ---------------------------------------------------------------------------
  // Searching: includes, indexOf
  // ---------------------------------------------------------------------------

  /** `sub` occurs in `s` starting at index `i`. */
  predicate OccursAt(s: string, sub: string, i: nat) {
    i + |sub| <= |s| && s[i..i + |sub|] == sub
  }

  /** `s.includes(sub)`. */
  predicate Contains(s: string, sub: string) {
    exists i | 0 <= i <= |s| - |sub| :: OccursAt(s, sub, i)
  }

  /**
   * `s.indexOf(sub, k)`: the first index at or after `k` where `sub` occurs,
   * or None when it occurs nowhere from `k` on.
   */
  function IndexOfFrom(s: string, sub: string, k: nat): (r: Option<nat>)
    decreases |s| - k
    ensures r.Some? ==> k <= r.value && OccursAt(s, sub, r.value)
    ensures r.Some? ==> forall j :: k <= j < r.value ==> !OccursAt(s, sub, j)
    ensures r.None? ==> forall j :: k <= j ==> !OccursAt(s, sub, j)
  {
    if k + |sub| > |s| then None
    else if s[k..k + |sub|] == sub then Some(k)
    else IndexOfFrom(s, sub, k + 1)
  }

  function IndexOf(s: string, sub: string): (r: Option<nat>)
    ensures r.Some? <==> Contains(s, sub)
    ensures r.Some? ==> OccursAt(s, sub, r.value) && forall j: nat :: j < r.value ==> !OccursAt(s, sub, j)
  {
    var r := IndexOfFrom(s, sub, 0);
    if r.Some? then
      assert OccursAt(s, sub, r.value);
      r
    else
      assert !Contains(s, sub) by {
        forall i | 0 <= i <= |s| - |sub| ensures !OccursAt(s, sub, i) { }
      }
      r
  }

  /** Every string contains the empty string, so an empty query matches everything. */
  lemma ContainsEmpty(s: string)
    ensures Contains(s, "")
  {
    assert OccursAt(s, "", 0);
  }

  // ---------------------------------------------------------------------------
  // split and its inverse
  // ---------------------------------------------------------------------------

  /**
   * `s.split(sep)` for a non-empty separator: the pieces between the
   * occurrences of `sep`, scanned left to right without overlap.
   */
  function Split(s: string, sep: string): (parts: seq<string>)
    requires sep != []
    decreases |s|
    ensures |parts| >= 1
  {
    var idx := IndexOf(s, sep);
    if idx.None? then [s]
    else [s[..idx.value]] + Split(s[idx.value + |sep|..], sep)
  }

  /** No piece of a split contains the separator. */
  lemma {:induction false} SplitPiecesFree(s: string, sep: string)
    requires sep != []
    decreases |s|
    ensures forall k :: 0 <= k < |Split(s, sep)| ==> !Contains(Split(s, sep)[k], sep)
  {
    var idx := IndexOf(s, sep);
    if idx.Some? {
      var i := idx.value;
      var rest := s[i + |sep|..];
      SplitPiecesFree(rest, sep);
      forall j | 0 <= j <= i - |sep| ensures !OccursAt(s[..i], sep, j) {
        assert !OccursAt(s, sep, j);
        assert s[..i][j..j + |sep|] == s[j..j + |sep|];
      }
      assert Split(s, sep) == [s[..i]] + Split(rest, sep);
    }
  }

  /** `parts.join(sep)`. */
  function Join(parts: seq<string>, sep: string): string
    requires |parts| >= 1
  {
    if |parts| == 1 then parts[0] else parts[0] + sep + Join(parts[1..], sep)
  }

  /** Joining the pieces of a split with the same separator gives back the text. */
  lemma {:induction false} SplitJoin(s: string, sep: string)
    requires sep != []
    decreases |s|
    ensures Join(Split(s, sep), sep) == s
  {
    var idx := IndexOf(s, sep);
    if idx.Some? {
      var i := idx.value;
      SplitJoin(s[i + |sep|..], sep);
      JoinAroundSeparator(s, sep, i, Split(s[i + |sep|..], sep));
    }
  }

  /** One step of SplitJoin: the text is its part before `i`, the separator, and the rest. */
  lemma JoinAroundSeparator(s: string, sep: string, i: nat, tail: seq<string>)
    requires sep != [] && OccursAt(s, sep, i) && |tail| >= 1
    requires Join(tail, sep) == s[i + |sep|..]
    ensures Join([s[..i]] + tail, sep) == s
  {
    var parts := [s[..i]] + tail;
    assert parts[0] == s[..i] && parts[1..] == tail;
    SliceThree(s, i, i + |sep|);
  }

  lemma SliceThree(s: string, i: nat, k: nat)
    requires i <= k <= |s|
    ensures s == s[..i] + s[i..k] + s[k..]
  {
  }

  /** A split has a second piece exactly when the separator occurs. */
  lemma SplitHasSecond(s: string, sep: string)
    requires sep != []
    ensures |Split(s, sep)| >= 2 <==> Contains(s, sep)
  {
  }

  /** The first piece of a split is the text before the first separator, or all of it. */
  lemma SplitFirst(s: string, sep: string)
    requires sep != []
    ensures IndexOf(s, sep).None? ==> Split(s, sep)[0] == s
    ensures IndexOf(s, sep).Some? ==> Split(s, sep)[0] == s[..IndexOf(s, sep).value]
  {
  }

  // ---------------------------------------------------------------------------
  // trim
  // ---------------------------------------------------------------------------

  /** `s.trimStart()`: drops the leading white space. */
  function TrimStart(s: string): (r: string)
    ensures |r| <= |s| && r == s[|s| - |r|..]
    ensures forall i :: 0 <= i < |s| - |r| ==> IsWhitespace(s[i])
    ensures r == [] || !IsWhitespace(r[0])
  {
    if |s| > 0 && IsWhitespace(s[0]) then TrimStart(s[1..]) else s
  }

  /** `s.trimEnd()`: drops the trailing white space. */
  function TrimEnd(s: string): (r: string)
    ensures |r| <= |s| && r == s[..|r|]
    ensures forall i :: |r| <= i < |s| ==> IsWhitespace(s[i])
    ensures r == [] || !IsWhitespace(r[|r| - 1])
  {
    if |s| > 0 && IsWhitespace(s[|s| - 1]) then TrimEnd(s[..|s| - 1]) else s
  }

  /**
   * `s.trim()`: the slice of `s` left after removing white space at both ends;
   * everything before and after the slice is white space.
   */
  function Trim(s: string): (r: string)
    ensures r == [] || (!IsWhitespace(r[0]) && !IsWhitespace(r[|r| - 1]))
    ensures exists i :: 0 <= i <= |s| - |r| && OccursAt(s, r, i) && Blank(s[..i]) && Blank(s[i + |r|..])
  {
    var t := TrimStart(s);
    var r := TrimEnd(t);
    TrimmedSlice(s, t, r, |s| - |t|);
    r
  }

  /** A prefix `r` of the suffix `t == s[i..]` is a slice of `s` with only white space outside it. */
  lemma TrimmedSlice(s: string, t: string, r: string, i: nat)
    requires i <= |s| && t == s[i..] && |r| <= |t| && r == t[..|r|]
    requires forall k :: 0 <= k < i ==> IsWhitespace(s[k])
    requires forall k :: |r| <= k < |t| ==> IsWhitespace(t[k])
    ensures OccursAt(s, r, i) && Blank(s[..i]) && Blank(s[i + |r|..])
  {
    assert s[i + |r|..] == t[|r|..];
  }

  /** Every character of `s` is white space. */
  predicate Blank(s: string) {
    forall i :: 0 <= i < |s| ==> IsWhitespace(s[i])
  }

  /** Trimming is idempotent. */
  lemma TrimIdempotent(s: string)
    ensures Trim(Trim(s)) == Trim(s)
  {
    var r := Trim(s);
    if r != [] {
      assert TrimStart(r) == r;
      assert TrimEnd(r) == r;
    }
  }

  /** A string trims to nothing exactly when it is all white space. */
  lemma TrimEmptyIffBlank(s: string)
    ensures Trim(s) == [] <==> forall i :: 0 <= i < |s| ==> IsWhitespace(s[i])
  {
    var t := TrimStart(s);
    if forall i :: 0 <= i < |s| ==> IsWhitespace(s[i]) {
    } else {
      var k :| 0 <= k < |s| && !IsWhitespace(s[k]);
      assert t != [] && !IsWhitespace(t[0]);
    }
  }

  // ---------------------------------------------------------------------------
  // replace(/\s+/g, by)
  // ---------------------------------------------------------------------------

  /** `s.replace(/\s+/g, by)`: every maximal run of white space becomes `replacement`. */
  function ReplaceWhitespaceRuns(s: string, replacement: string): (r: string)
    decreases |s|
  {
    if s == [] then []
    else if IsWhitespace(s[0]) then replacement + ReplaceWhitespaceRuns(TrimStart(s), replacement)
    else [s[0]] + ReplaceWhitespaceRuns(s[1..], replacement)
  }

  predicate NoWhitespace(s: string) {
    forall i :: 0 <= i < |s| ==> !IsWhitespace(s[i])
  }

  /** With a replacement free of white space, the result is free of white space. */
  lemma {:induction false} ReplaceWhitespaceRunsClean(s: string, replacement: string)
    requires NoWhitespace(replacement)
    decreases |s|
    ensures NoWhitespace(ReplaceWhitespaceRuns(s, replacement))
  {
    if s == [] {
    } else if IsWhitespace(s[0]) {
      ReplaceWhitespaceRunsClean(TrimStart(s), replacement);
    } else {
      ReplaceWhitespaceRunsClean(s[1..], replacement);
    }
  }

  /** Text without white space is left exactly as it is. */
  lemma {:induction false} ReplaceWhitespaceRunsIdentity(s: string, replacement: string)
    requires NoWhitespace(s)
    decreases |s|
    ensures ReplaceWhitespaceRuns(s, replacement) == s
  {
    if s != [] {
      ReplaceWhitespaceRunsIdentity(s[1..], replacement);
    }
  }

  /** Dropping the leading run `w` of white space leaves the text after it, when that text does not start with white space. */
  lemma TrimStartRun(w: string, b: string)
    requires Blank(w)
    requires b == [] || !IsWhitespace(b[0])
    ensures TrimStart(w + b) == b
  {
    var s := w + b;
    assert b != [] ==> s[|w|] == b[0];
  }

  /**
   * A white-space run between a white-space-free prefix `a` and a suffix `b`
   * that does not start with white space becomes one copy of the replacement.
   */
  lemma {:induction false} ReplaceWhitespaceRunsRun(a: string, w: string, b: string, replacement: string)
    requires NoWhitespace(a)
    requires w != [] && Blank(w)
    requires b == [] || !IsWhitespace(b[0])
    decreases |a|
    ensures ReplaceWhitespaceRuns(a + w + b, replacement) == a + replacement + ReplaceWhitespaceRuns(b, replacement)
  {
    if a == [] {
      assert a + w + b == w + b;
      ReplaceWhitespaceRunsLeadingRun(w, b, replacement);
    } else {
      var s := a + w + b;
      assert s[0] == a[0] && s[1..] == a[1..] + w + b;
      ReplaceWhitespaceRunsRun(a[1..], w, b, replacement);
      ReplaceWhitespaceRunsCleanHead(s, replacement);
      assert a == [a[0]] + a[1..];
    }
  }

  /** A leading white-space run becomes one copy of the replacement. */
  lemma ReplaceWhitespaceRunsLeadingRun(w: string, b: string, replacement: string)
    requires w != [] && Blank(w)
    requires b == [] || !IsWhitespace(b[0])
    ensures ReplaceWhitespaceRuns(w + b, replacement) == replacement + ReplaceWhitespaceRuns(b, replacement)
  {
    assert (w + b)[0] == w[0];
    TrimStartRun(w, b);
  }

  /** A character that is not white space is copied as it is. */
  lemma ReplaceWhitespaceRunsCleanHead(s: string, replacement: string)
    requires s != [] && !IsWhitespace(s[0])
    ensures ReplaceWhitespaceRuns(s, replacement) == [s[0]] + ReplaceWhitespaceRuns(s[1..], replacement)
  {
  }

  /** The result is empty only for empty input (when the replacement is not empty). */
  lemma ReplaceWhitespaceRunsEmpty(s: string, replacement: string)
    requires replacement != []
    ensures ReplaceWhitespaceRuns(s, replacement) == [] <==> s == []
  {
  }

  // ---------------------------------------------------------------------------
  // Numbers as text
  // ---------------------------------------------------------------------------

  function DigitChar(d: nat): (c: char)
    requires d < 10
    ensures IsDigit(c) && c as int - '0' as int == d
  {
    (d + '0' as int) as char
  }

  /** `String(n)` for a non-negative integer: its decimal digits, without leading zeros. */
  function NatToString(n: nat): (r: string)
    decreases n
    ensures |r| >= 1 && AllDigits(r)
    ensures |r| > 1 ==> r[0] != '0'
  {
    if n < 10 then [DigitChar(n)] else NatToString(n / 10) + [DigitChar(n % 10)]
  }

  predicate AllDigits(s: string) {
    forall i :: 0 <= i < |s| ==> IsDigit(s[i])
  }

  /** The number a string of decimal digits denotes. */
  function DigitsValue(s: string): nat
    requires AllDigits(s)
  {
    if s == [] then 0 else DigitsValue(s[..|s| - 1]) * 10 + (s[|s| - 1] as int - '0' as int)
  }

  /** Reading back the decimal rendering of `n` gives `n`. */
  lemma {:induction false} NatToStringRoundTrip(n: nat)
    decreases n
    ensures DigitsValue(NatToString(n)) == n
  {
    if n >= 10 {
      NatToStringRoundTrip(n / 10);
      var r := NatToString(n);
      assert r[..|r| - 1] == NatToString(n / 10);
    }
  }

  /** Distinct numbers render differently. */
  lemma NatToStringInjective(m: nat, n: nat)
    ensures NatToString(m) == NatToString(n) ==> m == n
  {
    NatToStringRoundTrip(m);
    NatToStringRoundTrip(n);
  }

  /** `s.padStart(width, [pad])`. */
  function PadStart(s: string, width: nat, pad: char): (r: string)
    decreases width - |s|
    ensures |s| >= width ==> r == s
    ensures |s| < width ==> |r| == width && r[width - |s|..] == s
    ensures forall i :: 0 <= i < |r| - |s| ==> r[i] == pad
  {
    if |s| >= width then s else PadStart([pad] + s, width, pad)
  }
}
