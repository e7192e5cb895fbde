/**
 * The Python string operations the analyzer and the suggester rely on:
 * substring tests (`t in s`), `str.split` on one separator character,
 * `str.join`, `str.strip()` and `str(n)` for a natural number, each restricted
 * to ASCII where Python's behaviour depends on Unicode tables.
 */
module Text {

  datatype Option<T> = None | Some(value: T)

  /** Python's `str.isspace()` on the ASCII range: tab, newline, vertical tab,
      form feed, carriage return, the four separator controls 0x1C..0x1F and space. */
  predicate IsSpace(c: char) {
    9 <= c as int <= 13 || 28 <= c as int <= 32
  }

  /** `t` occurs in `s` starting at index `k`. */
  predicate OccursAt(s: string, t: string, k: nat) {
    k + |t| <= |s| && s[k..k + |t|] == t
  }

  /** Python's `t in s` on strings. */
  predicate Contains(s: string, t: string) {
    exists k: nat | k <= |s| :: OccursAt(s, t, k)
  }

  /** The first index at or after `from` where `t` occurs in `s` (`s.find(t, from)`). */
  function IndexOf(s: string, t: string, from: nat): (r: Option<nat>)
    ensures r.Some? ==> from <= r.value && OccursAt(s, t, r.value)
    ensures r.Some? ==> forall k :: from <= k < r.value ==> !OccursAt(s, t, k)
    ensures r.None? ==> forall k :: from <= k ==> !OccursAt(s, t, k)
    decreases |s| - from
  {
    if from + |t| > |s| then None
    else if s[from..from + |t|] == t then Some(from)
    else IndexOf(s, t, from + 1)
  }

  /** The index of the first `c` in `s`, or `|s|` when there is none. */
  function FirstIndex(s: string, c: char): (k: nat)
    ensures k <= |s|
    ensures k < |s| ==> s[k] == c
    ensures forall m :: 0 <= m < k ==> s[m] != c
  {
    if s == [] then 0
    else if s[0] == c then 0
    else 1 + FirstIndex(s[1..], c)
  }

  /** Python's `s.split(sep)` for a one-character separator: one more piece than
      there are separators, empty pieces kept, so `""` splits into `[""]`. */
  function Split(s: string, sep: char): (pieces: seq<string>)
    ensures |pieces| >= 1
    ensures forall k :: 0 <= k < |pieces| ==> sep !in pieces[k]
    decreases |s|
  {
    var k := FirstIndex(s, sep);
    if k == |s| then [s]
    else [s[..k]] + Split(s[k + 1..], sep)
  }

  /** Python's `sep.join(parts)`. */
  function Join(parts: seq<string>, sep: string): string
  {
    if parts == [] then ""
    else if |parts| == 1 then parts[0]
    else parts[0] + sep + Join(parts[1..], sep)
  }

  /** Joining the pieces of a split with the separator gives the text back. */
  lemma {:induction false} JoinSplit(s: string, sep: char)
    ensures Join(Split(s, sep), [sep]) == s
    decreases |s|
  {
    var k := FirstIndex(s, sep);
    if k < |s| {
      var rest := s[k + 1..];
      var pieces := Split(s, sep);
      assert pieces == [s[..k]] + Split(rest, sep);
      assert pieces[1..] == Split(rest, sep);
      JoinSplit(rest, sep);
      assert Join(pieces, [sep]) == s[..k] + [sep] + rest;
      assert s == s[..k] + [sep] + rest;
    }
  }

  /** Splitting a join of separator-free pieces gives the pieces back. */
  lemma {:induction false} SplitJoin(parts: seq<string>, sep: char)
    requires |parts| >= 1
    requires forall k :: 0 <= k < |parts| ==> sep !in parts[k]
    ensures Split(Join(parts, [sep]), sep) == parts
    decreases |parts|
  {
    if |parts| == 1 {
      FirstIndexAbsent(parts[0], sep);
    } else {
      var s := Join(parts, [sep]);
      var rest := Join(parts[1..], [sep]);
      assert s == parts[0] + [sep] + rest;
      FirstIndexAfter(parts[0], sep, rest);
      assert s[..|parts[0]|] == parts[0];
      assert s[|parts[0]| + 1..] == rest;
      SplitJoin(parts[1..], sep);
    }
  }

  lemma FirstIndexAbsent(s: string, c: char)
    requires c !in s
    ensures FirstIndex(s, c) == |s|
  {
  }

  lemma FirstIndexAfter(s: string, c: char, rest: string)
    requires c !in s
    ensures FirstIndex(s + [c] + rest, c) == |s|
  {
    var t := s + [c] + rest;
    assert forall m :: 0 <= m < |s| ==> t[m] == s[m];
    assert t[|s|] == c;
  }

  /** Number of whitespace characters at the start of `s`. */
  function LeadingSpace(s: string): nat
  {
    if |s| > 0 && IsSpace(s[0]) then 1 + LeadingSpace(s[1..]) else 0
  }

  lemma {:induction false} LeadingSpaceSpec(s: string)
    ensures var n := LeadingSpace(s);
      && n <= |s|
      && (forall k :: 0 <= k < n ==> IsSpace(s[k]))
      && (n < |s| ==> !IsSpace(s[n]))
  {
    if |s| > 0 && IsSpace(s[0]) {
      LeadingSpaceSpec(s[1..]);
    }
  }

  /** Number of whitespace characters at the end of `s`. */
  function TrailingSpace(s: string): nat
  {
    if |s| > 0 && IsSpace(s[|s| - 1]) then 1 + TrailingSpace(s[..|s| - 1]) else 0
  }

  lemma {:induction false} TrailingSpaceSpec(s: string)
    ensures var n := TrailingSpace(s);
      && n <= |s|
      && (forall k :: |s| - n <= k < |s| ==> IsSpace(s[k]))
      && (n < |s| ==> !IsSpace(s[|s| - 1 - n]))
  {
    if |s| > 0 && IsSpace(s[|s| - 1]) {
      TrailingSpaceSpec(s[..|s| - 1]);
    }
  }

  /** Python's `s.strip()`: the longest infix of `s` that neither starts nor ends
      with whitespace, all of it when `s` has no whitespace margin, and `""` when
      `s` is all whitespace. */
  function Strip(s: string): string
  {
    var a := LeadingSpace(s);
    var b := |s| - TrailingSpace(s);
    if b <= a then "" else s[a..b]
  }

  /** What `Strip` keeps: an infix of `s` with only whitespace around it that
      neither starts nor ends with whitespace, empty exactly when `s` is all
      whitespace. */
  lemma StripSpec(s: string)
    ensures var r := Strip(s);
      && (r == "" || (!IsSpace(r[0]) && !IsSpace(r[|r| - 1])))
      && (r == "" <==> forall k :: 0 <= k < |s| ==> IsSpace(s[k]))
      && exists a: nat :: SpaceMargins(s, r, a)
  {
    LeadingSpaceSpec(s);
    TrailingSpaceSpec(s);
    var a := LeadingSpace(s);
    var b := |s| - TrailingSpace(s);
    if b <= a {
      assert a == |s|;
      assert SpaceMargins(s, "", 0);
    } else {
      assert s[a..b][0] == s[a];
      assert SpaceMargins(s, s[a..b], a);
    }
  }

  /** `r` stands in `s` at index `a` with nothing but whitespace around it. */
  predicate SpaceMargins(s: string, r: string, a: nat) {
    a + |r| <= |s| && s[a..a + |r|] == r
    && (forall k :: 0 <= k < a ==> IsSpace(s[k]))
    && (forall k :: a + |r| <= k < |s| ==> IsSpace(s[k]))
  }

  /** Stripping never brings in a character that was not in `s`. */
  lemma StripKeepsOut(s: string, c: char)
    requires c !in s
    ensures c !in Strip(s)
  {
    StripSpec(s);
    var r := Strip(s);
    var a: nat :| SpaceMargins(s, r, a);
    assert forall k :: 0 <= k < |r| ==> r[k] == s[a + k];
  }

  predicate IsDigitChar(c: char) {
    48 <= c as int <= 57
  }

  function DigitChar(d: nat): (c: char)
    requires d < 10
    ensures IsDigitChar(c) && c as int - 48 == d
  {
    (48 + d) as char
  }

  /** Python's `str(n)` for a natural number: its decimal digits, most significant first. */
  function NatToString(n: nat): string
  {
    if n < 10 then [DigitChar(n)] else NatToString(n / 10) + [DigitChar(n % 10)]
  }

  /** The value of a string of decimal digits. */
  function DecimalValue(s: string): nat
    requires forall k :: 0 <= k < |s| ==> IsDigitChar(s[k])
  {
    if s == [] then 0
    else
      assert IsDigitChar(s[|s| - 1]);
      10 * DecimalValue(s[..|s| - 1]) + (s[|s| - 1] as int - 48)
  }

  /** The decimal text of `n` is a non-empty string of digits, and reading it gives `n` back. */
  lemma {:induction false} DecimalRoundTrip(n: nat)
    ensures var r := NatToString(n);
      && |r| >= 1
      && (forall k :: 0 <= k < |r| ==> IsDigitChar(r[k]))
      && DecimalValue(r) == n
  {
    if n >= 10 {
      var r := NatToString(n);
      DecimalRoundTrip(n / 10);
      assert r[..|r| - 1] == NatToString(n / 10);
    }
  }
}
