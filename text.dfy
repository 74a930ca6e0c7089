/**
 * The string operations the game's JavaScript relies on, with the meaning ECMAScript gives
 * them: `trim`, `split` on a separator, `join`, `startsWith`, the white-space class `\s`, the
 * line terminators a regular-expression `.` refuses, and decimal digits.
 * Strings are sequences of Unicode scalar values.
 */
module Text {
  import opened Wrappers

  /** ECMAScript WhiteSpace and LineTerminator code points: what `trim` strips and `\s` matches. */
  predicate IsSpace(c: char) {
    var n := c as int;
    (0x09 <= n <= 0x0D) || n == 0x20 || n == 0xA0 || n == 0x1680 || (0x2000 <= n <= 0x200A)
    || n == 0x2028 || n == 0x2029 || n == 0x202F || n == 0x205F || n == 0x3000 || n == 0xFEFF
  }

  /** The characters a regular-expression `.` does not match. */
  predicate IsLineTerminator(c: char) {
    c == '\n' || c == '\r' || c as int == 0x2028 || c as int == 0x2029
  }

  predicate HasLineTerminator(s: string) {
    exists i :: 0 <= i < |s| && IsLineTerminator(s[i])
  }

  /** `\d`: an ASCII decimal digit. */
  predicate IsDigit(c: char) {
    '0' <= c <= '9'
  }

  predicate AllDigits(s: string) {
    forall i :: 0 <= i < |s| ==> IsDigit(s[i])
  }

  predicate StartsWith(s: string, prefix: string) {
    |prefix| <= |s| && s[..|prefix|] == prefix
  }

  /** `startsWith` holds exactly when `s` is `prefix` followed by some rest. */
  lemma StartsWithConcat(s: string, prefix: string)
    ensures StartsWith(s, prefix) <==> exists t :: s == prefix + t
  {
    if StartsWith(s, prefix) {
      assert s == prefix + s[|prefix|..];
    }
    if exists t :: s == prefix + t {
      var t :| s == prefix + t;
      assert s[..|prefix|] == prefix;
    }
  }

  /** A string does not start with a prefix whose first character it lacks. */
  lemma DifferentFirstChar(s: string, prefix: string)
    requires |s| > 0 && |prefix| > 0 && s[0] != prefix[0]
    ensures !StartsWith(s, prefix)
  {
    assert |prefix| > |s| || s[..|prefix|][0] == s[0];
  }

  /** No white space at either end. */
  predicate Trimmed(s: string) {
    s == [] || (!IsSpace(s[0]) && !IsSpace(s[|s| - 1]))
  }

  /** The number of white-space characters `s` starts with. */
  function LeadingSpaces(s: string): (k: nat)
    ensures k <= |s|
    ensures forall i :: 0 <= i < k ==> IsSpace(s[i])
    ensures k < |s| ==> !IsSpace(s[k])
  {
    if s == [] || !IsSpace(s[0]) then 0 else 1 + LeadingSpaces(s[1..])
  }

  /** The number of white-space characters `s` ends with. */
  function TrailingSpaces(s: string): (k: nat)
    ensures k <= |s|
    ensures forall i :: |s| - k <= i < |s| ==> IsSpace(s[i])
    ensures k < |s| ==> !IsSpace(s[|s| - 1 - k])
  {
    if s == [] || !IsSpace(s[|s| - 1]) then 0 else 1 + TrailingSpaces(s[..|s| - 1])
  }

  /**
   * `String.prototype.trim`: the result is the part of `s` left after dropping the white space
   * at both ends; it has no white space at either end.
   */
  function Trim(s: string): (r: string)
    ensures Trimmed(r)
    ensures |r| <= |s|
    ensures forall c :: c in r ==> c in s
    ensures var i := LeadingSpaces(s);
            && i + |r| <= |s|
            && r == s[i..i + |r|]
            && forall k :: i + |r| <= k < |s| ==> IsSpace(s[k])
  {
    var i := LeadingSpaces(s);
    var t := s[i..];
    var n := TrailingSpaces(t);
    var r := s[i..|s| - n];
    assert r == t[..|t| - n];
    forall k | |s| - n <= k < |s| ensures IsSpace(s[k]) {
      assert s[k] == t[k - i];
    }
    r
  }

  /** Trimming an already trimmed string changes nothing, so `trim` is idempotent. */
  lemma TrimKeepsTrimmed(s: string)
    requires Trimmed(s)
    ensures Trim(s) == s
  {
    assert LeadingSpaces(s) == 0;
    assert TrailingSpaces(s) == 0;
  }

  /** `sep` occurs in `s` at index `j`. */
  predicate OccursAt(s: string, sep: string, j: nat) {
    j + |sep| <= |s| && s[j..j + |sep|] == sep
  }

  /** `sep` occurs nowhere in `s`. */
  predicate Free(s: string, sep: string) {
    forall j: nat :: j <= |s| ==> !OccursAt(s, sep, j)
  }

  /** `s.indexOf(sep, i)`: the first occurrence of `sep` at or after `i`. */
  function IndexFrom(s: string, sep: string, i: nat): (k: Option<nat>)
    requires |sep| > 0 && i <= |s|
    ensures k.Some? ==> i <= k.value && OccursAt(s, sep, k.value)
    ensures k.Some? ==> forall j: nat :: i <= j < k.value ==> !OccursAt(s, sep, j)
    ensures k.None? ==> forall j: nat :: i <= j <= |s| ==> !OccursAt(s, sep, j)
    decreases |s| - i
  {
    if i + |sep| > |s| then None
    else if s[i..i + |sep|] == sep then Some(i)
    else IndexFrom(s, sep, i + 1)
  }

  /** `parts.join(sep)`. */
  function Join(parts: seq<string>, sep: string): (r: string)
    ensures |parts| >= 1 ==> StartsWith(r, parts[0])
  {
    if |parts| == 0 then ""
    else if |parts| == 1 then parts[0]
    else parts[0] + sep + Join(parts[1..], sep)
  }

  /** A prefix of `s` that ends before the first occurrence of `sep` holds no occurrence of it. */
  lemma FreeBeforeFirst(s: string, sep: string, k: nat)
    requires |sep| > 0 && k <= |s|
    requires forall j: nat :: j < k ==> !OccursAt(s, sep, j)
    ensures Free(s[..k], sep)
  {
    forall j: nat | j <= k
      ensures !OccursAt(s[..k], sep, j)
    {
      if OccursAt(s[..k], sep, j) {
        assert s[..k][j..j + |sep|] == s[j..j + |sep|];
        assert OccursAt(s, sep, j);
      }
    }
  }

  /**
   * `s.split(sep)` for a non-empty separator: the pieces between the occurrences of `sep`,
   * found left to right without overlap. Joining them back with `sep` gives `s` again, and no
   * piece holds `sep`.
   */
  function Split(s: string, sep: string): (parts: seq<string>)
    requires |sep| > 0
    ensures |parts| >= 1
    ensures Join(parts, sep) == s
    ensures forall i :: 0 <= i < |parts| ==> Free(parts[i], sep)
    ensures forall i :: 0 <= i < |parts| - 1 ==> Free(parts[i] + sep[..|sep| - 1], sep)
    decreases |s|
  {
    match IndexFrom(s, sep, 0)
    case None =>
      assert s[..|s|] == s;
      FreeBeforeFirst(s, sep, |s|);
      [s]
    case Some(k) =>
      var rest := Split(s[k + |sep|..], sep);
      FreeBeforeFirst(s, sep, k);
      FirstOccurrenceIsLeftmost(s, sep, k);
      assert s == s[..k] + sep + s[k + |sep|..];
      [s[..k]] + rest
  }

  /**
   * No occurrence of `sep` starts before its first one, even one that would overlap it: the
   * text up to the first occurrence, followed by all of `sep` but its last character, holds none.
   */
  lemma FirstOccurrenceIsLeftmost(s: string, sep: string, k: nat)
    requires |sep| > 0 && OccursAt(s, sep, k)
    requires forall j: nat :: j < k ==> !OccursAt(s, sep, j)
    ensures Free(s[..k] + sep[..|sep| - 1], sep)
  {
    var m := k + |sep| - 1;
    assert s[..k] + sep[..|sep| - 1] == s[..m] by {
      assert s[k..k + |sep|] == sep;
      assert s[..m] == s[..k] + s[k..m];
      assert s[k..m] == sep[..|sep| - 1];
    }
    forall j: nat | j <= m
      ensures !OccursAt(s[..m], sep, j)
    {
      if OccursAt(s[..m], sep, j) {
        assert s[..m][j..j + |sep|] == s[j..j + |sep|];
        assert OccursAt(s, sep, j);
      }
    }
  }

  /** A string without the separator's only character is a single piece. */
  lemma SplitWithoutSeparator(s: string, c: char)
    requires c !in s
    ensures Split(s, [c]) == [s]
  {
  }

  /** Splitting at a one-character separator: the text before its first occurrence is the first piece. */
  lemma SplitAtFirst(first: string, c: char, rest: string)
    requires c !in first
    ensures Split(first + [c] + rest, [c]) == [first] + Split(rest, [c])
  {
    var s := first + [c] + rest;
    assert OccursAt(s, [c], |first|) by {
      assert s[|first|..|first| + 1] == [c];
    }
    forall j: nat | j < |first| ensures !OccursAt(s, [c], j) {
      assert s[j] == first[j];
      assert s[j..j + 1] == [s[j]];
    }
    assert IndexFrom(s, [c], 0) == Some(|first|);
    assert s[..|first|] == first;
    assert s[|first| + 1..] == rest;
  }

  /** A piece free of a one-character separator does not contain that character. */
  lemma FreeOfChar(p: string, c: char)
    requires Free(p, [c])
    ensures c !in p
  {
    if c in p {
      var j :| 0 <= j < |p| && p[j] == c;
      assert p[j..j + 1] == [c];
      assert OccursAt(p, [c], j);
    }
  }

  /** Joining pieces that lack a character, with a separator that lacks it, yields no such character. */
  lemma {:induction false} JoinWithout(parts: seq<string>, sep: string, c: char)
    requires c !in sep
    requires forall i :: 0 <= i < |parts| ==> c !in parts[i]
    ensures c !in Join(parts, sep)
    decreases |parts|
  {
    if |parts| > 1 {
      JoinWithout(parts[1..], sep, c);
    }
  }

  function DigitChar(d: nat): (c: char)
    requires d < 10
    ensures IsDigit(c)
  {
    ('0' as int + d) as char
  }

  /** The decimal notation of `n`, as `String(n)` writes it: no sign, no leading zero. */
  function NatToString(n: nat): (s: string)
    ensures 1 <= |s| && AllDigits(s)
    ensures n < 10 ==> |s| == 1
    ensures n < 100 ==> |s| <= 2
    ensures n < 1000 ==> |s| <= 3
    ensures n >= 10 ==> s[0] != '0'
  {
    if n < 10 then [DigitChar(n)] else NatToString(n / 10) + [DigitChar(n % 10)]
  }

  /** The value of a run of decimal digits, as `parseInt` reads it. */
  function DigitsValue(s: string): (v: nat)
    requires AllDigits(s)
    ensures |s| <= 1 ==> v <= 9
    ensures |s| <= 2 ==> v <= 99
    ensures |s| <= 3 ==> v <= 999
  {
    if s == [] then 0
    else DigitsValue(s[..|s| - 1]) * 10 + (s[|s| - 1] as int - '0' as int)
  }

  /** Reading back the decimal notation of `n` gives `n`. */
  lemma {:induction false} DigitsValueOfNatToString(n: nat)
    ensures DigitsValue(NatToString(n)) == n
  {
    if n >= 10 {
      var s := NatToString(n);
      assert s[..|s| - 1] == NatToString(n / 10);
      DigitsValueOfNatToString(n / 10);
    }
  }
}
