/**
 * The parts of Python's string semantics that the tools and the HTTP handlers
 * rely on: `str.isspace`, `str.strip`, the `in` operator on strings,
 * `str.replace`, and how an f-string renders a non-negative integer.
 */
module Text {
  import opened Wrappers

  /** Python's `str.isspace()` on one character: the ASCII whitespace
      characters, the information separators U+001C..U+001F and the
      Unicode space characters. */
  const Whitespace: set<char> :=
    {' ', '\t', '\n', '\U{000B}', '\U{000C}', '\r', '\U{001C}', '\U{001D}', '\U{001E}', '\U{001F}',
     '\U{0085}', '\U{00A0}', '\U{1680}', '\U{2000}', '\U{2001}', '\U{2002}', '\U{2003}', '\U{2004}',
     '\U{2005}', '\U{2006}', '\U{2007}', '\U{2008}', '\U{2009}', '\U{200A}', '\U{2028}', '\U{2029}',
     '\U{202F}', '\U{205F}', '\U{3000}'}

  predicate IsSpace(c: char) {
    c in Whitespace
  }

  /** The whitespace set, stated as the code-point ranges Python's
      `str.isspace` accepts. */
  lemma IsSpaceRanges(c: char)
    ensures IsSpace(c) <==>
      var n := c as int;
      || n == 0x20
      || 0x09 <= n <= 0x0D
      || 0x1C <= n <= 0x1F
      || n == 0x85 || n == 0xA0 || n == 0x1680
      || 0x2000 <= n <= 0x200A
      || n == 0x2028 || n == 0x2029 || n == 0x202F || n == 0x205F || n == 0x3000
  {
  }

  predicate AllSpace(s: string) {
    forall k :: 0 <= k < |s| ==> IsSpace(s[k])
  }

  /** The first position at or after `lo` that does not hold whitespace,
      or `|s|` when there is none. */
  function SkipSpace(s: string, lo: nat): (i: nat)
    requires lo <= |s|
    ensures lo <= i <= |s|
    ensures forall k :: lo <= k < i ==> IsSpace(s[k])
    ensures i < |s| ==> !IsSpace(s[i])
    decreases |s| - lo
  {
    if lo < |s| && IsSpace(s[lo]) then SkipSpace(s, lo + 1) else lo
  }

  /** The end of `s[lo..hi]` once its trailing whitespace is dropped. */
  function SkipSpaceBack(s: string, lo: nat, hi: nat): (j: nat)
    requires lo <= hi <= |s|
    ensures lo <= j <= hi
    ensures forall k :: j <= k < hi ==> IsSpace(s[k])
    ensures lo < j ==> !IsSpace(s[j - 1])
  {
    if lo < hi && IsSpace(s[hi - 1]) then SkipSpaceBack(s, lo, hi - 1) else hi
  }

  /** `s.strip()`: `s` without its leading and trailing whitespace. It is
      empty exactly when `s` is all whitespace, and otherwise neither starts
      nor ends with whitespace. */
  function Strip(s: string): (r: string)
    ensures |r| <= |s|
    ensures r == [] <==> AllSpace(s)
    ensures r != [] ==> !IsSpace(r[0]) && !IsSpace(r[|r| - 1])
  {
    var i := SkipSpace(s, 0);
    var j := SkipSpaceBack(s, i, |s|);
    assert i < |s| ==> !IsSpace(s[i]) && i < j;
    s[i..j]
  }

  /** What `strip` keeps is one contiguous stretch of the input, and only
      whitespace lies on either side of it. */
  lemma StripSlice(s: string) returns (i: nat, j: nat)
    ensures i <= j <= |s| && Strip(s) == s[i..j]
    ensures AllSpace(s[..i]) && AllSpace(s[j..])
  {
    i := SkipSpace(s, 0);
    j := SkipSpaceBack(s, i, |s|);
    assert forall k :: 0 <= k < |s[j..]| ==> s[j..][k] == s[j + k];
  }

  /** Stripping a string that already neither starts nor ends with
      whitespace leaves it alone; in particular `strip` is idempotent. */
  lemma StripFixpoint(s: string)
    ensures Strip(s) == s <==> (s == [] || (!IsSpace(s[0]) && !IsSpace(s[|s| - 1])))
  {
    if s != [] && !IsSpace(s[0]) && !IsSpace(s[|s| - 1]) {
      assert SkipSpace(s, 0) == 0;
      assert SkipSpaceBack(s, 0, |s|) == |s|;
    }
  }

  lemma StripIdempotent(s: string)
    ensures Strip(Strip(s)) == Strip(s)
  {
    StripFixpoint(Strip(s));
  }

  function Min(a: int, b: int): int {
    if a <= b then a else b
  }

  /** Python's `s.startswith(p)`. */
  predicate StartsWith(s: string, p: string) {
    |p| <= |s| && s[..|p|] == p
  }

  /** Python's `p in s`: `p` occurs in `s` as a contiguous substring. */
  predicate Contains(s: string, p: string)
    ensures Contains(s, p) ==> |p| <= |s|
    decreases |s|
  {
    StartsWith(s, p) || (s != [] && Contains(s[1..], p))
  }

  /** `p` occurs in `s` starting at position `i`. */
  predicate OccursAt(s: string, p: string, i: nat) {
    i + |p| <= |s| && s[i..i + |p|] == p
  }

  /** `p in s` holds exactly when `p` occurs at some position of `s`. */
  lemma {:induction false} ContainsAt(s: string, p: string)
    ensures Contains(s, p) <==> exists i: nat :: OccursAt(s, p, i)
    decreases |s|
  {
    if StartsWith(s, p) {
      assert OccursAt(s, p, 0);
    } else if s != [] {
      ContainsAt(s[1..], p);
      if Contains(s[1..], p) {
        var i: nat :| OccursAt(s[1..], p, i);
        assert s[i + 1..i + 1 + |p|] == s[1..][i..i + |p|];
        assert OccursAt(s, p, i + 1);
      }
      if exists i: nat :: OccursAt(s, p, i) {
        var i: nat :| OccursAt(s, p, i);
        assert i != 0;
        assert s[1..][i - 1..i - 1 + |p|] == s[i..i + |p|];
        assert OccursAt(s[1..], p, i - 1);
      }
    }
  }

  /** Python's `s.replace(p, q)` for a non-empty `p`: occurrences are found
      scanning from the left, never overlap, and each becomes `q`. Without
      an occurrence the string is returned as it is, and a shorter `q`
      strictly shortens any string that has one. */
  function Replace(s: string, p: string, q: string): (r: string)
    requires p != []
    ensures !Contains(s, p) ==> r == s
    ensures |q| <= |p| ==> |r| <= |s|
    ensures |q| < |p| && Contains(s, p) ==> |r| < |s|
    decreases |s|
  {
    if StartsWith(s, p) then q + Replace(s[|p|..], p, q)
    else if s == [] then []
    else
      var rest := Replace(s[1..], p, q);
      assert !Contains(s, p) ==> [s[0]] + rest == s;
      [s[0]] + rest
  }

  predicate IsDigits(s: string) {
    forall k :: 0 <= k < |s| ==> '0' <= s[k] <= '9'
  }

  function DigitChar(d: nat): char
    requires d < 10
  {
    ('0' as int + d) as char
  }

  /** How `f"{n}"` renders a non-negative integer: decimal digits, no sign
      and no leading zero (so zero is the single digit `0`). */
  function DecimalString(n: nat): (r: string)
    ensures r != [] && IsDigits(r)
    ensures n == 0 ==> r == "0"
    ensures n > 0 ==> r[0] != '0'
    decreases n
  {
    if n < 10 then [DigitChar(n)] else DecimalString(n / 10) + [DigitChar(n % 10)]
  }

  /** The number a string of decimal digits denotes (Python's `int(s)`). */
  function DecimalValue(s: string): nat
    requires IsDigits(s)
  {
    if s == [] then 0 else DecimalValue(s[..|s| - 1]) * 10 + (s[|s| - 1] as int - '0' as int)
  }

  lemma {:induction false} DecimalRoundTrip(n: nat)
    ensures DecimalValue(DecimalString(n)) == n
  {
    if n >= 10 {
      DecimalRoundTrip(n / 10);
      var s := DecimalString(n);
      assert s[..|s| - 1] == DecimalString(n / 10);
    }
  }

  /** Reads back the count from a message `prefix + f"{n}" + suffix`. */
  function ReadCount(message: string, prefix: string, suffix: string): Option<nat> {
    if |prefix| + |suffix| < |message| && StartsWith(message, prefix)
       && message[|message| - |suffix|..] == suffix
       && IsDigits(message[|prefix|..|message| - |suffix|])
    then Some(DecimalValue(message[|prefix|..|message| - |suffix|]))
    else None
  }

  lemma CountRoundTrip(prefix: string, n: nat, suffix: string)
    ensures ReadCount(prefix + DecimalString(n) + suffix, prefix, suffix) == Some(n)
  {
    var d := DecimalString(n);
    var m := prefix + d + suffix;
    assert m[..|prefix|] == prefix;
    assert m[|m| - |suffix|..] == suffix;
    assert m[|prefix|..|m| - |suffix|] == d;
    DecimalRoundTrip(n);
  }
}
