/**
 * String primitives the pipeline's regular expressions and Python string
 * methods are built from: character classes, case mapping, substring search,
 * `str.strip` and decimal rendering of integers.
 */
module Text {
  import opened Wrappers

  /** Python's `str.isspace`, which is also what `\s` matches in a `str` pattern. */
  predicate IsSpace(c: char) {
    var n := c as int;
    (9 <= n <= 13) || (28 <= n <= 32) || n == 0x85 || n == 0xA0 || n == 0x1680
    || (0x2000 <= n <= 0x200A) || n == 0x2028 || n == 0x2029 || n == 0x202F
    || n == 0x205F || n == 0x3000
  }

  /** `\w` restricted to ASCII: letters, digits and the underscore. */
  predicate IsWordChar(c: char) {
    ('a' <= c <= 'z') || ('A' <= c <= 'Z') || ('0' <= c <= '9') || c == '_'
  }

  function LowerChar(c: char): char {
    if 'A' <= c <= 'Z' then (c as int + 32) as char else c
  }

  function UpperChar(c: char): char {
    if 'a' <= c <= 'z' then (c as int - 32) as char else c
  }

  /** `str.lower()` on ASCII letters. */
  function Lower(s: string): (r: string)
    ensures |r| == |s|
    ensures forall i :: 0 <= i < |s| ==> r[i] == LowerChar(s[i])
  {
    seq(|s|, i requires 0 <= i < |s| => LowerChar(s[i]))
  }

  /** `str.upper()` on ASCII letters. */
  function Upper(s: string): (r: string)
    ensures |r| == |s|
    ensures forall i :: 0 <= i < |s| ==> r[i] == UpperChar(s[i])
  {
    seq(|s|, i requires 0 <= i < |s| => UpperChar(s[i]))
  }

  /** Lower-casing twice is lower-casing once: no upper-case letter survives `Lower`. */
  lemma LowerIdempotent(s: string)
    ensures Lower(Lower(s)) == Lower(s)
    ensures forall i :: 0 <= i < |s| ==> !('A' <= Lower(s)[i] <= 'Z')
  {
  }

  /** Upper-casing twice is upper-casing once. */
  lemma UpperIdempotent(s: string)
    ensures Upper(Upper(s)) == Upper(s)
    ensures forall i :: 0 <= i < |s| ==> !('a' <= Upper(s)[i] <= 'z')
  {
  }

  /** `pat` occurs in `s` starting at index `i`. */
  predicate Occurs(s: string, pat: string, i: int) {
    0 <= i && i + |pat| <= |s| && s[i..i + |pat|] == pat
  }

  /** Python's `pat in s`. */
  predicate Contains(s: string, pat: string) {
    exists i :: 0 <= i <= |s| && Occurs(s, pat, i)
  }

  /** An occurrence inside a slice is an occurrence in the whole string, shifted. */
  lemma OccursInSlice(s: string, lo: int, hi: int, pat: string, k: int)
    requires 0 <= lo <= hi <= |s|
    requires Occurs(s[lo..hi], pat, k)
    ensures Occurs(s, pat, lo + k)
  {
    var t := s[lo..hi];
    assert forall m :: 0 <= m < |pat| ==> pat[m] == t[k + m] == s[lo + k + m];
  }

  lemma OccursInSuffix(s: string, lo: int, pat: string, k: int)
    requires 0 <= lo <= |s|
    requires Occurs(s[lo..], pat, k)
    ensures Occurs(s, pat, lo + k)
  {
    assert s[lo..] == s[lo..|s|];
    OccursInSlice(s, lo, |s|, pat, k);
  }

  lemma OccursInPrefix(s: string, hi: int, pat: string, k: int)
    requires 0 <= hi <= |s|
    requires Occurs(s[..hi], pat, k)
    ensures Occurs(s, pat, k)
  {
    assert s[..hi] == s[0..hi];
    OccursInSlice(s, 0, hi, pat, k);
  }

  /** Conversely, an occurrence in `p + q` that lies wholly in `q` is one in `q`, shifted back. */
  lemma OccursConcatRight(p: string, q: string, pat: string, k: int)
    requires Occurs(p + q, pat, k) && k >= |p|
    ensures Occurs(q, pat, k - |p|)
  {
    var r := p + q;
    assert forall m :: 0 <= m < |pat| ==> pat[m] == r[k + m] == q[k - |p| + m];
  }

  /** An occurrence in `p + q` that lies wholly in `p` is one in `p`. */
  lemma OccursConcatLeft(p: string, q: string, pat: string, k: int)
    requires Occurs(p + q, pat, k) && k + |pat| <= |p|
    ensures Occurs(p, pat, k)
  {
    var r := p + q;
    assert forall m :: 0 <= m < |pat| ==> pat[m] == r[k + m] == p[k + m];
  }

  /** The first index `>= from` at which `pat` occurs (`str.find` with a start). */
  function FindFrom(s: string, pat: string, from: nat): (r: Option<nat>)
    decreases |s| - from
    ensures r.Some? ==> from <= r.value && Occurs(s, pat, r.value)
    ensures r.Some? ==> forall k :: from <= k < r.value ==> !Occurs(s, pat, k)
    ensures r.None? ==> forall k :: from <= k ==> !Occurs(s, pat, k)
  {
    if from + |pat| > |s| then None
    else if s[from..from + |pat|] == pat then Some(from)
    else FindFrom(s, pat, from + 1)
  }

  /** The last index below `bound` at which `pat` occurs (`str.rfind`). */
  function FindLast(s: string, pat: string, bound: nat): (r: Option<nat>)
    ensures r.Some? ==> r.value < bound && Occurs(s, pat, r.value)
    ensures r.Some? ==> forall k :: r.value < k < bound ==> !Occurs(s, pat, k)
    ensures r.None? ==> forall k :: 0 <= k < bound ==> !Occurs(s, pat, k)
  {
    if bound == 0 then None
    else if bound - 1 + |pat| <= |s| && s[bound - 1..bound - 1 + |pat|] == pat then Some(bound - 1)
    else FindLast(s, pat, bound - 1)
  }

  /** The first index `>= from` holding `c`, or `|s|` when there is none. */
  function FindChar(s: string, c: char, from: nat): (r: nat)
    requires from <= |s|
    decreases |s| - from
    ensures from <= r <= |s|
    ensures r < |s| ==> s[r] == c
    ensures forall k :: from <= k < r ==> s[k] != c
  {
    if from == |s| || s[from] == c then from else FindChar(s, c, from + 1)
  }

  /** Index of the first non-whitespace character at or after `from`. */
  function SpaceRunEnd(s: string, from: nat): (r: nat)
    requires from <= |s|
    decreases |s| - from
    ensures from <= r <= |s|
    ensures r < |s| ==> !IsSpace(s[r])
    ensures forall k :: from <= k < r ==> IsSpace(s[k])
  {
    if from == |s| || !IsSpace(s[from]) then from else SpaceRunEnd(s, from + 1)
  }

  /** Index just past the last non-whitespace character in `s[lo..to]`, or `lo`. */
  function SpaceRunStart(s: string, lo: nat, to: nat): (r: nat)
    requires lo <= to <= |s|
    ensures lo <= r <= to
    ensures r > lo ==> !IsSpace(s[r - 1])
    ensures forall k :: r <= k < to ==> IsSpace(s[k])
  {
    if to == lo || !IsSpace(s[to - 1]) then to else SpaceRunStart(s, lo, to - 1)
  }

  /**
   * Python's `str.strip()`: the result is the slice `s[i..j]` where only
   * whitespace lies outside it, and it neither starts nor ends with whitespace.
   */
  function Strip(s: string): (r: string)
    ensures exists i, j ::
      && 0 <= i <= j <= |s| && r == s[i..j]
      && (forall k :: 0 <= k < i ==> IsSpace(s[k]))
      && (forall k :: j <= k < |s| ==> IsSpace(s[k]))
    ensures r != [] ==> !IsSpace(r[0]) && !IsSpace(r[|r| - 1])
  {
    var i := SpaceRunEnd(s, 0);
    var j := SpaceRunStart(s, i, |s|);
    s[i..j]
  }

  function DigitChar(d: nat): char
    requires d < 10
  {
    "0123456789"[d]
  }

  function DigitValue(c: char): int {
    c as int - '0' as int
  }

  /** The value of a string of decimal digits. */
  function DecimalValue(s: string): int {
    if s == [] then 0 else 10 * DecimalValue(s[..|s| - 1]) + DigitValue(s[|s| - 1])
  }

  /** Python's `str(n)` for a natural number: decimal digits, no leading zero. */
  function NatToString(n: nat): (r: string)
    ensures r != []
    ensures forall k :: 0 <= k < |r| ==> '0' <= r[k] <= '9'
    ensures |r| > 1 ==> r[0] != '0'
    ensures DecimalValue(r) == n
  {
    if n < 10 then [DigitChar(n)]
    else
      var r := NatToString(n / 10) + [DigitChar(n % 10)];
      assert r[..|r| - 1] == NatToString(n / 10);
      r
  }
}
