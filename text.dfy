/** `String.prototype.trim`: removal of leading and trailing white space and line
    terminators, as section 22.1.3.32 of ECMA-262 defines them. */
module Text {

  /** The white space and line terminator code points of ECMA-262: tab, vertical
      tab, form feed, space, no-break space, the byte order mark, the other
      space separators, line feed, carriage return and the two Unicode line and
      paragraph separators. */
  predicate IsJsWhitespace(c: char) {
    var n := c as int;
    n == 0x09 || n == 0x0B || n == 0x0C || n == 0x20 || n == 0xA0 || n == 0xFEFF
    || n == 0x1680 || (0x2000 <= n <= 0x200A) || n == 0x202F || n == 0x205F || n == 0x3000
    || n == 0x0A || n == 0x0D || n == 0x2028 || n == 0x2029
  }

  /** Every character of `s` from `lo` up to `hi` is white space. */
  predicate BlankBetween(s: string, lo: int, hi: int)
    requires 0 <= lo && hi <= |s|
  {
    forall i :: lo <= i < hi ==> IsJsWhitespace(s[i])
  }

  predicate IsBlank(s: string) {
    BlankBetween(s, 0, |s|)
  }

  /** Where the text starts: the first index from `k` on that is not white space,
      or the length when there is none. */
  function StartFrom(s: string, k: nat): (a: nat)
    requires k <= |s| && BlankBetween(s, 0, k)
    ensures k <= a <= |s| && BlankBetween(s, 0, a)
    ensures a < |s| ==> !IsJsWhitespace(s[a])
    decreases |s| - k
  {
    if k < |s| && IsJsWhitespace(s[k]) then StartFrom(s, k + 1) else k
  }

  /** Where the text ends: the index just after the last character before `e`
      that is not white space, never below `lo`. */
  function EndBefore(s: string, lo: nat, e: nat): (b: nat)
    requires lo <= e <= |s| && BlankBetween(s, e, |s|)
    ensures lo <= b <= e && BlankBetween(s, b, |s|)
    ensures b > lo ==> !IsJsWhitespace(s[b - 1])
    decreases e
  {
    if e > lo && IsJsWhitespace(s[e - 1]) then EndBefore(s, lo, e - 1) else e
  }

  /** `s.trim()`: neither starts nor ends with white space. */
  function Trim(s: string): (r: string)
    ensures r == [] || (!IsJsWhitespace(r[0]) && !IsJsWhitespace(r[|r| - 1]))
  {
    var a := StartFrom(s, 0);
    var b := EndBefore(s, a, |s|);
    s[a..b]
  }

  /** `trim` leaves a contiguous piece of the input that only white space
      surrounds. */
  lemma TrimShape(s: string)
    ensures exists a, b :: 0 <= a <= b <= |s| && Trim(s) == s[a..b]
              && BlankBetween(s, 0, a) && BlankBetween(s, b, |s|)
  {
    var a := StartFrom(s, 0);
    var b := EndBefore(s, a, |s|);
    assert Trim(s) == s[a..b];
  }

  /** `trim` gives the empty string exactly on blank input. */
  lemma TrimEmptyIffBlank(s: string)
    ensures Trim(s) == [] <==> IsBlank(s)
  {
    var a := StartFrom(s, 0);
    var b := EndBefore(s, a, |s|);
    assert Trim(s) == s[a..b];
    if IsBlank(s) {
      assert a == |s|;
    }
  }

  /** Trimming twice is trimming once. */
  lemma TrimIdempotent(s: string)
    ensures Trim(Trim(s)) == Trim(s)
  {
    var t := Trim(s);
    assert StartFrom(t, 0) == 0;
    assert EndBefore(t, 0, |t|) == |t|;
    assert t[0..|t|] == t;
  }
}
