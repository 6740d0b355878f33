/**
 * The browser's `btoa` and `atob`.
 *
 * `btoa` is the base64 encoding of section 4 of RFC 4648 (alphabet of Table 1,
 * `=` padding) applied to a string whose code units are all below 256, and it
 * throws `InvalidCharacterError` for any other string.
 * `atob` is the "forgiving-base64 decode" of the WHATWG Infra Standard: it drops
 * ASCII whitespace, accepts the padding or its absence, discards the unused low
 * bits of a final partial group, and throws `InvalidCharacterError` when the
 * remaining length leaves a remainder of 1 modulo 4 or a character is outside the
 * alphabet.
 */
module Base64 {
  import opened Wrappers
  import opened JsText

  type Byte = x: int | 0 <= x < 256
  type Sextet = x: int | 0 <= x < 64

  /** The DOMException the two functions throw. */
  datatype DomError = InvalidCharacterError

  /** `=` */
  const Pad: CodeUnit := 61

  /** `A`-`Z`, `a`-`z`, `0`-`9`, `+` and `/`. */
  predicate IsAlphabet(c: CodeUnit) {
    65 <= c <= 90 || 97 <= c <= 122 || 48 <= c <= 57 || c == 43 || c == 47
  }

  /** The value Table 1 of RFC 4648 gives an alphabet character. */
  function ValueOf(c: CodeUnit): Sextet
    requires IsAlphabet(c)
  {
    if 65 <= c <= 90 then c - 65
    else if 97 <= c <= 122 then c - 71
    else if 48 <= c <= 57 then c + 4
    else if c == 43 then 62
    else 63
  }

  /** The character Table 1 of RFC 4648 gives a 6-bit value; `ValueOf` inverts it. */
  function CharOf(v: Sextet): (c: CodeUnit)
    ensures IsAlphabet(c) && ValueOf(c) == v
  {
    if v < 26 then 65 + v
    else if v < 52 then 71 + v
    else if v < 62 then v - 4
    else if v == 62 then 43
    else 47
  }

  lemma CharOfValueOf(c: CodeUnit)
    requires IsAlphabet(c)
    ensures CharOf(ValueOf(c)) == c
  {
  }

  /** The four 6-bit values of a group of three bytes (RFC 4648, section 4). */
  function Split3(b0: Byte, b1: Byte, b2: Byte): seq<Sextet> {
    var x0, x1, x2: int := b0, b1, b2;
    [x0 / 4, (x0 % 4) * 16 + x1 / 16, (x1 % 16) * 4 + x2 / 64, x2 % 64]
  }

  /** The three bytes of a group of four 6-bit values. */
  function Join4(v0: Sextet, v1: Sextet, v2: Sextet, v3: Sextet): seq<Byte> {
    var y0, y1, y2, y3: int := v0, v1, v2, v3;
    [y0 * 4 + y1 / 16, (y1 % 16) * 16 + y2 / 4, (y2 % 4) * 64 + y3]
  }

  /** Splits bytes into 6-bit values: four per group of three bytes, three for a
      final pair and two for a final single byte, zero-filling the low bits. */
  function Sextets(b: seq<Byte>): seq<Sextet>
    decreases |b|
  {
    if |b| >= 3 then
      Split3(b[0], b[1], b[2]) + Sextets(b[3..])
    else if |b| == 2 then
      Split3(b[0], b[1], 0)[..3]
    else if |b| == 1 then
      Split3(b[0], 0, 0)[..2]
    else
      []
  }

  /** Joins 6-bit values back into bytes; a final group of three or two values
      yields two or one byte and its unused low bits are discarded. */
  function Bytes(v: seq<Sextet>): seq<Byte>
    decreases |v|
  {
    if |v| >= 4 then
      Join4(v[0], v[1], v[2], v[3]) + Bytes(v[4..])
    else if |v| == 3 then
      Join4(v[0], v[1], v[2], 0)[..2]
    else if |v| == 2 then
      Join4(v[0], v[1], 0, 0)[..1]
    else
      []
  }

  lemma JoinSplit(b0: Byte, b1: Byte, b2: Byte)
    ensures var v := Split3(b0, b1, b2);
      Join4(v[0], v[1], v[2], v[3]) == [b0, b1, b2]
      && Join4(v[0], v[1], v[2], 0)[..2] == [b0, b1]
      && Join4(v[0], v[1], 0, 0)[..1] == [b0]
  {
    var v := Split3(b0, b1, b2);
    assert v[1] / 16 == b0 % 4 && v[1] % 16 == b1 / 16;
    assert v[2] / 4 == b1 % 16 && v[2] % 4 == b2 / 64;
  }

  /** Three bytes give four values, and a final pair or single byte three or two. */
  lemma {:induction false} SextetsLength(b: seq<Byte>)
    ensures |Sextets(b)| == (|b| / 3) * 4 + (if |b| % 3 == 0 then 0 else |b| % 3 + 1)
    ensures |Sextets(b)| % 4 != 1
    decreases |b|
  {
    if |b| >= 3 {
      SextetsLength(b[3..]);
      assert |b[3..]| / 3 == |b| / 3 - 1 && |b[3..]| % 3 == |b| % 3;
    }
  }

  /** Decoding undoes the split. */
  lemma {:induction false} BytesSextets(b: seq<Byte>)
    ensures Bytes(Sextets(b)) == b
    decreases |b|
  {
    if |b| >= 3 {
      var head, tail := Split3(b[0], b[1], b[2]), Sextets(b[3..]);
      BytesSextets(b[3..]);
      JoinSplit(b[0], b[1], b[2]);
      var v := head + tail;
      assert Sextets(b) == v;
      assert v[..4] == head && v[4..] == tail;
      assert Bytes(v) == [b[0], b[1], b[2]] + b[3..];
      assert b == b[..3] + b[3..];
    } else if |b| == 2 {
      JoinSplit(b[0], b[1], 0);
    } else if |b| == 1 {
      JoinSplit(b[0], 0, 0);
    }
  }

  function Chars(v: seq<Sextet>): (r: JsString)
    ensures |r| == |v|
    ensures forall i :: 0 <= i < |v| ==> r[i] == CharOf(v[i])
  {
    seq(|v|, i requires 0 <= i < |v| => CharOf(v[i]))
  }

  function Values(d: JsString): (r: seq<Sextet>)
    requires forall i :: 0 <= i < |d| ==> IsAlphabet(d[i])
    ensures |r| == |d|
    ensures forall i :: 0 <= i < |d| ==> r[i] == ValueOf(d[i])
  {
    seq(|d|, i requires 0 <= i < |d| => ValueOf(d[i]))
  }

  /** The `=` characters that complete the last group to four characters. */
  function Padding(n: nat): JsString {
    if n % 3 == 1 then [Pad, Pad] else if n % 3 == 2 then [Pad] else []
  }

  /** Base64 of a byte string, padded as section 4 of RFC 4648 requires. */
  function Encode(b: seq<Byte>): (r: JsString)
    ensures |r| == (|b| + 2) / 3 * 4
  {
    SextetsLength(b);
    Chars(Sextets(b)) + Padding(|b|)
  }

  function ToBytes(s: JsString): (b: seq<Byte>)
    requires IsLatin1(s)
    ensures b == s
  {
    seq(|s|, i requires 0 <= i < |s| => s[i] as Byte)
  }

  /** `btoa`. */
  function Btoa(s: JsString): (r: Result<JsString, DomError>)
    ensures r.Success? <==> IsLatin1(s)
  {
    if IsLatin1(s) then Success(Encode(ToBytes(s))) else Failure(InvalidCharacterError)
  }

  /** ASCII whitespace as the WHATWG Infra Standard defines it: tab, line feed,
      form feed, carriage return and space. */
  predicate IsAsciiWhitespace(c: CodeUnit) {
    c == 9 || c == 10 || c == 12 || c == 13 || c == 32
  }

  function StripWhitespace(s: JsString): (r: JsString)
    ensures forall i :: 0 <= i < |r| ==> !IsAsciiWhitespace(r[i])
    ensures forall c :: c in r <==> c in s && !IsAsciiWhitespace(c)
    decreases |s|
  {
    if s == [] then []
    else if IsAsciiWhitespace(s[0]) then StripWhitespace(s[1..])
    else [s[0]] + StripWhitespace(s[1..])
  }

  /** When the length is a multiple of four, one or two final `=` are removed. */
  function DropPadding(s: JsString): JsString {
    if |s| % 4 == 0 && |s| >= 2 && s[|s| - 1] == Pad && s[|s| - 2] == Pad then s[..|s| - 2]
    else if |s| % 4 == 0 && |s| >= 1 && s[|s| - 1] == Pad then s[..|s| - 1]
    else s
  }

  /** `atob`. */
  function Atob(s: JsString): (r: Result<JsString, DomError>)
    ensures r.Success? ==> IsLatin1(r.value)
  {
    var d := DropPadding(StripWhitespace(s));
    if |d| % 4 == 1 || exists i :: 0 <= i < |d| && !IsAlphabet(d[i]) then
      Failure(InvalidCharacterError)
    else
      Success(Bytes(Values(d)))
  }

  lemma {:induction false} StripWhitespaceNoop(s: JsString)
    requires forall i :: 0 <= i < |s| ==> !IsAsciiWhitespace(s[i])
    ensures StripWhitespace(s) == s
    decreases |s|
  {
    if s != [] {
      StripWhitespaceNoop(s[1..]);
      assert s == [s[0]] + s[1..];
    }
  }

  /** What `btoa` produces: alphabet characters followed by at most two `=`, in a
      length that is a multiple of four. */
  lemma EncodeShape(b: seq<Byte>)
    ensures |Encode(b)| % 4 == 0
    ensures forall i :: 0 <= i < |Encode(b)| ==> IsAlphabet(Encode(b)[i]) || Encode(b)[i] == Pad
    ensures forall i :: 0 <= i < |Sextets(b)| ==> Encode(b)[i] != Pad
  {
    SextetsLength(b);
    var c, pd := Chars(Sextets(b)), Padding(|b|);
    assert Encode(b) == c + pd;
    assert |pd| == (if |b| % 3 == 1 then 2 else if |b| % 3 == 2 then 1 else 0);
    assert forall i :: 0 <= i < |pd| ==> pd[i] == Pad;
    forall i | 0 <= i < |c| + |pd| ensures IsAlphabet((c + pd)[i]) || (c + pd)[i] == Pad {
      if i < |c| {
        assert (c + pd)[i] == c[i];
      }
    }
  }

  lemma ValuesChars(v: seq<Sextet>)
    ensures Values(Chars(v)) == v
  {
  }

  /** Removing the padding from alphabet characters followed by `Padding(n)`
      gives back the characters, provided the two together fill whole groups. */
  lemma DropPaddingAfter(c: JsString, n: nat, groups: nat)
    requires forall i :: 0 <= i < |c| ==> IsAlphabet(c[i])
    requires |c| + |Padding(n)| == 4 * groups && (n % 3 != 0 ==> |c| > 0)
    ensures DropPadding(c + Padding(n)) == c
  {
    var e := c + Padding(n);
    if n % 3 == 1 {
      assert e[|e| - 1] == Pad && e[|e| - 2] == Pad;
      assert e[..|e| - 2] == c;
    } else if n % 3 == 2 {
      assert e[|e| - 2] == c[|c| - 1];
      assert e[..|e| - 1] == c;
    } else {
      assert e == c;
      assert |c| > 0 ==> e[|e| - 1] != Pad;
    }
  }

  /** Removing the padding of `btoa`'s output leaves exactly the encoded values. */
  lemma DropPaddingEncode(b: seq<Byte>)
    ensures DropPadding(Encode(b)) == Chars(Sextets(b))
  {
    SextetsLength(b);
    var c := Chars(Sextets(b));
    var q, r := |b| / 3, |b| % 3;
    assert |c| == 4 * q + (if r == 0 then 0 else r + 1);
    assert |Padding(|b|)| == (if r == 1 then 2 else if r == 2 then 1 else 0);
    var groups := if r == 0 then q else q + 1;
    assert |c| + |Padding(|b|)| == 4 * groups;
    DropPaddingAfter(c, |b|, groups);
  }

  /** `btoa` is only ever passed code units below 256, and on those `atob` undoes it. */
  lemma AtobBtoa(s: JsString)
    requires IsLatin1(s)
    ensures Btoa(s).Success? && Atob(Btoa(s).value) == Success(s)
  {
    var b := ToBytes(s);
    var e := Encode(b);
    var v := Sextets(b);
    BytesSextets(b);
    SextetsLength(b);
    EncodeShape(b);
    forall i | 0 <= i < |e| ensures !IsAsciiWhitespace(e[i]) {
    }
    StripWhitespaceNoop(e);
    DropPaddingEncode(b);
    ValuesChars(v);
  }

  /** A character that is neither whitespace, `=` nor in the alphabet makes
      `atob` throw, wherever it stands. */
  lemma AtobRejectsForeignCharacter(s: JsString, k: nat)
    requires k < |s| && !IsAlphabet(s[k]) && !IsAsciiWhitespace(s[k]) && s[k] != Pad
    ensures Atob(s).Failure?
  {
    var w := StripWhitespace(s);
    assert s[k] in w;
    var j :| 0 <= j < |w| && w[j] == s[k];
    var d := DropPadding(w);
    assert j < |d| && d[j] == s[k];
  }
}
