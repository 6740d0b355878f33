/**
 * The obfuscation codec of `src/lib/crypto.ts`: every code unit is XORed with the
 * key's code unit at the same index modulo the key length, and the result is put
 * through `btoa`; decryption runs `atob` and then the same XOR again.
 */
module Crypto {
  import opened Wrappers
  import opened JsText
  import Base64

  /** Bitwise exclusive or of two naturals, taken bit by bit from the lowest.
      JavaScript's `^` agrees with it on operands below 2^31. */
  function Xor(a: nat, b: nat): nat
    decreases a + b
  {
    if a == 0 && b == 0 then 0
    else 2 * Xor(a / 2, b / 2) + (if a % 2 == b % 2 then 0 else 1)
  }

  predicate IsPow2(m: nat)
    decreases m
  {
    m == 1 || (m >= 2 && m % 2 == 0 && IsPow2(m / 2))
  }

  lemma {:induction false} XorZero(a: nat)
    ensures Xor(a, 0) == a
    decreases a
  {
    if a != 0 {
      XorZero(a / 2);
    }
  }

  /** XOR with the same value twice gives back the original. */
  lemma {:induction false} XorSelfInverse(a: nat, b: nat)
    ensures Xor(Xor(a, b), b) == a
    decreases a + b
  {
    var x := Xor(a, b);
    if a == 0 && b == 0 {
    } else if x == 0 && b == 0 {
      XorZero(a);
    } else {
      XorSelfInverse(a / 2, b / 2);
      assert x / 2 == Xor(a / 2, b / 2) && x % 2 == (if a % 2 == b % 2 then 0 else 1);
    }
  }

  /** XOR never sets a bit at or above the width both operands fit in. */
  lemma {:induction false} XorBelow(a: nat, b: nat, m: nat)
    requires IsPow2(m) && a < m && b < m
    ensures Xor(a, b) < m
    decreases m
  {
    if m > 1 {
      XorBelow(a / 2, b / 2, m / 2);
    }
  }

  lemma UnitWidth()
    ensures IsPow2(0x1_0000) && IsPow2(256) && IsPow2(128)
  {
    assert IsPow2(1) && IsPow2(2) && IsPow2(4) && IsPow2(8) && IsPow2(16) && IsPow2(32);
    assert IsPow2(64) && IsPow2(128) && IsPow2(256) && IsPow2(512) && IsPow2(1024);
    assert IsPow2(2048) && IsPow2(4096) && IsPow2(8192) && IsPow2(16384) && IsPow2(32768);
  }

  /** One step of `cypher`: `String.fromCharCode(c ^ k)`. */
  function XorUnit(c: CodeUnit, k: CodeUnit): CodeUnit {
    UnitWidth();
    XorBelow(c, k, 0x1_0000);
    Xor(c, k)
  }

  /** An ASCII code unit. */
  type Ascii = x: int | 0 <= x < 128

  /** The code units of 'your-super-secret-key-that-is-not-so-secret'. */
  const SecretKey: seq<Ascii> := [
    121, 111, 117, 114, 45, 115, 117, 112, 101, 114, 45, 115, 101, 99, 114, 101,
    116, 45, 107, 101, 121, 45, 116, 104, 97, 116, 45, 105, 115, 45, 110, 111,
    116, 45, 115, 111, 45, 115, 101, 99, 114, 101, 116]

  /** `key.charCodeAt(i % key.length)` as the operand of `^`: on an empty key the
      index is NaN, `charCodeAt` yields NaN and `^` reads NaN as 0. */
  function KeyCodeAt(key: JsString, i: nat): CodeUnit {
    if |key| == 0 then 0 else key[i % |key|]
  }

  /** `cypher(str, key)`: the result has the input's length and its code unit i
      depends only on code unit i of the input and on the key code at i. */
  function Cypher(str: JsString, key: JsString): (r: JsString)
    ensures |r| == |str|
    ensures forall i :: 0 <= i < |str| ==> r[i] == XorUnit(str[i], KeyCodeAt(key, i))
  {
    seq(|str|, i requires 0 <= i < |str| => XorUnit(str[i], KeyCodeAt(key, i)))
  }

  /** `cypher` is its own inverse, for every key (the empty key included, on which
      it is the identity). */
  lemma CypherInvolution(s: JsString, key: JsString)
    ensures Cypher(Cypher(s, key), key) == s
  {
    var once := Cypher(s, key);
    forall i | 0 <= i < |s| ensures Cypher(once, key)[i] == s[i] {
      XorSelfInverse(s[i], KeyCodeAt(key, i));
    }
  }

  /** With a key below a power-of-two bound, `cypher` keeps every code unit below it. */
  lemma CypherBelow(s: JsString, key: JsString, m: nat)
    requires IsPow2(m)
    requires forall i :: 0 <= i < |s| ==> s[i] < m
    requires forall i :: 0 <= i < |key| ==> key[i] < m
    ensures forall i :: 0 <= i < |s| ==> Cypher(s, key)[i] < m
  {
    forall i | 0 <= i < |s| ensures Cypher(s, key)[i] < m {
      XorBelow(s[i], KeyCodeAt(key, i), m);
    }
  }

  /** The secret key is a non-empty ASCII string, so `cypher` under it maps ASCII
      to ASCII, and it maps a string into the range of `btoa` exactly when the
      string was already in that range. */
  lemma SecretKeyRanges(s: JsString)
    ensures |SecretKey| == 43
    ensures (forall i :: 0 <= i < |s| ==> s[i] < 128) ==>
              forall i :: 0 <= i < |s| ==> Cypher(s, SecretKey)[i] < 128
    ensures IsLatin1(Cypher(s, SecretKey)) <==> IsLatin1(s)
  {
    UnitWidth();
    if forall i :: 0 <= i < |s| ==> s[i] < 128 {
      CypherBelow(s, SecretKey, 128);
    }
    if IsLatin1(s) {
      CypherBelow(s, SecretKey, 256);
    }
    if IsLatin1(Cypher(s, SecretKey)) {
      CypherBelow(Cypher(s, SecretKey), SecretKey, 256);
      CypherInvolution(s, SecretKey);
    }
  }

  /** `encrypt`: `btoa(cypher(text, SECRET_KEY))`; it throws exactly when the
      enciphered text leaves the Latin-1 range. */
  function Encrypt(text: JsString): (r: Result<JsString, Base64.DomError>)
    ensures r.Success? <==> IsLatin1(Cypher(text, SecretKey))
  {
    Base64.Btoa(Cypher(text, SecretKey))
  }

  /** `decrypt`: `cypher(atob(ciphertext), SECRET_KEY)`; a throwing `atob` is the
      failure result. */
  function Decrypt(ciphertext: JsString): (r: Result<JsString, Base64.DomError>)
    ensures r.Failure? <==> Base64.Atob(ciphertext).Failure?
  {
    match Base64.Atob(ciphertext)
    case Failure(e) => Failure(e)
    case Success(decoded) => Success(Cypher(decoded, SecretKey))
  }

  /** `encrypt` throws exactly on the text `btoa` would refuse, and otherwise
      produces base64: alphabet characters and `=` only, in a length that is a
      multiple of four. */
  lemma EncryptShape(text: JsString)
    ensures Encrypt(text).Success? <==> IsLatin1(text)
    ensures Encrypt(text).Success? ==>
              |Encrypt(text).value| % 4 == 0 &&
              forall i :: 0 <= i < |Encrypt(text).value| ==>
                Base64.IsAlphabet(Encrypt(text).value[i]) || Encrypt(text).value[i] == Base64.Pad
  {
    SecretKeyRanges(text);
    if IsLatin1(text) {
      Base64.EncodeShape(Base64.ToBytes(Cypher(text, SecretKey)));
    }
  }

  /** Round trip: every text `encrypt` accepts is recovered by `decrypt`. */
  lemma DecryptEncrypt(text: JsString)
    requires IsLatin1(text)
    ensures Encrypt(text).Success? && Decrypt(Encrypt(text).value) == Success(text)
  {
    var c := Cypher(text, SecretKey);
    SecretKeyRanges(text);
    Base64.AtobBtoa(c);
    CypherInvolution(text, SecretKey);
  }

  /** A ciphertext holding `{` (code 123), as any JSON object text does, is not
      base64 and `decrypt` fails on it. */
  lemma DecryptRejectsJsonObjectText(ciphertext: JsString, k: nat)
    requires k < |ciphertext| && ciphertext[k] == 123
    ensures Decrypt(ciphertext).Failure?
  {
    Base64.AtobRejectsForeignCharacter(ciphertext, k);
  }
}
