/** JavaScript strings as the browser sees them: sequences of UTF-16 code units. */
module JsText {

  /** One UTF-16 code unit, the value `charCodeAt` returns. */
  type CodeUnit = x: int | 0 <= x < 0x1_0000

  /** A JavaScript string. */
  type JsString = seq<CodeUnit>

  /** Every code unit is below 256, the range `btoa` accepts. */
  predicate IsLatin1(s: JsString) {
    forall i :: 0 <= i < |s| ==> s[i] < 256
  }
}
