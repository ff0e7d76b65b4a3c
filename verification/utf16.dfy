/**
 * JavaScript strings as the browser holds them: sequences of UTF-16 code units.
 * `length`, indexing, regular-expression character classes and `substring` all
 * count code units, so a character outside the Basic Multilingual Plane (an
 * emoji, say) is two units, a surrogate pair.
 */
module Utf16 {

  /** One UTF-16 code unit. */
  newtype CodeUnit = x: int | 0 <= x < 0x1_0000

  /** A JavaScript string value. */
  type JsString = seq<CodeUnit>

  /** The first code point past the Basic Multilingual Plane. */
  const ASTRAL := 0x1_0000

  /** The code units of one character: itself, or a high surrogate followed by a low one. */
  function UnitsOf(c: char): (u: JsString)
    ensures |u| == if c as int < ASTRAL then 1 else 2
    ensures |u| == 1 ==> u[0] as int == c as int
    ensures |u| == 2 ==> 0xD800 <= u[0] as int < 0xDC00 && 0xDC00 <= u[1] as int < 0xE000
    ensures |u| == 2 ==> ASTRAL + (u[0] as int - 0xD800) * 0x400 + (u[1] as int - 0xDC00) == c as int
  {
    if c as int < ASTRAL then [c as int as CodeUnit]
    else
      var v := c as int - ASTRAL;
      [(0xD800 + v / 0x400) as CodeUnit, (0xDC00 + v % 0x400) as CodeUnit]
  }

  /**
   * The JavaScript string holding a text: each character's code units in turn. It
   * is as long as the text exactly when no character is astral, and twice as long
   * when every character is.
   */
  function Encode(s: string): (u: JsString)
    ensures |s| <= |u| <= 2 * |s|
    ensures (forall i :: 0 <= i < |s| ==> s[i] as int < ASTRAL) ==>
      |u| == |s| && forall i :: 0 <= i < |s| ==> u[i] as int == s[i] as int
    ensures (forall i :: 0 <= i < |s| ==> s[i] as int >= ASTRAL) ==> |u| == 2 * |s|
  {
    if s == [] then []
    else
      assert forall i :: 1 <= i < |s| ==> s[1..][i - 1] == s[i];
      var rest := Encode(s[1..]);
      var u := UnitsOf(s[0]) + rest;
      assert (forall i :: 0 <= i < |s| ==> s[i] as int < ASTRAL) ==>
        forall i :: 1 <= i < |s| ==> u[i] == rest[i - 1];
      u
  }
}
