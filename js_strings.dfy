/**
 * The few JavaScript string built-ins the profile pipeline relies on:
 * case mapping (restricted to ASCII), `charAt(0).toUpperCase() + slice(1)`,
 * the regular-expression class `\s`, and the rendering of a non-negative
 * integer inside a template literal.
 */
module JsStrings {

  /** `toLowerCase` on one character, ASCII letters only. */
  function LowerChar(c: char): char
  {
    if 'A' <= c <= 'Z' then (c as int + 32) as char else c
  }

  /** `toUpperCase` on one character, ASCII letters only. */
  function UpperChar(c: char): char
  {
    if 'a' <= c <= 'z' then (c as int - 32) as char else c
  }

  /** `String.prototype.toLowerCase`, ASCII letters only: no upper-case letter is left. */
  function ToLower(s: string): (r: string)
    ensures |r| == |s|
    ensures forall i :: 0 <= i < |r| ==> !('A' <= r[i] <= 'Z')
  {
    seq(|s|, i requires 0 <= i < |s| => LowerChar(s[i]))
  }

  predicate IsLowerWord(s: string)
  {
    forall i :: 0 <= i < |s| ==> 'a' <= s[i] <= 'z'
  }

  /** `s.charAt(0).toUpperCase() + s.slice(1)`; `charAt(0)` of "" is "". */
  function Capitalize(s: string): string
  {
    if s == [] then [] else [UpperChar(s[0])] + s[1..]
  }

  /** Lower-casing a capitalised lower-case word gives the word back. */
  lemma LowerOfCapitalized(w: string)
    requires IsLowerWord(w)
    ensures ToLower(Capitalize(w)) == w
  {
    var r := ToLower(Capitalize(w));
    forall i | 0 <= i < |w|
      ensures r[i] == w[i]
    {
      if i == 0 {
        assert Capitalize(w)[0] == UpperChar(w[0]);
      } else {
        assert Capitalize(w)[i] == w[i];
      }
    }
  }

  /**
   * The class matched by `\s`: ECMAScript's WhiteSpace and LineTerminator
   * code points (tab, line feed, vertical tab, form feed, carriage return,
   * space, no-break space, the Unicode space separators, line and paragraph
   * separators, and the byte order mark).
   */
  const JsWhitespaceChars: set<char> := {
    '\t', '\n', '\U{000B}', '\U{000C}', '\r', ' ', '\U{00A0}', '\U{1680}',
    '\U{2000}', '\U{2001}', '\U{2002}', '\U{2003}', '\U{2004}', '\U{2005}',
    '\U{2006}', '\U{2007}', '\U{2008}', '\U{2009}', '\U{200A}',
    '\U{2028}', '\U{2029}', '\U{202F}', '\U{205F}', '\U{3000}', '\U{FEFF}'}

  predicate IsJsWhitespace(c: char)
  {
    c in JsWhitespaceChars
  }

  predicate HasNoWhitespace(s: string)
  {
    forall i :: 0 <= i < |s| ==> !IsJsWhitespace(s[i])
  }

  function DigitChar(d: nat): char
    requires d < 10
  {
    ('0' as int + d) as char
  }

  /** `${n}` for a non-negative integer: its decimal digits, most significant first. */
  function Decimal(n: nat): (r: string)
    ensures |r| > 0
    ensures forall i :: 0 <= i < |r| ==> '0' <= r[i] <= '9'
    ensures n < 10 <==> |r| == 1
  {
    if n < 10 then [DigitChar(n)] else Decimal(n / 10) + [DigitChar(n % 10)]
  }

  /** The number a string of decimal digits spells, most significant first. */
  function DigitsValue(s: string): nat
  {
    if s == [] then 0
    else
      var c := s[|s| - 1];
      DigitsValue(s[..|s| - 1]) * 10 + (if '0' <= c <= '9' then c as int - '0' as int else 0)
  }

  /** Reading the rendered digits back gives the number: `Number(`${n}`) == n`. */
  lemma {:induction false} DecimalRoundTrip(n: nat)
    ensures DigitsValue(Decimal(n)) == n
  {
    var r := Decimal(n);
    if n < 10 {
      assert r[..|r| - 1] == [];
    } else {
      assert r[..|r| - 1] == Decimal(n / 10);
      DecimalRoundTrip(n / 10);
    }
  }
}
