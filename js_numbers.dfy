/** The two JavaScript number conversions that pen ids go through: `parseInt`
    on a text id, and the loose comparison `==` of a number with a text. */
module JsNumbers {
  import opened Store

  /** A numeric value as a key: an integer, or NaN. */
  datatype NumberKey = Number(n: nat) | NaN

  predicate IsDigit(c: char)
  {
    '0' <= c <= '9'
  }

  predicate AllDigits(s: string)
  {
    forall i :: 0 <= i < |s| ==> IsDigit(s[i])
  }

  /** The longest prefix made of decimal digits. */
  function LeadingDigits(s: string): (d: string)
    ensures |d| <= |s| && d == s[..|d|]
    ensures AllDigits(d)
    ensures |d| < |s| ==> !IsDigit(s[|d|])
  {
    if s != [] && IsDigit(s[0]) then [s[0]] + LeadingDigits(s[1..]) else []
  }

  /** The value of a string of decimal digits. */
  function DigitsValue(d: string): nat
    requires AllDigits(d)
  {
    if d == [] then 0 else DigitsValue(d[..|d| - 1]) * 10 + (d[|d| - 1] as int - '0' as int)
  }

  /** `parseInt` on text without leading blanks or sign: the value of the
      leading digits, NaN when the text does not start with one. */
  function ParseInt(s: string): (k: NumberKey)
    ensures k.Number? <==> s != [] && IsDigit(s[0])
  {
    var d := LeadingDigits(s);
    if d == [] then NaN else Number(DigitsValue(d))
  }

  /** A key the store is asked for or indexes a record under. The store
      compares keys strictly: a number never equals a text. NaN is not a
      valid key, so a record holding it in an indexed field is not indexed,
      and a query for it finds nothing. */
  datatype LookupKey = NumericKey(n: nat) | TextKey(id: string)

  /** The key a parsed value becomes in an indexed field; None for NaN. */
  function KeyOf(k: NumberKey): (key: Option<LookupKey>)
    ensures key.Some? <==> k.Number?
    ensures k.Number? ==> key == Some(NumericKey(k.n))
  {
    match k
    case Number(n) => Some(NumericKey(n))
    case NaN => None
  }

  /** `k == s` for a number `k` and a text `s`, for the texts the core
      compares: a non-empty text of digits converts to its value, and a
      hyphenated UUID converts to NaN, which equals nothing. */
  predicate LooseEquals(k: NumberKey, s: string)
  {
    k.Number? && s != [] && AllDigits(s) && DigitsValue(s) == k.n
  }

  // ----- Properties -----

  /** Parsing a text of digits gives back its value, and the two compare
      equal: only such ids survive `parseInt`. */
  lemma {:induction false} DigitIdsSurviveParsing(s: string)
    requires s != [] && AllDigits(s)
    ensures ParseInt(s) == Number(DigitsValue(s))
    ensures LooseEquals(ParseInt(s), s)
  {
    assert LeadingDigits(s) == s by {
      LeadingDigitsOfDigits(s);
    }
  }

  lemma {:induction false} LeadingDigitsOfDigits(s: string)
    requires AllDigits(s)
    ensures LeadingDigits(s) == s
  {
    if s != [] {
      LeadingDigitsOfDigits(s[1..]);
    }
  }

  /** The shape of the random ids the app draws: 36 characters with dashes
      at positions 8, 13, 18 and 23. */
  predicate IsUuidShaped(s: string)
  {
    |s| == 36 && s[8] == '-' && s[13] == '-' && s[18] == '-' && s[23] == '-'
  }

  /** A UUID never compares equal to a number, whatever that number is. */
  lemma UuidsNeverEqualNumbers(k: NumberKey, s: string)
    requires IsUuidShaped(s)
    ensures !LooseEquals(k, s)
  {
    assert !IsDigit(s[8]);
  }
}
