/** The ozzo-validation rules the controller uses, as predicates on one field value.
    Every rule but Required lets an empty string or a zero number through: it only
    judges values that are present. */
module Validation {

  /** validation.Required on a string: the value is not empty. */
  predicate RequiredText(s: string)
  {
    s != ""
  }

  /** validation.Required on an int: the value is not zero. */
  predicate RequiredNumber(n: int)
  {
    n != 0
  }

  /** The number of bytes c takes in UTF-8. */
  function Utf8Width(c: char): nat
  {
    if c as int < 0x80 then 1
    else if c as int < 0x800 then 2
    else if c as int < 0x1_0000 then 3
    else 4
  }

  /** len(s) in Go: the UTF-8 byte count of the string. */
  function Utf8Length(s: string): nat
  {
    if |s| == 0 then 0 else Utf8Length(s[..|s| - 1]) + Utf8Width(s[|s| - 1])
  }

  /** validation.Length(min, max): a present value is between min and max bytes long
      (Length measures a string with len, not in runes); a bound of 0 is no bound. */
  predicate Length(s: string, min: nat, max: nat)
  {
    s == "" || ((min == 0 || min <= Utf8Length(s)) && (max == 0 || Utf8Length(s) <= max))
  }

  predicate IsAsciiLetter(c: char)
  {
    'a' <= c <= 'z' || 'A' <= c <= 'Z'
  }

  /** is.Alpha: a present value holds ASCII letters only. */
  predicate Alpha(s: string)
  {
    forall i :: 0 <= i < |s| ==> IsAsciiLetter(s[i])
  }

  /** validation.In(allowed...): a present value is one of the allowed ones. */
  predicate In(s: string, allowed: set<string>)
  {
    s == "" || s in allowed
  }

  /** validation.Min(min): a present number is at least min. */
  predicate Min(n: int, min: int)
  {
    n == 0 || n >= min
  }

  /** validation.Max(max): a present number is at most max. */
  predicate Max(n: int, max: int)
  {
    n == 0 || n <= max
  }

  /** On ASCII letters bytes and characters coincide, so Length counts characters there. */
  lemma {:induction false} AlphaLength(s: string)
    requires Alpha(s)
    ensures Utf8Length(s) == |s|
  {
    if |s| > 0 {
      AlphaLength(s[..|s| - 1]);
    }
  }

  /** Only Required rejects an absent value; every other rule accepts it. */
  lemma OptionalRulesAcceptAbsent(min: nat, max: nat, allowed: set<string>, bound: int)
    ensures !RequiredText("") && !RequiredNumber(0)
    ensures Length("", min, max) && Alpha("") && In("", allowed)
    ensures Min(0, bound) && Max(0, bound)
  {
  }
}
