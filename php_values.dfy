/**
 * The PHP scalar values that the image cache keeps in its parameter array,
 * and the parts of PHP's loose semantics (empty(), truthiness, comparison of
 * a value with an integer, number-to-string conversion, strtolower,
 * stripslashes) that the cache's decisions depend on.
 */
module PhpValues {
  import opened Wrappers

  /** A PHP scalar as it can sit in the parameter array. */
  datatype Val = Null | Bool(b: bool) | Str(s: string) | Int(i: int)

  /** PHP's empty(): null, false, "", "0" and 0 are empty. */
  predicate Empty(v: Val) {
    match v
    case Null => true
    case Bool(b) => !b
    case Str(s) => s == "" || s == "0"
    case Int(i) => i == 0
  }

  /** PHP truthiness (an `if ($v)` test) is the negation of empty(). */
  predicate Truthy(v: Val) {
    !Empty(v)
  }

  predicate IsDigit(c: char) {
    '0' <= c <= '9'
  }

  predicate IsDigits(s: string) {
    forall i :: 0 <= i < |s| ==> IsDigit(s[i])
  }

  /** The number a string of decimal digits denotes ("" denotes 0). */
  function DigitsValue(s: string): nat
    requires IsDigits(s)
  {
    if s == [] then 0
    else DigitsValue(s[..|s| - 1]) * 10 + (s[|s| - 1] as int - '0' as int)
  }

  function DigitChar(d: nat): (c: char)
    requires d < 10
    ensures IsDigit(c)
  {
    ('0' as int + d) as char
  }

  /** PHP's conversion of a non-negative integer to its decimal string. */
  function NatToString(n: nat): (s: string)
    ensures s != [] && IsDigits(s)
    ensures n >= 10 ==> s[0] != '0'
  {
    if n < 10 then [DigitChar(n)] else NatToString(n / 10) + [DigitChar(n % 10)]
  }

  /** Reading back the decimal string of n gives n. */
  lemma {:induction false} DigitsValueOfNatToString(n: nat)
    ensures DigitsValue(NatToString(n)) == n
  {
    var s := NatToString(n);
    if n >= 10 {
      DigitsValueOfNatToString(n / 10);
      assert s[..|s| - 1] == NatToString(n / 10);
    } else {
      assert s[..|s| - 1] == [];
    }
  }

  /** Distinct numbers have distinct decimal strings. */
  lemma NatToStringInjective(a: nat, b: nat)
    requires NatToString(a) == NatToString(b)
    ensures a == b
  {
    DigitsValueOfNatToString(a);
    DigitsValueOfNatToString(b);
  }

  /**
   * The values a width or height slot can hold: null (never set), a string
   * of decimal digits taken from a `w`/`h` token, or the integer a clamp
   * stored there.
   */
  predicate IsDimVal(v: Val) {
    v.Null? || (v.Str? && IsDigits(v.s)) || (v.Int? && v.i >= 0)
  }

  /**
   * What a dimension slot means to the resize arithmetic: None when empty(),
   * otherwise its numeric value. Note that "00" is not empty() but is 0.
   */
  function DimValue(v: Val): (r: Option<nat>)
    requires IsDimVal(v)
    ensures r.Some? <==> !Empty(v)
  {
    match v
    case Str(s) => if s == "" || s == "0" then None else Some(DigitsValue(s))
    case Int(i) => if i == 0 then None else Some(i)
    case _ => None
  }

  /**
   * PHP's `$v > $n` for a positive integer $n and a dimension value.
   * null compares as a boolean (false > true never holds); "" is below any
   * positive integer under both the PHP 7 and the PHP 8 rules; a digit
   * string compares numerically.
   */
  predicate GreaterThanInt(v: Val, n: int)
    requires IsDimVal(v) && n > 0
  {
    match v
    case Str(s) => s != "" && DigitsValue(s) > n
    case Int(i) => i > n
    case _ => false
  }

  /** PHP's `$v == $n` for a positive integer $n and a dimension value. */
  predicate LooseEqualsInt(v: Val, n: int)
    requires IsDimVal(v) && n > 0
  {
    match v
    case Str(s) => s != "" && DigitsValue(s) == n
    case Int(i) => i == n
    case _ => false
  }

  /** `$v > $n` holds exactly when the slot is set to a number above n. */
  lemma GreaterThanIntMeaning(v: Val, n: int)
    requires IsDimVal(v) && n > 0
    ensures GreaterThanInt(v, n) <==> DimValue(v).Some? && DimValue(v).value > n
  {
    if v.Str? && v.s == "0" {
      assert DigitsValue(v.s) == DigitsValue(v.s[..0]) * 10 + 0;
    }
  }

  /** `$v == $n` holds exactly when the slot is set to the number n. */
  lemma LooseEqualsIntMeaning(v: Val, n: int)
    requires IsDimVal(v) && n > 0
    ensures LooseEqualsInt(v, n) <==> DimValue(v) == Some(n)
  {
    if v.Str? && v.s == "0" {
      assert DigitsValue(v.s) == DigitsValue(v.s[..0]) * 10 + 0;
    }
  }

  function LowerChar(c: char): char {
    if 'A' <= c <= 'Z' then (c as int - 'A' as int + 'a' as int) as char else c
  }

  /** PHP's strtolower on ASCII letters. */
  function Lower(s: string): string {
    if s == [] then [] else [LowerChar(s[0])] + Lower(s[1..])
  }

  /** strtolower maps each character on its own and keeps the length. */
  lemma {:induction false} LowerChars(s: string)
    ensures |Lower(s)| == |s|
    ensures forall i :: 0 <= i < |s| ==> Lower(s)[i] == LowerChar(s[i])
  {
    if s != [] {
      LowerChars(s[1..]);
      forall i | 0 <= i < |s|
        ensures Lower(s)[i] == LowerChar(s[i])
      {
        if i > 0 {
          assert Lower(s)[i] == Lower(s[1..])[i - 1];
        }
      }
    }
  }

  /** Lower-casing introduces no character that is not a letter. */
  lemma LowerKeeps(s: string, c: char)
    requires !('A' <= c <= 'Z') && !('a' <= c <= 'z')
    ensures c !in s ==> c !in Lower(s)
  {
    LowerChars(s);
  }

  /**
   * PHP's stripslashes: a backslash is dropped and the character after it
   * kept literally, except that `\0` becomes the NUL character; a lone
   * trailing backslash is dropped.
   */
  function StripSlashes(s: string): string
    decreases |s|
  {
    if s == [] then []
    else if s[0] == '\\' then
      if |s| == 1 then [] else [if s[1] == '0' then '\0' else s[1]] + StripSlashes(s[2..])
    else [s[0]] + StripSlashes(s[1..])
  }

  /** stripslashes leaves a string without backslashes unchanged. */
  lemma {:induction false} StripSlashesIdentity(s: string)
    requires '\\' !in s
    ensures StripSlashes(s) == s
  {
    if s != [] {
      assert '\\' !in s[1..];
      StripSlashesIdentity(s[1..]);
    }
  }
}
