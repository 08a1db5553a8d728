/**
 * The part of JavaScript's runtime semantics that the catalogue code relies
 * on: numbers that may be NaN, strict equality on them, decimal rendering of
 * integers (`toString`), the two string-to-number conversions the code uses
 * (`parseInt` and `Number`), ASCII lower-casing and substring search
 * (`includes`).
 */
module JsRuntime {

  datatype Option<+T> = None | Some(value: T) {
    predicate IsFailure() { None? }

    function PropagateFailure<U>(): Option<U>
      requires None?
    {
      None
    }

    function Extract(): T
      requires Some?
    {
      value
    }
  }

  /** Why a call threw. */
  datatype Failure = NoFileProvided | BackendError | TypeError

  /** The outcome of a call that may throw. */
  datatype Outcome<+T> = Returned(value: T) | Threw(failure: Failure)

  /**
   * A JavaScript number as the catalogue uses it: an integer (ids,
   * semesters, timestamps) or NaN. Fractions and infinities never arise.
   */
  datatype Num = Finite(v: int) | NaN

  /** `a === b` on numbers: NaN is equal to nothing, itself included. */
  predicate NumEq(a: Num, b: Num) {
    a.Finite? && b.Finite? && a.v == b.v
  }

  /** `===` on numbers is equality of finite numbers: symmetric, and never true of NaN. */
  lemma NumEqIsFiniteEquality(a: Num, b: Num)
    ensures NumEq(a, b) <==> a == b && a.Finite?
    ensures NumEq(a, b) <==> NumEq(b, a)
    ensures !NumEq(NaN, b)
  {
  }

  predicate IsDigit(c: char) {
    '0' <= c <= '9'
  }

  predicate AllDigits(s: string) {
    forall i :: 0 <= i < |s| ==> IsDigit(s[i])
  }

  function DigitChar(d: nat): (c: char)
    requires d < 10
    ensures IsDigit(c) && c as int - '0' as int == d
  {
    (d + '0' as int) as char
  }

  /** Decimal digits of a natural number, most significant first. */
  function NatToString(n: nat): (s: string)
    ensures |s| > 0 && AllDigits(s)
    ensures s[0] == '0' ==> n == 0
  {
    if n < 10 then [DigitChar(n)] else NatToString(n / 10) + [DigitChar(n % 10)]
  }

  /** `n.toString()` for an integer. */
  function IntToString(n: int): (s: string)
    ensures |s| > 0
    ensures n < 0 <==> s[0] == '-'
  {
    if n < 0 then "-" + NatToString(-n) else NatToString(n)
  }

  /** `x.toString()` for a number; `Number` reads every such string back as the number. */
  function NumToString(x: Num): (s: string)
    ensures StringToNumber(s) == x
  {
    match x
    case Finite(v) => StringToNumberOfIntToString(v); IntToString(v)
    case NaN => "NaN"
  }

  /** The value of a string of decimal digits. */
  function DigitsValue(s: string): nat
    requires AllDigits(s)
  {
    if s == [] then 0 else DigitsValue(s[..|s| - 1]) * 10 + (s[|s| - 1] as int - '0' as int)
  }

  lemma {:induction false} DigitsValueOfNatToString(n: nat)
    ensures DigitsValue(NatToString(n)) == n
  {
    if n >= 10 {
      var s := NatToString(n);
      assert s[..|s| - 1] == NatToString(n / 10);
      DigitsValueOfNatToString(n / 10);
    }
  }

  /** The longest prefix of `s` made of decimal digits. */
  function LeadingDigits(s: string): (r: string)
    ensures r <= s && AllDigits(r)
    ensures |r| < |s| ==> !IsDigit(s[|r|])
  {
    if s != [] && IsDigit(s[0]) then [s[0]] + LeadingDigits(s[1..]) else []
  }

  /** A digit run followed by something that is not a digit is read whole. */
  lemma LeadingDigitsOfDigitRun(ds: string, rest: string)
    requires AllDigits(ds)
    requires rest == [] || !IsDigit(rest[0])
    ensures LeadingDigits(ds + rest) == ds
  {
    var s := ds + rest;
    var r := LeadingDigits(s);
    assert r == s[..|ds|] == ds;
  }

  /** The sign a leading '-' gives. */
  function SignOf(s: string): int {
    if |s| > 0 && s[0] == '-' then -1 else 1
  }

  /** `s` without one leading '+' or '-'. */
  function Unsigned(s: string): string {
    if |s| > 0 && (s[0] == '-' || s[0] == '+') then s[1..] else s
  }

  /**
   * `parseInt(s)`: an optional sign, then the longest run of decimal digits;
   * NaN when there is no digit. Anything after the digits is ignored.
   */
  function ParseInt(s: string): (r: Num)
    ensures r.Finite? <==> |Unsigned(s)| > 0 && IsDigit(Unsigned(s)[0])
    ensures r.Finite? && r.v < 0 ==> s[0] == '-'
  {
    var ds := LeadingDigits(Unsigned(s));
    if ds == [] then NaN else Finite(SignOf(s) * DigitsValue(ds))
  }

  /**
   * `Number(s)` for a string: the empty string is 0, an optional sign
   * followed by decimal digits and nothing else is their value, anything
   * else is NaN.
   */
  function StringToNumber(s: string): (r: Num)
    ensures s == [] ==> r == Finite(0)
    ensures s != [] ==> (r.Finite? <==> Unsigned(s) != [] && AllDigits(Unsigned(s)))
    ensures s != [] && r.Finite? ==> r == ParseInt(s)
  {
    if s == [] then Finite(0)
    else if Unsigned(s) != [] && AllDigits(Unsigned(s)) then
      // the digits are then all of what `parseInt` reads
      LeadingDigitsOfDigitRun(Unsigned(s), []);
      assert Unsigned(s) + [] == Unsigned(s);
      Finite(SignOf(s) * DigitsValue(Unsigned(s)))
    else NaN
  }

  lemma UnsignedOfIntToString(n: int)
    ensures Unsigned(IntToString(n)) == NatToString(if n < 0 then -n else n)
    ensures SignOf(IntToString(n)) == if n < 0 then -1 else 1
  {
    var m: nat := if n < 0 then -n else n;
    assert IsDigit(NatToString(m)[0]);
    if n < 0 {
      assert IntToString(n)[1..] == NatToString(m);
    }
  }

  /** `parseInt` reads back the integer `toString` wrote, whatever non-digit text follows it. */
  lemma ParseIntOfIntToString(n: int, rest: string)
    requires rest == [] || !IsDigit(rest[0])
    ensures ParseInt(IntToString(n) + rest) == Finite(n)
  {
    var m: nat := if n < 0 then -n else n;
    SignAndDigitsOfText(n, rest);
    LeadingDigitsOfDigitRun(NatToString(m), rest);
    DigitsValueOfNatToString(m);
  }

  /** The sign and the unsigned text of a rendered integer followed by more text. */
  lemma SignAndDigitsOfText(n: int, rest: string)
    ensures Unsigned(IntToString(n) + rest) == NatToString(if n < 0 then -n else n) + rest
    ensures SignOf(IntToString(n) + rest) == if n < 0 then -1 else 1
  {
    var s := IntToString(n) + rest;
    UnsignedOfIntToString(n);
    assert s[0] == IntToString(n)[0];
    if n < 0 {
      assert s[1..] == IntToString(n)[1..] + rest;
    }
  }

  /** `Number` reads back the integer `toString` wrote. */
  lemma StringToNumberOfIntToString(n: int)
    ensures StringToNumber(IntToString(n)) == Finite(n)
  {
    var m: nat := if n < 0 then -n else n;
    UnsignedOfIntToString(n);
    DigitsValueOfNatToString(m);
  }

  /** `parseInt` and `Number` part ways on trailing text: "12abc" is 12 to one and NaN to the other. */
  lemma ParseIntAndNumberDiffer()
    ensures ParseInt("12abc") == Finite(12)
    ensures StringToNumber("12abc") == NaN
  {
    assert NatToString(12) == "12";
    ParseIntOfIntToString(12, "abc");
    assert !AllDigits(Unsigned("12abc")) by { assert !IsDigit("12abc"[2]); }
  }

  function LowerChar(c: char): char {
    if 'A' <= c <= 'Z' then (c as int + 32) as char else c
  }

  /** `s.toLowerCase()` over ASCII letters. */
  function Lower(s: string): (r: string)
    ensures |r| == |s|
    ensures forall i :: 0 <= i < |s| ==> r[i] == LowerChar(s[i])
  {
    if s == [] then [] else [LowerChar(s[0])] + Lower(s[1..])
  }

  /** `needle` occurs in `hay` starting at index `i`. */
  predicate OccursAt(hay: string, needle: string, i: int) {
    0 <= i && i + |needle| <= |hay| && hay[i..i + |needle|] == needle
  }

  /** `hay.includes(needle)`: `needle` occurs in `hay` at some position. */
  function Includes(hay: string, needle: string): (b: bool)
    ensures b <==> exists i :: OccursAt(hay, needle, i)
  {
    if |needle| <= |hay| && hay[..|needle|] == needle then
      assert OccursAt(hay, needle, 0);
      true
    else if hay == [] then
      false
    else
      var b := Includes(hay[1..], needle);
      assert forall i :: OccursAt(hay, needle, i) ==> i >= 1 && OccursAt(hay[1..], needle, i - 1);
      assert forall i :: OccursAt(hay[1..], needle, i) ==> OccursAt(hay, needle, i + 1);
      b
  }
}
