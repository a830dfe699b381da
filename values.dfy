/** The property values the settings engine stores and restores: the kinds of
    property it handles, value.ToString() for persisting a value, and the
    conversion back from a string that SetProperties performs (Enum.Parse for
    enumerations, Convert.ChangeType for everything else). */
module Values {
  import opened Wrappers
  import opened Strings

  const MinInt32: int := -0x8000_0000
  const MaxInt32: int := 0x7FFF_FFFF

  /** The declared type of a property. */
  datatype Kind =
    | IntK                                         // System.Int32
    | BoolK                                        // System.Boolean
    | StrK                                         // System.String
    | EnumK(typeName: string, members: seq<string>) // an enumeration and its member names
    | ObjectK(typeName: string)                    // any other class

  /** A property value; Null is the null reference. */
  datatype Value =
    | IntV(i: int)
    | BoolV(b: bool)
    | StrV(s: string)
    | EnumV(enumType: string, member: string)
    | Obj(objType: string)
    | Null

  /** The value is one a property of kind k can hold. */
  predicate HasKind(v: Value, k: Kind) {
    match v
    case IntV(n) => k == IntK && MinInt32 <= n <= MaxInt32
    case BoolV(_) => k == BoolK
    case StrV(_) => k == StrK
    case EnumV(t, m) => k.EnumK? && k.typeName == t && m in k.members
    case Obj(t) => k == ObjectK(t)
    case Null => k == StrK || k.ObjectK?
  }

  // ---------------------------------------------------------------------------
  // Decimal digits.
  // ---------------------------------------------------------------------------

  function DigitChar(d: nat): char
    requires d < 10
  {
    ('0' as int + d) as char
  }

  function DigitValue(c: char): nat
    requires IsDigit(c)
  {
    c as int - '0' as int
  }

  predicate AllDigits(s: string) {
    forall i | 0 <= i < |s| :: IsDigit(s[i])
  }

  /** The shortest decimal representation of n. */
  function Digits(n: nat): (s: string)
    ensures |s| > 0 && AllDigits(s)
  {
    if n < 10 then [DigitChar(n)] else Digits(n / 10) + [DigitChar(n % 10)]
  }

  /** The number a string of digits denotes, leading zeros allowed. */
  function DigitsValue(s: string): nat
    requires AllDigits(s)
  {
    if |s| == 0 then 0 else DigitsValue(s[..|s| - 1]) * 10 + DigitValue(s[|s| - 1])
  }

  lemma {:induction false} DigitsRoundTrip(n: nat)
    ensures DigitsValue(Digits(n)) == n
  {
    if n >= 10 {
      DigitsRoundTrip(n / 10);
      var s := Digits(n);
      assert s[..|s| - 1] == Digits(n / 10);
    }
  }

  /** Int32.ToString(): a minus sign for negative numbers, then the digits. */
  function FormatInt(n: int): string {
    if n < 0 then "-" + Digits(-n) else Digits(n)
  }

  /** Convert.ToInt32 of a string: an optional sign and at least one digit;
      anything else is a FormatException, a number outside the Int32 range an
      OverflowException. */
  function ParseInt32(s: string): (r: Result<int>)
    ensures r.Ok? ==> MinInt32 <= r.value <= MaxInt32
    ensures r.Ok? ==> |s| > 0
  {
    var signed := |s| > 0 && (s[0] == '-' || s[0] == '+');
    var body := if signed then s[1..] else s;
    if |body| == 0 || !AllDigits(body) then Err(FormatError)
    else
      var n: int := if |s| > 0 && s[0] == '-' then -(DigitsValue(body) as int) else DigitsValue(body);
      if n < MinInt32 || n > MaxInt32 then Err(Overflow) else Ok(n)
  }

  lemma IntRoundTrip(n: int)
    requires MinInt32 <= n <= MaxInt32
    ensures ParseInt32(FormatInt(n)) == Ok(n)
  {
    if n < 0 {
      DigitsRoundTrip(-n);
      assert FormatInt(n)[1..] == Digits(-n);
    } else {
      DigitsRoundTrip(n);
      assert IsDigit(Digits(n)[0]);
    }
  }

  // ---------------------------------------------------------------------------
  // Formatting and parsing values.
  // ---------------------------------------------------------------------------

  /** Two strings equal up to ASCII case. */
  predicate EqualsIgnoreCase(a: string, b: string) {
    |a| == |b| && forall i | 0 <= i < |a| :: ToUpper(a[i]) == ToUpper(b[i])
  }

  /** value.ToString() of a non-null value: decimal integers, "True"/"False",
      the string itself, the member name of an enumeration value and, for any
      other object, its type name (object.ToString). */
  function Format(v: Value): string
    requires !v.Null?
  {
    match v
    case IntV(n) => FormatInt(n)
    case BoolV(b) => if b then "True" else "False"
    case StrV(s) => s
    case EnumV(_, m) => m
    case Obj(t) => t
  }

  /** A string converted to a property of kind k: Enum.Parse by member name
      for an enumeration (ArgumentException when there is no such member),
      Convert.ChangeType otherwise (Boolean.Parse ignores case; a string cannot
      be converted to any other class). */
  function Parse(k: Kind, s: string): (r: Result<Value>)
    ensures r.Ok? ==> HasKind(r.value, k) && !r.value.Null?
    ensures k.ObjectK? ==> r == Err(InvalidCast)
    ensures k == StrK ==> r == Ok(StrV(s))
  {
    match k
    case IntK =>
      var n :- ParseInt32(s);
      Ok(IntV(n))
    case BoolK =>
      if EqualsIgnoreCase(s, "True") then Ok(BoolV(true))
      else if EqualsIgnoreCase(s, "False") then Ok(BoolV(false))
      else Err(FormatError)
    case StrK => Ok(StrV(s))
    case EnumK(t, members) =>
      if s in members then Ok(EnumV(t, s)) else Err(ArgumentError)
    case ObjectK(_) => Err(InvalidCast)
  }

  /** Converting the string a value prints as gives the value back, for every
      kind of property except plain classes. */
  lemma ParseFormat(v: Value, k: Kind)
    requires HasKind(v, k) && !v.Null? && !k.ObjectK?
    ensures Parse(k, Format(v)) == Ok(v)
  {
    if v.IntV? {
      IntRoundTrip(v.i);
    }
  }

  /** A class-typed property never survives the string round trip. */
  lemma ObjectFormatFails(t: string)
    ensures Parse(ObjectK(t), Format(Obj(t))) == Err(InvalidCast)
  {
  }

  /** Boolean.Parse accepts any casing of the two names. */
  lemma BoolIgnoresCase()
    ensures Parse(BoolK, "true") == Ok(BoolV(true))
    ensures Parse(BoolK, "FALSE") == Ok(BoolV(false))
    ensures Parse(BoolK, "yes") == Err(FormatError)
  {
    assert EqualsIgnoreCase("true", "True");
    assert !EqualsIgnoreCase("FALSE", "True");
    assert EqualsIgnoreCase("FALSE", "False");
  }

  /** A number outside the Int32 range prints fine but converts back to an
      OverflowException: conversion reports the overflow instead of wrapping. */
  lemma IntOverflow(n: int)
    requires n < MinInt32 || n > MaxInt32
    ensures ParseInt32(FormatInt(n)) == Err(Overflow)
  {
    if n < 0 {
      DigitsRoundTrip(-n);
      assert FormatInt(n)[1..] == Digits(-n);
    } else {
      DigitsRoundTrip(n);
      assert IsDigit(Digits(n)[0]);
    }
  }
}
