/** The PHP values the module reads from its parameters and writes into model
    state, and the handful of PHP conversions and string functions it relies on
    (truthiness, integer and string casts, explode, key comparison). */
module Php {

  datatype Option<T> = None | Some(value: T)

  /** The PHP errors the modelled code can raise. */
  datatype Fault =
    | ArrayMergeTypeError                  // array_merge() given a category filter that is not an array
    | ExplodeTypeError                     // explode() given an array or an object
    | StringConversionError                // an object without __toString() used as a string
    | SortCallNotModelled(direction: Value) // `$direction($grouped)` with a name other than ksort / krsort

  datatype Result<T> = Success(value: T) | Failure(fault: Fault)

  datatype Value =
    | Null
    | Bool(b: bool)
    | Int(i: int)
    | Str(s: string)
    | List(elems: seq<Value>)
    | Object(kind: string)  // an object the module only passes along (a query expression, a registry)

  /** `if ($v)`: PHP's conversion to bool. */
  predicate Truthy(v: Value) {
    match v
    case Null => false
    case Bool(b) => b
    case Int(i) => i != 0
    case Str(s) => s != "" && s != "0"
    case List(xs) => |xs| > 0
    case Object(_) => true
  }

  /** A parameter the Registry treats as unset: absent, null or the empty string. */
  predicate Blank(params: map<string, Value>, name: string) {
    name !in params || params[name] == Null || params[name] == Str("")
  }

  /** A Registry read: `$params->get(name, default)`, which gives the default
      for a blank parameter and the stored value otherwise. */
  function Get(params: map<string, Value>, name: string, default: Value): (v: Value)
    ensures Blank(params, name) ==> v == default
    ensures !Blank(params, name) ==> v == params[name]
  {
    if name in params && params[name] != Null && params[name] != Str("") then params[name] else default
  }

  predicate IsDigit(c: char) {
    '0' <= c <= '9'
  }

  function DigitChar(d: nat): (c: char)
    requires d < 10
    ensures IsDigit(c)
  {
    ['0', '1', '2', '3', '4', '5', '6', '7', '8', '9'][d]
  }

  function DigitValue(c: char): (d: nat)
    requires IsDigit(c)
    ensures d < 10 && DigitChar(d) == c
  {
    (c - '0') as nat
  }

  /** Decimal rendering of a natural number, as PHP's string conversion of an int. */
  function NatToString(n: nat): (s: string)
    ensures |s| > 0 && AllDigits(s)
  {
    if n < 10 then [DigitChar(n)] else NatToString(n / 10) + [DigitChar(n % 10)]
  }

  function IntToString(i: int): string {
    if i < 0 then "-" + NatToString(-i) else NatToString(i)
  }

  predicate AllDigits(s: string) {
    forall k | 0 <= k < |s| :: IsDigit(s[k])
  }

  /** The value of a string of decimal digits. */
  function DigitsValue(s: string): nat
    requires AllDigits(s)
  {
    if s == [] then 0 else DigitsValue(s[..|s| - 1]) * 10 + DigitValue(s[|s| - 1])
  }

  /** The longest prefix of `s` made of decimal digits. */
  function DigitPrefix(s: string): (p: string)
    ensures |p| <= |s| && p == s[..|p|]
    ensures AllDigits(p)
    ensures |p| < |s| ==> !IsDigit(s[|p|])
  {
    if s != [] && IsDigit(s[0]) then [s[0]] + DigitPrefix(s[1..]) else []
  }

  /** The white space PHP skips around a number: space, \t, \n, \r, \v and \f. */
  predicate IsSpace(c: char) {
    c == ' ' || c == '\t' || c == '\n' || c == '\r' || c == 11 as char || c == 12 as char
  }

  /** `s` without its leading white space. */
  function SkipSpace(s: string): (t: string)
    ensures |t| <= |s| && t == s[|s| - |t|..]
    ensures |t| > 0 ==> !IsSpace(t[0])
  {
    if s != [] && IsSpace(s[0]) then SkipSpace(s[1..]) else s
  }

  /** The numeric prefix PHP reads from a string: after leading white space, an
      optional sign, the digits before and after an optional decimal point, and
      an optional exponent (`e` or `E`, an optional sign, at least one digit).
      `digits` are the digits on both sides of the point, `shift` the exponent
      less the number of digits after the point, and `rest` is what follows.
      No digit before or after the point means no number (`digits` empty). */
  datatype Numeral = Numeral(negative: bool, digits: string, shift: int, rest: string)

  /** `t` without a leading sign. */
  function Unsigned(t: string): (u: string)
    ensures |u| <= |t|
  {
    if |t| > 0 && (t[0] == '-' || t[0] == '+') then t[1..] else t
  }

  /** The digits after a decimal point that starts `s`; none without a point. */
  function Fraction(s: string): (f: string)
    ensures AllDigits(f)
    ensures |f| > 0 ==> |s| > 1 + |f| - 1 && s[0] == '.'
  {
    if |s| > 0 && s[0] == '.' then DigitPrefix(s[1..]) else []
  }

  /** What follows the decimal point and fraction that start `s`. */
  function AfterFraction(s: string): string {
    if |s| > 0 && s[0] == '.' then s[1 + |Fraction(s)|..] else s
  }

  /** The digits of the exponent that starts `s`; none when `s` does not start
      with `e` or `E`, an optional sign and a digit. */
  function ExponentDigits(s: string): (d: string)
    ensures AllDigits(d)
  {
    if |s| >= 2 && (s[0] == 'e' || s[0] == 'E') && IsDigit(s[1]) then DigitPrefix(s[1..])
    else if |s| >= 3 && (s[0] == 'e' || s[0] == 'E') && (s[1] == '+' || s[1] == '-') && IsDigit(s[2]) then DigitPrefix(s[2..])
    else []
  }

  function ExponentValue(s: string): int {
    var d := ExponentDigits(s);
    var e: int := DigitsValue(d);
    if d != [] && s[1] == '-' then -e else e
  }

  /** What follows the exponent that starts `s`. */
  function AfterExponent(s: string): string {
    var d := ExponentDigits(s);
    if d == [] then s
    else if IsDigit(s[1]) then s[1 + |d|..]
    else s[2 + |d|..]
  }

  /** The numeral at the start of `u`, which follows a sign when `negative`. */
  function ReadUnsigned(negative: bool, u: string): (n: Numeral)
    ensures AllDigits(n.digits)
  {
    var whole := DigitPrefix(u);
    var afterWhole := u[|whole|..];
    var fraction := Fraction(afterWhole);
    var after := AfterFraction(afterWhole);
    if whole == [] && fraction == [] then Numeral(false, [], 0, u)
    else Numeral(negative, whole + fraction, ExponentValue(after) - |fraction|, AfterExponent(after))
  }

  function ReadNumeral(s: string): (n: Numeral)
    ensures AllDigits(n.digits)
  {
    var t := SkipSpace(s);
    ReadUnsigned(|t| > 0 && t[0] == '-', Unsigned(t))
  }

  /** `digits` times ten to the power `shift`, truncated toward zero when the
      power is negative. */
  function Scale(digits: nat, shift: int): nat
    decreases if shift < 0 then -shift else shift
  {
    if shift == 0 then digits
    else if shift > 0 then Scale(10 * digits, shift - 1)
    else Scale(digits / 10, shift + 1)
  }

  /** The numeral's value truncated toward zero. */
  function NumeralValue(n: Numeral): int
    requires AllDigits(n.digits)
  {
    var magnitude: int := Scale(DigitsValue(n.digits), n.shift);
    if n.negative then -magnitude else magnitude
  }

  /** `(int) "..."`: the value of the leading numeral, truncated toward zero; 0
      when the string does not start with one. */
  function LeadingInt(s: string): int {
    NumeralValue(ReadNumeral(s))
  }

  /** `(int) $v`. */
  function ToInt(v: Value): int {
    match v
    case Null => 0
    case Bool(b) => if b then 1 else 0
    case Int(i) => i
    case Str(s) => LeadingInt(s)
    case List(xs) => if |xs| == 0 then 0 else 1
    case Object(_) => 1
  }

  /** A numeric string in PHP 8: a numeral with nothing but white space after it. */
  predicate IsNumeric(s: string) {
    var n := ReadNumeral(s);
    n.digits != [] && forall k | 0 <= k < |n.rest| :: IsSpace(n.rest[k])
  }

  /** `(string) $v`, as used by string concatenation and array_unique. */
  function ToStr(v: Value): string {
    match v
    case Null => ""
    case Bool(b) => if b then "1" else ""
    case Int(i) => IntToString(i)
    case Str(s) => s
    case List(_) => "Array"
    case Object(_) => ""
  }

  /** `$v . suffix`: arrays read as "Array", objects cannot be converted. */
  function Concat(v: Value, suffix: string): Result<string> {
    if v.Object? then Failure(StringConversionError) else Success(ToStr(v) + suffix)
  }

  /** `$v == name` (PHP 8 loose equality) for a name that is a non-empty,
      non-numeric string, which is all that a `switch` in the module compares with. */
  predicate LooseEqualsLabel(v: Value, name: string) {
    match v
    case Str(s) => s == name
    case Bool(b) => b
    case _ => false
  }

  lemma {:induction false} DigitPrefixOfDigits(s: string)
    requires AllDigits(s)
    ensures DigitPrefix(s) == s
  {
    if s != [] {
      DigitPrefixOfDigits(s[1..]);
    }
  }

  lemma {:induction false} DigitsValueOfNatToString(n: nat)
    ensures DigitsValue(NatToString(n)) == n
  {
    var s := NatToString(n);
    if n < 10 {
      assert s[..|s| - 1] == [];
    } else {
      DigitsValueOfNatToString(n / 10);
      assert s[..|s| - 1] == NatToString(n / 10);
    }
  }

  // Reading a numeral, one step at a time

  /** Without leading white space or a sign, the numeral starts at once. */
  lemma ReadPlain(s: string)
    requires |s| > 0 && !IsSpace(s[0]) && s[0] != '-' && s[0] != '+'
    ensures ReadNumeral(s) == ReadUnsigned(false, s)
  {
    assert SkipSpace(s) == s;
  }

  /** A sign is read before the numeral; a minus makes it negative. */
  lemma ReadSigned(c: char, s: string)
    requires c == '-' || c == '+'
    ensures ReadNumeral([c] + s) == ReadUnsigned(c == '-', s)
  {
    var t := [c] + s;
    assert !IsSpace(t[0]) && t[1..] == s;
    assert SkipSpace(t) == t;
  }

  /** Leading white space is skipped. */
  lemma ReadSpaced(c: char, s: string)
    requires IsSpace(c)
    ensures ReadNumeral([c] + s) == ReadNumeral(s)
  {
    assert ([c] + s)[1..] == s;
  }

  /** A string of digits is read whole, with no fraction and no exponent. */
  lemma ReadDigits(negative: bool, d: string)
    requires |d| > 0 && AllDigits(d)
    ensures ReadUnsigned(negative, d) == Numeral(negative, d, 0, [])
  {
    DigitPrefixOfDigits(d);
    assert d[|d|..] == [] && d + [] == d;
  }

  /** Digits, a point and digits are read as one digit string shifted right by
      the number of digits after the point. */
  lemma ReadFraction(d: string, f: string)
    requires |d| > 0 && AllDigits(d) && AllDigits(f)
    ensures ReadUnsigned(false, d + "." + f) == Numeral(false, d + f, -|f|, [])
  {
    var s := d + "." + f;
    assert s == d + ("." + f);
    DigitPrefixThen(d, "." + f);
    assert s[|d|..] == "." + f;
    DigitPrefixOfDigits(f);
    assert ("." + f)[1..] == f && f[|f|..] == [];
    assert Fraction("." + f) == f && AfterFraction("." + f) == [];
  }

  /** The digit prefix of digits followed by a non-digit is those digits. */
  lemma {:induction false} DigitPrefixThen(d: string, r: string)
    requires AllDigits(d) && (r == [] || !IsDigit(r[0]))
    ensures DigitPrefix(d + r) == d
  {
    if d != [] {
      assert (d + r)[1..] == d[1..] + r;
      DigitPrefixThen(d[1..], r);
    }
  }

  /** The same numeral after a minus sign has the opposite value. */
  lemma NegatedValue(u: string)
    ensures NumeralValue(ReadUnsigned(true, u)) == -NumeralValue(ReadUnsigned(false, u))
  {
    var n, m := ReadUnsigned(false, u), ReadUnsigned(true, u);
    if n.digits != [] {
      assert m == n.(negative := true);
    } else {
      assert m == n && !n.negative;
    }
  }

  /** Dropping `|f|` decimal places from the digits `d` followed by `f` leaves `d`. */
  lemma {:induction false} TruncatedFraction(d: string, f: string)
    requires AllDigits(d) && AllDigits(f)
    ensures Scale(DigitsValue(d + f), -|f|) == DigitsValue(d)
  {
    if f != [] {
      var g := f[..|f| - 1];
      assert (d + f)[..|d + f| - 1] == d + g;
      TruncatedFraction(d, g);
    } else {
      assert d + f == d;
    }
  }

  // What `(int)` makes of a string

  /** Reading back a rendered id: `(int)` of the decimal string is the number. */
  lemma NatToStringRoundTrip(n: nat)
    ensures ToInt(Str(NatToString(n))) == n
  {
    var d := NatToString(n);
    assert IsDigit(d[0]);
    ReadPlain(d);
    ReadDigits(false, d);
    CastOfNumeral(d, Numeral(false, d, 0, []));
    DigitsValueOfNatToString(n);
  }

  /** A minus sign before a rendered number reads back as its negation. */
  lemma NegatedRoundTrip(n: nat)
    ensures ToInt(Str(['-'] + NatToString(n))) == 0 - n
  {
    var d := NatToString(n);
    ReadSigned('-', d);
    ReadDigits(true, d);
    CastOfNumeral(['-'] + d, Numeral(true, d, 0, []));
    DigitsValueOfNatToString(n);
  }

  /** `(int)` reads back every integer from its string form, negative ones included. */
  lemma IntToStringRoundTrip(i: int)
    ensures ToInt(Str(IntToString(i))) == i
  {
    if i < 0 {
      NegatedRoundTrip(-i);
      assert IntToString(i) == ['-'] + NatToString(-i);
    } else {
      NatToStringRoundTrip(i);
    }
  }

  /** A leading blank is skipped, a leading plus sign is ignored and a leading
      minus sign negates, as long as a digit or a point follows the sign. */
  lemma SignAndSpace(s: string)
    requires |s| > 0 && !IsSpace(s[0]) && s[0] != '-' && s[0] != '+'
    ensures ToInt(Str(" " + s)) == ToInt(Str(s))
    ensures ToInt(Str("+" + s)) == ToInt(Str(s))
    ensures ToInt(Str("-" + s)) == -ToInt(Str(s))
  {
    ReadPlain(s);
    ReadSpaced(' ', s);
    ReadSigned('+', s);
    ReadSigned('-', s);
    NegatedValue(s);
  }

  /** Digits, a point and digits at the start of a string form one numeral. */
  lemma FractionNumeral(d: string, f: string)
    requires |d| > 0 && AllDigits(d) && AllDigits(f)
    ensures ReadNumeral(d + "." + f) == Numeral(false, d + f, -|f|, [])
  {
    assert IsDigit((d + "." + f)[0]);
    ReadPlain(d + "." + f);
    ReadFraction(d, f);
  }

  /** `(int)` of a string is the value of the numeral read from it. */
  lemma CastOfNumeral(s: string, n: Numeral)
    requires ReadNumeral(s) == n && AllDigits(n.digits)
    ensures ToInt(Str(s)) == NumeralValue(n)
  {
  }

  /** `(int)` of a decimal fraction drops the fraction: "12.9" reads as 12. */
  lemma FractionCast(d: string, f: string)
    requires |d| > 0 && AllDigits(d) && AllDigits(f)
    ensures ToInt(Str(d + "." + f)) == DigitsValue(d)
  {
    var n := Numeral(false, d + f, -|f|, []);
    FractionNumeral(d, f);
    CastOfNumeral(d + "." + f, n);
    TruncatedFraction(d, f);
    assert NumeralValue(n) == Scale(DigitsValue(d + f), -|f|);
  }

  /** An integer cast that is not zero comes from a truthy value; in particular
      "" and "0" cast to 0. */
  lemma NonZeroIsTruthy(v: Value)
    ensures ToInt(v) != 0 ==> Truthy(v)
  {
    if v.Str? && (v.s == "" || v.s == "0") {
      assert DigitPrefix("0") == "0" && DigitsValue("0") == 0;
      assert DigitPrefix("") == [];
    }
  }

  /** No shift makes zero anything but zero. */
  lemma {:induction false} ScaleOfZero(shift: int)
    ensures Scale(0, shift) == 0
    decreases if shift < 0 then -shift else shift
  {
    if shift > 0 {
      ScaleOfZero(shift - 1);
    } else if shift < 0 {
      ScaleOfZero(shift + 1);
    }
  }

  /** A string of zero digits has the value zero. */
  lemma {:induction false} ZerosValue(d: string)
    requires AllDigits(d) && forall k | 0 <= k < |d| :: d[k] == '0'
    ensures DigitsValue(d) == 0
  {
    if d != [] {
      ZerosValue(d[..|d| - 1]);
    }
  }

  // ---------------------------------------------------------------------------
  // explode("\r\n", $s)

  /** `explode("\r\n", s)`: the pieces between the leftmost non-overlapping
      occurrences of the separator; there is always at least one piece. */
  function Explode(s: string): (parts: seq<string>)
    ensures |parts| >= 1
    decreases |s|
  {
    if |s| == 0 then [""]
    else if |s| >= 2 && s[0] == '\r' && s[1] == '\n' then [""] + Explode(s[2..])
    else
      var rest := Explode(s[1..]);
      [[s[0]] + rest[0]] + rest[1..]
  }

  /** Joining two strings with the separator joins their pieces: no separator
      is formed across the seam and none is lost. */
  lemma {:induction false} ExplodeJoin(a: string, b: string)
    ensures Explode(a + "\r\n" + b) == Explode(a) + Explode(b)
    decreases |a|
  {
    var s := a + "\r\n" + b;
    if |a| == 0 {
      assert s[2..] == b;
    } else if |a| >= 2 && a[0] == '\r' && a[1] == '\n' {
      assert s[2..] == a[2..] + "\r\n" + b;
      ExplodeJoin(a[2..], b);
    } else {
      assert !(s[0] == '\r' && s[1] == '\n');
      assert s[1..] == a[1..] + "\r\n" + b;
      ExplodeJoin(a[1..], b);
    }
  }

  /** A string without a carriage return is a single piece. */
  lemma {:induction false} ExplodeWithoutSeparator(d: string)
    requires forall k | 0 <= k < |d| :: d[k] != '\r'
    ensures Explode(d) == [d]
  {
    if |d| > 0 {
      ExplodeWithoutSeparator(d[1..]);
      assert [d[0]] + d[1..] == d;
    }
  }

  /** Appending "\r\n" and a decimal id to a list makes that id its last piece. */
  lemma ExplodeAppendId(a: string, n: nat)
    ensures Explode(a + "\r\n" + NatToString(n)) == Explode(a) + [NatToString(n)]
  {
    ExplodeJoin(a, NatToString(n));
    var d := NatToString(n);
    forall k | 0 <= k < |d| ensures d[k] != '\r' {
      assert IsDigit(d[k]);
    }
    ExplodeWithoutSeparator(d);
  }

  // ---------------------------------------------------------------------------
  // Key order used by ksort / krsort

  /** Byte-wise (here: character-wise) lexicographic order on array keys. */
  predicate Less(a: string, b: string) {
    if |a| == 0 then |b| > 0
    else if |b| == 0 then false
    else if a[0] == b[0] then Less(a[1..], b[1..])
    else a[0] < b[0]
  }

  lemma {:induction false} LessIrreflexive(a: string)
    ensures !Less(a, a)
  {
    if |a| > 0 {
      LessIrreflexive(a[1..]);
    }
  }

  lemma {:induction false} LessTransitive(a: string, b: string, c: string)
    requires Less(a, b) && Less(b, c)
    ensures Less(a, c)
  {
    if |a| > 0 && |b| > 0 && |c| > 0 && a[0] == b[0] && b[0] == c[0] {
      LessTransitive(a[1..], b[1..], c[1..]);
    }
  }

  lemma {:induction false} LessTotal(a: string, b: string)
    requires a != b
    ensures Less(a, b) || Less(b, a)
  {
    if |a| > 0 && |b| > 0 && a[0] == b[0] {
      assert a == [a[0]] + a[1..] && b == [b[0]] + b[1..];
      LessTotal(a[1..], b[1..]);
    }
  }
}
