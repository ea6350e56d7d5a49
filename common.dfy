/** Small shared vocabulary: options, JavaScript values and the string
    operations the services and the user interface rely on. */
module Wrappers {

  /** `undefined`/`null` versus a present value. */
  datatype Option<+T> = None | Some(value: T)
  {
    function GetOr(default: T): T
    {
      match this
      case Some(v) => v
      case None => default
    }
  }
}

/** Strings as the JavaScript code sees them: ASCII case mapping, substring
    search, and integer <-> digit-string conversions (`toString(radix)`,
    `BigInt(...)`). */
module Text {
  import opened Wrappers

  function LowerChar(c: char): char
  {
    if 'A' <= c <= 'Z' then (c as int + 32) as char else c
  }

  function UpperChar(c: char): char
  {
    if 'a' <= c <= 'z' then (c as int - 32) as char else c
  }

  /** `String.prototype.toLowerCase` restricted to ASCII letters. */
  function ToLower(s: string): (r: string)
    ensures |r| == |s|
    ensures forall i :: 0 <= i < |s| ==> r[i] == LowerChar(s[i])
    decreases |s|
  {
    if s == "" then "" else [LowerChar(s[0])] + ToLower(s[1..])
  }

  /** `String.prototype.toUpperCase` restricted to ASCII letters. */
  function ToUpper(s: string): (r: string)
    ensures |r| == |s|
    ensures forall i :: 0 <= i < |s| ==> r[i] == UpperChar(s[i])
    decreases |s|
  {
    if s == "" then "" else [UpperChar(s[0])] + ToUpper(s[1..])
  }

  lemma ToLowerIdempotent(s: string)
    ensures ToLower(ToLower(s)) == ToLower(s)
  {
  }

  /** `sub` occurs in `s` starting at index `i`. */
  predicate OccursAt(s: string, sub: string, i: nat)
  {
    i + |sub| <= |s| && s[i..i + |sub|] == sub
  }

  /** `s.includes(sub)`. */
  predicate Contains(s: string, sub: string)
  {
    exists i: nat | i <= |s| :: OccursAt(s, sub, i)
  }

  /** Every string contains the empty string. */
  lemma ContainsEmpty(s: string)
    ensures Contains(s, "")
  {
    assert OccursAt(s, "", 0);
  }

  /** The code points `trim` and `parseInt` skip as white space: those of
      the ECMAScript WhiteSpace and LineTerminator productions. */
  predicate IsSpace(c: char)
  {
    var n := c as int;
    n == 0x09 || n == 0x0A || n == 0x0B || n == 0x0C || n == 0x0D || n == 0x20 ||
    n == 0xA0 || n == 0x1680 || 0x2000 <= n <= 0x200A || n == 0x2028 || n == 0x2029 ||
    n == 0x202F || n == 0x205F || n == 0x3000 || n == 0xFEFF
  }

  /** `s.trimStart()`: what is left after the leading white space. */
  function TrimStart(s: string): (r: string)
    ensures |r| <= |s| && r == s[|s| - |r|..]
    ensures r == "" || !IsSpace(r[0])
    ensures forall i :: 0 <= i < |s| - |r| ==> IsSpace(s[i])
    decreases |s|
  {
    if s != "" && IsSpace(s[0]) then
      var r := TrimStart(s[1..]);
      assert forall i :: 1 <= i < |s| - |r| ==> s[i] == s[1..][i - 1];
      r
    else s
  }

  /** `s.trimEnd()`: what is left before the trailing white space. */
  function TrimEnd(s: string): (r: string)
    ensures |r| <= |s| && r == s[..|r|]
    ensures r == "" || !IsSpace(r[|r| - 1])
    ensures forall i :: |r| <= i < |s| ==> IsSpace(s[i])
    decreases |s|
  {
    if s != "" && IsSpace(s[|s| - 1]) then TrimEnd(s[..|s| - 1]) else s
  }

  /** `s.trim()`: a slice of s that neither starts nor ends with white
      space, with only white space cut off around it. */
  function Trim(s: string): (r: string)
    ensures r == "" || (!IsSpace(r[0]) && !IsSpace(r[|r| - 1]))
    ensures |r| <= |s|
  {
    TrimEnd(TrimStart(s))
  }

  /** A string that does not start with white space is its own trimStart. */
  lemma TrimStartUnpadded(s: string)
    requires s == "" || !IsSpace(s[0])
    ensures TrimStart(s) == s
  {
  }

  /** A string without white space at either end is its own trim. */
  lemma TrimUnpadded(s: string)
    requires s == "" || (!IsSpace(s[0]) && !IsSpace(s[|s| - 1]))
    ensures Trim(s) == s
  {
    TrimStartUnpadded(s);
  }

  /** Lowering never turns white space into a letter or back. */
  lemma LowerKeepsSpace(c: char)
    ensures IsSpace(LowerChar(c)) <==> IsSpace(c)
  {
  }

  lemma {:induction false} TrimStartLower(s: string)
    ensures TrimStart(ToLower(s)) == ToLower(TrimStart(s))
    decreases |s|
  {
    if s != "" {
      LowerKeepsSpace(s[0]);
      assert ToLower(s)[1..] == ToLower(s[1..]);
      if IsSpace(s[0]) {
        TrimStartLower(s[1..]);
      }
    }
  }

  lemma {:induction false} TrimEndLower(s: string)
    ensures TrimEnd(ToLower(s)) == ToLower(TrimEnd(s))
    decreases |s|
  {
    if s != "" {
      var n := |s| - 1;
      LowerKeepsSpace(s[n]);
      assert ToLower(s)[..n] == ToLower(s[..n]);
      if IsSpace(s[n]) {
        TrimEndLower(s[..n]);
      }
    }
  }

  /** Trimming and ASCII lowering commute. */
  lemma TrimLower(s: string)
    ensures Trim(ToLower(s)) == ToLower(Trim(s))
  {
    TrimStartLower(s);
    TrimEndLower(TrimStart(s));
  }

  /** An index argument of `substring`, clamped to [0, n]: a negative
      index counts as 0 and one past the end as the length. */
  function Clamp(i: int, n: nat): (r: nat)
    ensures r <= n
    ensures 0 <= i <= n ==> r == i
    ensures i < 0 ==> r == 0
    ensures i > n ==> r == n
  {
    if i < 0 then 0 else if i > n then n else i
  }

  /** `s.substring(start, end)`: both ends are clamped to the string and
      swapped when the start lies after the end. */
  function Substring(s: string, start: int, end: int): (r: string)
    ensures |r| <= |s|
    ensures 0 <= start <= end <= |s| ==> r == s[start..end]
    ensures 0 <= end <= start <= |s| ==> r == s[end..start]
    ensures start < 0 && 0 <= end <= |s| ==> r == s[..end]
    ensures end < 0 && 0 <= start <= |s| ==> r == s[..start]
    ensures 0 <= start <= |s| < end ==> r == s[start..]
    ensures 0 <= end <= |s| < start ==> r == s[end..]
    ensures start <= 0 && end <= 0 ==> r == ""
    ensures start >= |s| && end >= |s| ==> r == ""
    ensures (start <= 0 && end >= |s|) || (end <= 0 && start >= |s|) ==> r == s
  {
    var a := Clamp(start, |s|);
    var b := Clamp(end, |s|);
    if a <= b then s[a..b] else s[b..a]
  }

  /** `s.startsWith(p)`. */
  predicate StartsWith(s: string, p: string)
  {
    |p| <= |s| && s[..|p|] == p
  }

  const DigitChars: string := "0123456789abcdef"

  function DigitChar(d: nat): char
    requires d < 16
  {
    DigitChars[d]
  }

  /** The value of a lower-case digit in the given base, if it is one. */
  function DigitValue(c: char, base: nat): (r: Option<nat>)
    requires 2 <= base <= 16
    ensures r.Some? ==> r.value < base && DigitChar(r.value) == c
  {
    if '0' <= c <= '9' && (c as int - '0' as int) < base then Some(c as int - '0' as int)
    else if 'a' <= c <= 'f' && (c as int - 'a' as int + 10) < base then Some(c as int - 'a' as int + 10)
    else None
  }

  lemma DigitValueOfDigitChar(d: nat, base: nat)
    requires 2 <= base <= 16 && d < base
    ensures DigitValue(DigitChar(d), base) == Some(d)
  {
  }

  /** `n.toString(base)`: the digits of n, most significant first, no
      leading zeros ("0" for zero). */
  function Numeral(n: nat, base: nat): (r: string)
    requires 2 <= base <= 16
    decreases n
  {
    if n < base then [DigitChar(n)] else Numeral(n / base, base) + [DigitChar(n % base)]
  }

  /** Reads a non-empty string of digits in the given base. */
  function ParseNumeral(s: string, base: nat): Option<nat>
    requires 2 <= base <= 16
    decreases |s|
  {
    if |s| == 0 then None
    else if |s| == 1 then DigitValue(s[0], base)
    else
      match ParseNumeral(s[..|s| - 1], base)
      case None => None
      case Some(high) =>
        match DigitValue(s[|s| - 1], base)
        case None => None
        case Some(low) => Some(high * base + low)
  }

  /** Printing then reading a numeral gives the number back. */
  lemma {:induction false} NumeralRoundTrip(n: nat, base: nat)
    requires 2 <= base <= 16
    ensures ParseNumeral(Numeral(n, base), base) == Some(n)
    decreases n
  {
    if n < base {
      DigitValueOfDigitChar(n, base);
    } else {
      NumeralRoundTrip(n / base, base);
      NumeralStep(n, base);
    }
  }

  /** The inductive step of NumeralRoundTrip: the last digit of a numeral is
      the remainder, the rest is the numeral of the quotient. */
  lemma NumeralStep(n: nat, base: nat)
    requires 2 <= base <= 16 && base <= n
    requires ParseNumeral(Numeral(n / base, base), base) == Some(n / base)
    ensures ParseNumeral(Numeral(n, base), base) == Some(n)
  {
    var high, low := n / base, n % base;
    assert Numeral(n, base) == Numeral(high, base) + [DigitChar(low)];
    DigitValueOfDigitChar(low, base);
    ParseSnoc(Numeral(high, base), DigitChar(low), base, high, low);
    DivMod(n, base);
  }

  lemma DivMod(n: nat, base: nat)
    requires 2 <= base
    ensures n == (n / base) * base + n % base && n % base < base
  {
  }

  /** Reading one more trailing digit multiplies by the base and adds it. */
  lemma ParseSnoc(s: string, c: char, base: nat, high: nat, low: nat)
    requires 2 <= base <= 16
    requires ParseNumeral(s, base) == Some(high) && DigitValue(c, base) == Some(low)
    ensures ParseNumeral(s + [c], base) == Some(high * base + low)
  {
    var t := s + [c];
    assert |s| >= 1;
    assert t[..|t| - 1] == s;
    assert t[|t| - 1] == c;
  }

  /** A numeral is non-empty, made of digits of its base, and starts with
      '0' only when it is the numeral of zero. */
  lemma {:induction false} NumeralShape(n: nat, base: nat)
    requires 2 <= base <= 16
    ensures |Numeral(n, base)| >= 1
    ensures forall i :: 0 <= i < |Numeral(n, base)| ==> DigitValue(Numeral(n, base)[i], base).Some?
    ensures Numeral(n, base)[0] == '0' <==> n == 0
    decreases n
  {
    if n < base {
      DigitValueOfDigitChar(n, base);
    } else {
      NumeralShape(n / base, base);
      DigitValueOfDigitChar(n % base, base);
      var head := Numeral(n / base, base);
      var s := Numeral(n, base);
      assert s == head + [DigitChar(n % base)];
      forall i | 0 <= i < |s| ensures DigitValue(s[i], base).Some? {
        if i < |head| { assert s[i] == head[i]; }
      }
      assert s[0] == head[0];
    }
  }

  /** Decimal rendering of a natural number (`n.toString()`). */
  function Decimal(n: nat): string
  {
    Numeral(n, 10)
  }

  /** Decimal rendering of an integer, with a leading '-' when negative
      (`BigInt.prototype.toString()`). */
  function SignedDecimal(i: int): string
  {
    if i < 0 then "-" + Numeral(-i, 10) else Numeral(i, 10)
  }

  /** The base a second character after a leading '0' selects in
      `BigInt(...)` and `Number(...)`: "0x", "0o" and "0b", in either case. */
  function RadixOfPrefix(c: char): (r: Option<nat>)
    ensures r.Some? ==> r.value in {2, 8, 16}
  {
    if c == 'x' || c == 'X' then Some(16)
    else if c == 'o' || c == 'O' then Some(8)
    else if c == 'b' || c == 'B' then Some(2)
    else None
  }

  /** `BigInt(s)` for a string (StringToBigInt): white space around the
      literal is ignored and a blank string reads as 0. Anything that is
      not a literal is a SyntaxError (None). */
  function ParseBigInt(s: string): (r: Option<int>)
    ensures Trim(s) == "" ==> r == Some(0)
    ensures Trim(s) != "" ==> r == BigIntLiteral(Trim(s))
  {
    var t := Trim(s);
    if t == "" then Some(0) else BigIntLiteral(t)
  }

  /** A magnitude with its sign applied. */
  function Signed(m: nat, negative: bool): (r: int)
    ensures negative ==> r == -(m as int)
    ensures !negative ==> r == m
  {
    if negative then -(m as int) else m
  }

  /** A BigInt literal: "0x", "0o" or "0b" followed by digits of that base
      in either case, or an optional sign and decimal digits. */
  function BigIntLiteral(t: string): (r: Option<int>)
    requires t != ""
    ensures r.Some? && t[0] != '-' ==> r.value >= 0
  {
    if |t| >= 2 && t[0] == '0' && RadixOfPrefix(t[1]).Some? then
      match ParseNumeral(ToLower(t[2..]), RadixOfPrefix(t[1]).value)
      case None => None
      case Some(m) => Some(m)
    else if t[0] == '-' || t[0] == '+' then
      match ParseNumeral(t[1..], 10)
      case None => None
      case Some(m) => Some(Signed(m, t[0] == '-'))
    else
      match ParseNumeral(t, 10)
      case None => None
      case Some(m) => Some(m)
  }

  /** A digit of base 16 or less is not white space. */
  lemma DigitNotSpace(c: char, base: nat)
    requires 2 <= base <= 16 && DigitValue(c, base).Some?
    ensures !IsSpace(c)
  {
  }

  /** Around a literal without white space at either end, `BigInt` reads
      the literal itself. */
  lemma ParseBigIntUnpadded(t: string)
    requires |t| >= 1 && !IsSpace(t[0]) && !IsSpace(t[|t| - 1])
    ensures ParseBigInt(t) == BigIntLiteral(t)
  {
    TrimUnpadded(t);
  }

  /** A run of decimal digits without a "0x"-style prefix is a BigInt
      literal of its value. */
  lemma BigIntLiteralOfDigits(t: string, m: nat)
    requires |t| >= 1 && DigitValue(t[0], 10).Some?
    requires ParseNumeral(t, 10) == Some(m)
    requires !(|t| >= 2 && t[0] == '0' && RadixOfPrefix(t[1]).Some?)
    ensures BigIntLiteral(t) == Some(m)
  {
    assert t[0] != '-' && t[0] != '+';
  }

  /** Decimal digits without a "0x"-style prefix read as a BigInt. */
  lemma ParseBigIntOfDigits(t: string, m: nat)
    requires |t| >= 1 && DigitValue(t[0], 10).Some? && DigitValue(t[|t| - 1], 10).Some?
    requires ParseNumeral(t, 10) == Some(m)
    requires !(|t| >= 2 && t[0] == '0' && RadixOfPrefix(t[1]).Some?)
    ensures ParseBigInt(t) == Some(m)
  {
    DigitNotSpace(t[0], 10);
    DigitNotSpace(t[|t| - 1], 10);
    ParseBigIntUnpadded(t);
    BigIntLiteralOfDigits(t, m);
  }

  /** Decimal digits after a '-' read as the negated number. */
  lemma ParseBigIntOfNegatedDigits(s: string, m: nat)
    requires |s| >= 2 && s[0] == '-' && DigitValue(s[|s| - 1], 10).Some?
    requires ParseNumeral(s[1..], 10) == Some(m)
    ensures ParseBigInt(s) == Some(Signed(m, true))
  {
    DigitNotSpace(s[|s| - 1], 10);
    ParseBigIntUnpadded(s);
  }

  /** The stored decimal strings read back as the integers they print. */
  lemma SignedDecimalRoundTrip(i: int)
    ensures ParseBigInt(SignedDecimal(i)) == Some(i)
  {
    var m: nat := if i < 0 then -i else i;
    var digits := Numeral(m, 10);
    NumeralRoundTrip(m, 10);
    NumeralShape(m, 10);
    assert digits[0] == '0' ==> |digits| == 1 by {
      if digits[0] == '0' {
        assert m == 0;
      }
    }
    if i < 0 {
      var s := SignedDecimal(i);
      assert s[1..] == digits && s[|s| - 1] == digits[|digits| - 1];
      ParseBigIntOfNegatedDigits(s, m);
      assert Signed(m, true) == i;
    } else {
      ParseBigIntOfDigits(digits, m);
    }
  }
}

/** JavaScript values as they arrive in request bodies and query strings,
    and the coercions the handlers apply to them. Numbers in request values
    are integers here; a decimal string cast by the document store gives a
    `real`. NaN is None. */
module Js {
  import opened Wrappers
  import Text

  datatype JsValue = Undefined | Null | Bool(b: bool) | Num(n: int) | Str(s: string)

  /** JavaScript truthiness: `!v` holds exactly for the falsy values
      undefined, null, false, 0 and "". */
  function Truthy(v: JsValue): (b: bool)
    ensures !b <==> v == Undefined || v == Null || v == Bool(false) || v == Num(0) || v == Str("")
  {
    match v
    case Undefined => false
    case Null => false
    case Bool(b) => b
    case Num(n) => n != 0
    case Str(s) => s != ""
  }

  /** The string inside a value on which string methods such as
      `.toLowerCase()` can be called; other values make the call throw. */
  function AsString(v: JsValue): Option<string>
  {
    if v.Str? then Some(v.s) else None
  }

  /** `String(v)`: a string is itself, a number prints in decimal and reads
      back as itself. */
  function ToText(v: JsValue): (r: string)
    ensures v.Str? ==> r == v.s
    ensures v.Num? ==> Text.ParseBigInt(r) == Some(v.n)
    ensures !v.Str? ==> r != ""
  {
    match v
    case Undefined => "undefined"
    case Null => "null"
    case Bool(b) => if b then "true" else "false"
    case Num(n) => Text.SignedDecimalRoundTrip(n); Text.SignedDecimal(n)
    case Str(s) => s
  }

  /** `BigInt(v)`; None stands for the thrown TypeError/SyntaxError:
      undefined and null throw, booleans give 0 and 1, a number is kept and
      a string is read as a BigInt literal. */
  function ToBigInt(v: JsValue): (r: Option<int>)
    ensures v.Undefined? || v.Null? ==> r.None?
    ensures v.Bool? ==> r == Some(if v.b then 1 else 0)
    ensures v.Num? ==> r == Some(v.n)
    ensures v.Str? ==> r == Text.ParseBigInt(v.s)
  {
    match v
    case Undefined => None
    case Null => None
    case Bool(b) => Some(if b then 1 else 0)
    case Num(n) => Some(n)
    case Str(s) => Text.ParseBigInt(s)
  }

  function Pow10(k: nat): (r: nat)
    ensures r >= 1
  {
    if k == 0 then 1 else 10 * Pow10(k - 1)
  }

  /** The first index of c in s, or |s| when there is none. */
  function IndexOf(s: string, c: char): (i: nat)
    ensures i <= |s|
    ensures forall k :: 0 <= k < i ==> s[k] != c
    ensures i < |s| ==> s[i] == c
    decreases |s|
  {
    if s == "" then 0
    else if s[0] == c then 0
    else
      var i := 1 + IndexOf(s[1..], c);
      assert forall k :: 1 <= k < i ==> s[k] == s[1..][k - 1];
      i
  }

  /** The first index of 'e' or 'E', or |s|. */
  function ExponentMark(s: string): (i: nat)
    ensures i <= |s|
    ensures i < |s| ==> s[i] == 'e' || s[i] == 'E'
  {
    var lower := IndexOf(s, 'e');
    var upper := IndexOf(s, 'E');
    if lower <= upper then lower else upper
  }

  /** An optional run of decimal digits: "" reads as 0. */
  function OptionalDigits(s: string): Option<nat>
  {
    if s == "" then Some(0) else Text.ParseNumeral(s, 10)
  }

  /** The exponent part after the 'e': an optional sign and at least one
      digit. */
  function ExponentValue(s: string): Option<int>
  {
    if s != "" && (s[0] == '+' || s[0] == '-') then
      match Text.ParseNumeral(s[1..], 10)
      case None => None
      case Some(m) => Some(if s[0] == '-' then -(m as int) else m)
    else
      match Text.ParseNumeral(s, 10)
      case None => None
      case Some(m) => Some(m)
  }

  function Scale(x: int): (r: real)
    ensures r > 0.0
  {
    if x >= 0 then Pow10(x) as real else 1.0 / (Pow10(-x) as real)
  }

  /** An unsigned decimal literal: integer digits, an optional '.' and
      fraction digits (not both parts empty), and an optional exponent. */
  function UnsignedDecimal(u: string): Option<real>
  {
    var e := ExponentMark(u);
    var mantissa := u[..e];
    var d := IndexOf(mantissa, '.');
    var intPart := mantissa[..d];
    var fracPart := if d < |mantissa| then mantissa[d + 1..] else "";
    var exponent := if e < |u| then ExponentValue(u[e + 1..]) else Some(0);
    if intPart == "" && fracPart == "" then None
    else
      match (OptionalDigits(intPart), OptionalDigits(fracPart), exponent)
      case (Some(a), Some(b), Some(x)) => Some(((a as real) + (b as real) / (Pow10(|fracPart|) as real)) * Scale(x))
      case _ => None
  }

  /** `Number(s)` (StringToNumber): white space around the literal is
      ignored and a blank string is 0. Anything that is not a numeric
      literal is NaN (None). */
  function NumberOfText(s: string): (r: Option<real>)
    ensures Text.Trim(s) == "" ==> r == Some(0.0)
    ensures Text.Trim(s) != "" ==> r == NumberLiteral(Text.Trim(s))
  {
    var t := Text.Trim(s);
    if t == "" then Some(0.0) else NumberLiteral(t)
  }

  /** A numeric literal: "0x", "0o" or "0b" and digits of that base, or an
      optional sign and an unsigned decimal literal. */
  function NumberLiteral(t: string): Option<real>
    requires t != ""
  {
    if |t| >= 2 && t[0] == '0' && Text.RadixOfPrefix(t[1]).Some? then
      match Text.ParseNumeral(Text.ToLower(t[2..]), Text.RadixOfPrefix(t[1]).value)
      case None => None
      case Some(m) => Some(m as real)
    else if t[0] == '-' || t[0] == '+' then
      match UnsignedDecimal(t[1..])
      case None => None
      case Some(x) => Some(if t[0] == '-' then -x else x)
    else UnsignedDecimal(t)
  }

  /** A document store's cast of a value into a Number path; None is a
      missing value or a cast error. undefined, null and "" are missing,
      booleans are 0 and 1, a number is kept, and any other string is read
      as `Number(s)` reads it. */
  function ToNumber(v: JsValue): (r: Option<real>)
    ensures v.Undefined? || v.Null? || v == Str("") ==> r.None?
    ensures v.Bool? ==> r == Some(if v.b then 1.0 else 0.0)
    ensures v.Num? ==> r == Some(v.n as real)
    ensures v.Str? && v.s != "" ==> r == NumberOfText(v.s)
  {
    match v
    case Undefined => None
    case Null => None
    case Bool(b) => Some(if b then 1.0 else 0.0)
    case Num(n) => Some(n as real)
    case Str(s) => if s == "" then None else NumberOfText(s)
  }

  /** `parseInt` of a stored Number: the text `String(x)` is read back up
      to its point, which truncates toward zero. */
  function NumberParseInt(x: real): (r: int)
    ensures 0.0 <= x ==> 0 <= r && r as real <= x < r as real + 1.0
    ensures x < 0.0 ==> r <= 0 && r as real - 1.0 < x <= r as real
  {
    if 0.0 <= x then x.Floor else -((-x).Floor)
  }

  /** A whole number is its own `parseInt`. */
  lemma NumberParseIntOfInteger(n: int)
    ensures NumberParseInt(n as real) == n
  {
  }

  /** The unsigned decimal literal "100.5": integer digits, a point and a
      fraction. */
  lemma FractionLiteral(s: string)
    requires s == "100.5"
    ensures UnsignedDecimal(s) == Some(100.5)
  {
    assert IndexOf(s, 'e') == 5 && IndexOf(s, 'E') == 5;
    assert s[..5] == s;
    assert s[3] == '.' && s[0] != '.' && s[1] != '.' && s[2] != '.';
    assert IndexOf(s, '.') == 3;
    assert s[..3] == "100" && s[4..] == "5";
    assert Text.ParseNumeral("100", 10) == Some(100) by {
      assert "100"[..2] == "10" && "10"[..1] == "1";
    }
    assert OptionalDigits("5") == Some(5);
  }

  /** A decimal amount with a fraction is cast to that fraction. */
  lemma FractionAmountCast(s: string)
    requires s == "100.5"
    ensures ToNumber(Str(s)) == Some(100.5)
  {
    assert !Text.IsSpace(s[0]) && !Text.IsSpace(s[|s| - 1]);
    Text.TrimUnpadded(s);
    FractionLiteral(s);
  }

  /** The unsigned decimal literal "2e3": digits and an exponent. */
  lemma ExponentLiteral(s: string)
    requires s == "2e3"
    ensures UnsignedDecimal(s) == Some(2000.0)
  {
    assert s[1] == 'e' && s[0] != 'e';
    assert IndexOf(s, 'e') == 1;
    assert IndexOf(s, 'E') == 3;
    assert s[..1] == "2" && s[2..] == "3";
    assert IndexOf("2", '.') == 1;
    assert ExponentValue("3") == Some(3);
    assert Pow10(3) == 1000;
  }

  /** White space around an amount is ignored and an exponent scales it. */
  lemma ExponentAmountCast(s: string)
    requires s == " 2e3 "
    ensures ToNumber(Str(s)) == Some(2000.0)
  {
    var u := s[1..];
    var v := u[..3];
    assert Text.Trim(s) == v by {
      assert Text.TrimStart(s) == u by {
        assert Text.IsSpace(s[0]) && !Text.IsSpace(s[1]);
        Text.TrimStartUnpadded(u);
      }
      assert Text.TrimEnd(u) == v by {
        assert Text.IsSpace(u[3]) && !Text.IsSpace(v[2]) && v == u[..|u| - 1];
      }
    }
    assert UnsignedDecimal(v) == Some(2000.0) by {
      assert v == "2e3";
      ExponentLiteral(v);
    }
    assert NumberLiteral(v) == UnsignedDecimal(v) by {
      assert v[0] == '2';
    }
  }

  /** The longest prefix of digits of the base, in either letter case. */
  function LeadingDigitsIn(s: string, base: nat): (r: string)
    requires 2 <= base <= 16
    ensures |r| <= |s| && r == s[..|r|]
    ensures forall i :: 0 <= i < |r| ==> Text.DigitValue(Text.LowerChar(r[i]), base).Some?
    ensures |r| < |s| ==> Text.DigitValue(Text.LowerChar(s[|r|]), base).None?
    decreases |s|
  {
    if s != "" && Text.DigitValue(Text.LowerChar(s[0]), base).Some? then [s[0]] + LeadingDigitsIn(s[1..], base)
    else ""
  }

  /** A non-empty run of digits of the base reads as a number. */
  lemma {:induction false} ParseNumeralTotal(s: string, base: nat)
    requires 2 <= base <= 16 && |s| >= 1
    requires forall i :: 0 <= i < |s| ==> Text.DigitValue(s[i], base).Some?
    ensures Text.ParseNumeral(s, base).Some?
    decreases |s|
  {
    if |s| > 1 {
      ParseNumeralTotal(s[..|s| - 1], base);
    }
  }

  /** What `parseInt` reads of text that no longer starts with white
      space: the text after an optional sign. */
  function IntBody(t: string): string
  {
    if t != "" && (t[0] == '-' || t[0] == '+') then t[1..] else t
  }

  predicate IntNegative(t: string)
  {
    t != "" && t[0] == '-'
  }

  predicate HexPrefixed(u: string)
  {
    |u| >= 2 && u[0] == '0' && (u[1] == 'x' || u[1] == 'X')
  }

  /** The base `parseInt` reads in: 16 after "0x" or "0X", otherwise 10. */
  function IntRadix(t: string): (base: nat)
    ensures base == 10 || base == 16
  {
    if HexPrefixed(IntBody(t)) then 16 else 10
  }

  /** The digits `parseInt` reads: those of its base after the prefix. */
  function IntDigits(t: string): string
  {
    var u := IntBody(t);
    if HexPrefixed(u) then LeadingDigitsIn(u[2..], 16) else LeadingDigitsIn(u, 10)
  }

  /** `parseInt` of text that does not start with white space: an optional
      '+' or '-', then "0x"/"0X" selects base 16; the longest run of digits
      of the base that follows is read, in either letter case, and whatever
      comes after it is ignored. No digits is NaN. */
  function IntPrefix(t: string): (r: Option<int>)
    ensures r.None? <==> IntDigits(t) == ""
    ensures r.Some? && IntNegative(t) ==> r.value <= 0
    ensures r.Some? && !IntNegative(t) ==> r.value >= 0
  {
    var digits := IntDigits(t);
    var lowered := Text.ToLower(digits);
    if digits == "" then None
    else
      ParseNumeralTotal(lowered, IntRadix(t));
      Some(Text.Signed(Text.ParseNumeral(lowered, IntRadix(t)).value, IntNegative(t)))
  }

  /** `parseInt(s)` without a radix: leading white space is skipped (see
      ParseIntSkipsSpace), and the rest is read as IntPrefix reads it. */
  function ParseIntText(s: string): (r: Option<int>)
    ensures s == "" || !Text.IsSpace(s[0]) ==> r == IntPrefix(s)
  {
    IntPrefix(Text.TrimStart(s))
  }

  /** The value `parseInt` gives once its digits are known to read as m. */
  lemma IntPrefixValue(t: string, m: nat)
    requires Text.ParseNumeral(Text.ToLower(IntDigits(t)), IntRadix(t)) == Some(m)
    ensures IntPrefix(t) == Some(Text.Signed(m, IntNegative(t)))
  {
  }

  /** After a sign, the body is the rest and the sign decides the result's. */
  lemma SignedIntBody(c: char, u: string)
    requires c == '-' || c == '+'
    ensures IntBody([c] + u) == u
    ensures IntNegative([c] + u) <==> c == '-'
  {
    assert ([c] + u)[1..] == u;
  }

  lemma AsciiDigitsLower(s: string)
    requires forall i :: 0 <= i < |s| ==> '0' <= s[i] <= '9'
    ensures Text.ToLower(s) == s
  {
  }

  lemma DigitsAreDecimal(c: char)
    requires Text.DigitValue(c, 10).Some?
    ensures '0' <= c <= '9'
  {
  }

  /** A run of decimal digits followed by a non-digit is the leading-digit
      prefix. */
  lemma {:induction false} LeadingDecimalRun(d: string, rest: string)
    requires forall i :: 0 <= i < |d| ==> '0' <= d[i] <= '9'
    requires rest == "" || Text.DigitValue(Text.LowerChar(rest[0]), 10).None?
    ensures LeadingDigitsIn(d + rest, 10) == d
    decreases |d|
  {
    if d != "" {
      assert (d + rest)[1..] == d[1..] + rest;
      LeadingDecimalRun(d[1..], rest);
      assert [d[0]] + d[1..] == d;
    } else {
      assert d + rest == rest;
    }
  }

  lemma UnsignedBody(s: string)
    requires s != "" && s[0] != '-' && s[0] != '+'
    ensures IntBody(s) == s && !IntNegative(s)
  {
  }

  /** Unsigned decimal text is read up to its first non-digit. */
  lemma ParseIntOfDigitRun(d: string, rest: string, m: nat)
    requires d != "" && forall i :: 0 <= i < |d| ==> '0' <= d[i] <= '9'
    requires rest == "" || Text.DigitValue(Text.LowerChar(rest[0]), 10).None?
    requires !HexPrefixed(d + rest)
    requires Text.ParseNumeral(d, 10) == Some(m)
    ensures IntPrefix(d + rest) == Some(m)
    ensures ParseIntText(d + rest) == Some(m)
  {
    var s := d + rest;
    assert '0' <= d[0] <= '9';
    assert s[0] == d[0];
    assert s[0] != '-' && s[0] != '+';
    UnsignedBody(s);
    LeadingDecimalRun(d, rest);
    AsciiDigitsLower(d);
    assert IntRadix(s) == 10 && IntDigits(s) == d;
    IntPrefixValue(s, m);
    Text.DigitNotSpace(s[0], 10);
  }

  /** `parseInt` reads back the decimal rendering of an integer. */
  lemma ParseIntOfDecimal(n: int)
    ensures ParseIntText(Text.SignedDecimal(n)) == Some(n)
  {
    var m: nat := if n < 0 then -n else n;
    DecimalNumeralRead(m);
    if n < 0 {
      NegatedNumeralRead(m);
    }
  }

  /** The decimal numeral of m is read back as m. */
  lemma DecimalNumeralRead(m: nat)
    ensures IntPrefix(Text.Numeral(m, 10)) == Some(m)
    ensures ParseIntText(Text.Numeral(m, 10)) == Some(m)
  {
    var digits := Text.Numeral(m, 10);
    Text.NumeralShape(m, 10);
    Text.NumeralRoundTrip(m, 10);
    forall i | 0 <= i < |digits| ensures '0' <= digits[i] <= '9' {
      DigitsAreDecimal(digits[i]);
    }
    assert digits + "" == digits;
    assert !HexPrefixed(digits) by {
      if |digits| >= 2 { DigitsAreDecimal(digits[1]); }
    }
    ParseIntOfDigitRun(digits, "", m);
  }

  /** After a '-', the decimal numeral of m is read as -m. */
  lemma NegatedNumeralRead(m: nat)
    requires IntPrefix(Text.Numeral(m, 10)) == Some(m)
    ensures ParseIntText("-" + Text.Numeral(m, 10)) == Some(-(m as int))
  {
    var digits := Text.Numeral(m, 10);
    var s := ['-'] + digits;
    assert "-" + digits == s;
    Text.NumeralShape(m, 10);
    DigitsAreDecimal(digits[0]);
    ParseIntAfterSign('-', digits);
    assert !Text.IsSpace(s[0]);
  }

  /** The words `String` gives undefined, null and the booleans hold no
      digits. */
  lemma WordHasNoDigits(w: string)
    requires w in ["undefined", "null", "true", "false"]
    ensures ParseIntText(w).None?
  {
    assert w[0] in "untf" && !Text.IsSpace(w[0]);
    assert IntBody(w) == w;
    assert !HexPrefixed(w);
    assert Text.DigitValue(Text.LowerChar(w[0]), 10).None?;
    assert IntDigits(w) == "";
  }

  /** `parseInt(v)`: the value is first turned into a string. A number
      reads back as itself; undefined, null and booleans are NaN. */
  function ParseInt(v: JsValue): (r: Option<int>)
    ensures v.Num? ==> r == Some(v.n)
    ensures v.Str? ==> r == ParseIntText(v.s)
    ensures v.Undefined? || v.Null? || v.Bool? ==> r.None?
  {
    match v
    case Num(n) => ParseIntOfDecimal(n); ParseIntText(ToText(v))
    case Str(s) => ParseIntText(s)
    case _ => WordHasNoDigits(ToText(v)); ParseIntText(ToText(v))
  }

  /** White space before the text does not change what `parseInt` reads. */
  lemma ParseIntSkipsSpace(w: string, s: string)
    requires forall i :: 0 <= i < |w| ==> Text.IsSpace(w[i])
    ensures ParseIntText(w + s) == ParseIntText(s)
  {
    TrimStartSkipsSpace(w, s);
  }

  lemma {:induction false} TrimStartSkipsSpace(w: string, s: string)
    requires forall i :: 0 <= i < |w| ==> Text.IsSpace(w[i])
    ensures Text.TrimStart(w + s) == Text.TrimStart(s)
    decreases |w|
  {
    if w != "" {
      assert (w + s)[1..] == w[1..] + s;
      assert (w + s)[0] == w[0];
      TrimStartSkipsSpace(w[1..], s);
    } else {
      assert w + s == s;
    }
  }

  /** A '+' before unsigned text changes nothing; a '-' negates. */
  lemma ParseIntAfterSign(c: char, u: string)
    requires c == '-' || c == '+'
    requires u == "" || (u[0] != '-' && u[0] != '+')
    ensures IntPrefix([c] + u).None? <==> IntPrefix(u).None?
    ensures IntPrefix(u).Some? ==> IntPrefix([c] + u) == Some(Text.Signed(IntPrefix(u).value, c == '-'))
  {
    SignedIntBody(c, u);
    assert IntBody(u) == u && !IntNegative(u);
    assert IntRadix([c] + u) == IntRadix(u) && IntDigits([c] + u) == IntDigits(u);
  }

  /** Leading white space is skipped, a '+' keeps the number and a '-'
      negates it. */
  lemma ParseIntSignedDecimal(w: string, c: char, m: nat)
    requires forall i :: 0 <= i < |w| ==> Text.IsSpace(w[i])
    requires c == '-' || c == '+'
    ensures ParseIntText(w + [c] + Text.Numeral(m, 10)) == Some(Text.Signed(m, c == '-'))
  {
    var digits := Text.Numeral(m, 10);
    var t := [c] + digits;
    assert IntPrefix(t) == Some(Text.Signed(m, c == '-')) by {
      DecimalNumeralRead(m);
      Text.NumeralShape(m, 10);
      DigitsAreDecimal(digits[0]);
      ParseIntAfterSign(c, digits);
    }
    assert ParseIntText(t) == IntPrefix(t) by {
      assert !Text.IsSpace(t[0]);
    }
    assert ParseIntText(w + t) == ParseIntText(t) by {
      ParseIntSkipsSpace(w, t);
    }
    assert w + [c] + digits == w + t;
  }

  /** A "0x" prefix reads hexadecimal digits in either case. */
  lemma ParseIntReadsHex(s: string)
    requires s == "0x1F"
    ensures ParseInt(Str(s)) == Some(31)
  {
    assert IntBody(s) == s && !IntNegative(s);
    var d := s[2..];
    assert d == "1F";
    assert LeadingDigitsIn(d, 16) == d by { assert d[1..] == "F"; }
    assert Text.ToLower(d) == "1f";
    assert IntRadix(s) == 16 && IntDigits(s) == d;
    assert Text.ParseNumeral("1f", 16) == Some(31) by { assert "1f"[..1] == "1"; }
    IntPrefixValue(s, 31);
  }

  /** Text after the digits is ignored. */
  lemma ParseIntStopsAtNonDigit(s: string)
    requires s == "12px"
    ensures ParseInt(Str(s)) == Some(12)
  {
    var d, rest := s[..2], s[2..];
    assert s == d + rest;
    assert Text.ParseNumeral(d, 10) == Some(12) by { assert d[..1] == "1"; }
    ParseIntOfDigitRun(d, rest, 12);
  }

  /** Text with no digits at its start is NaN. */
  lemma ParseIntWithoutDigits(s: string)
    requires s == "px"
    ensures ParseInt(Str(s)).None?
  {
    assert IntBody(s) == s && !Text.IsSpace(s[0]);
    assert IntDigits(s) == "";
  }
}
