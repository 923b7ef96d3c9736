/** The pure helpers of `CommonUtil`: tolerant integer parsing, the two
    string-array filters and the colour formatter. */
module CommonUtil {
  import opened Wrappers
  import opened JavaLang
  import opened Sequences

  // ---- convertToInt ----

  /** `convertToInt`: the value `Integer.parseInt` gives, or 0 when it throws. */
  function ConvertToInt(value: string): (r: Int32)
    ensures ParseInt(value).Some? ==> r == ParseInt(value).value
    ensures ParseInt(value).None? ==> r == 0
  {
    match ParseInt(value)
    case Some(v) => v
    case None => 0
  }

  /** Every `int` survives being printed with `Integer.toString` and read
      back with `convertToInt`. */
  lemma ConvertToIntOfString(n: Int32)
    ensures ConvertToInt(IntToString(n)) == n
  {
    ParseIntToString(n);
  }

  /** Malformed strings that `convertToInt` maps to 0: the empty string, a
      lone sign, surrounding blanks, a stray letter. */
  lemma ConvertToIntRejects()
    ensures ConvertToInt("") == 0
    ensures ConvertToInt("-") == 0 && ConvertToInt("+") == 0
    ensures ConvertToInt(" 7") == 0 && ConvertToInt("7 ") == 0
    ensures ConvertToInt("12a") == 0
  {
    assert !AllDigits(" 7") by { assert !IsDigit(" 7"[0]); }
    assert !AllDigits("7 ") by { assert !IsDigit("7 "[1]); }
    assert !AllDigits("12a") by { assert !IsDigit("12a"[2]); }
  }

  /** The digits common to both ends of the `int` range. */
  lemma DigitsOfRangePrefix()
    ensures DigitsValue("214748364") == 214748364
  {
    assert "214748364"[..8] == "21474836";
    assert "21474836"[..7] == "2147483";
    assert "2147483"[..6] == "214748";
    assert "214748"[..5] == "21474";
    assert "21474"[..4] == "2147";
    assert "2147"[..3] == "214";
    assert "214"[..2] == "21";
    assert "21"[..1] == "2";
    assert "2"[..0] == "";
  }

  /** One past `Integer.MAX_VALUE` is out of range and maps to 0. */
  lemma ConvertToIntRejectsAboveMax()
    ensures ConvertToInt("2147483648") == 0
  {
    DigitsOfRangePrefix();
    assert "2147483648"[..9] == "214748364";
    assert DigitsValue("2147483648") == 2147483648;
  }

  /** One below `Integer.MIN_VALUE` is out of range and maps to 0. */
  lemma ConvertToIntRejectsBelowMin()
    ensures ConvertToInt("-2147483649") == 0
  {
    DigitsOfRangePrefix();
    assert "-2147483649"[1..] == "2147483649";
    assert "2147483649"[..9] == "214748364";
    assert DigitsValue("2147483649") == 2147483649;
  }

  /** Strings that `convertToInt` accepts: either sign, leading zeros, zero itself. */
  lemma ConvertToIntAccepts()
    ensures ConvertToInt("+5") == 5 && ConvertToInt("-5") == -5
    ensures ConvertToInt("007") == 7 && ConvertToInt("0") == 0 && ConvertToInt("-0") == 0
  {
    assert "+5"[1..] == "5" && "-5"[1..] == "5" && "-0"[1..] == "0";
    assert "5"[..0] == "" && "0"[..0] == "";
    assert "007"[..2] == "00" && "00"[..1] == "0";
  }

  // ---- eraseNonIntegarString ----

  /** The strings `eraseNonIntegarString` keeps: those `convertToInt` maps to a
      non-zero value (so "0" is dropped together with malformed strings). */
  predicate IsNonZeroInt(s: string) {
    ConvertToInt(s) != 0
  }

  /** `eraseNonIntegarString`: copies, in order, the strings that parse to a
      non-zero `int`. */
  method EraseNonIntegarString(data: array<string>) returns (checked: seq<string>)
    ensures checked == Filter(data[..], IsNonZeroInt)
    ensures forall x :: x in checked <==> x in data[..] && ConvertToInt(x) != 0
    ensures |checked| <= data.Length
  {
    checked := [];
    for index := 0 to data.Length
      invariant checked == Filter(data[..index], IsNonZeroInt)
    {
      assert data[..index + 1][..index] == data[..index];
      if ConvertToInt(data[index]) != 0 {
        checked := checked + [data[index]];
      }
    }
    assert data[..data.Length] == data[..];
    forall x ensures x in checked <==> x in data[..] && ConvertToInt(x) != 0 {
      FilterMembership(data[..], IsNonZeroInt, x);
    }
  }

  /** Erasing non-integer strings a second time changes nothing. */
  lemma EraseNonIntegarIdempotent(data: seq<string>)
    ensures Filter(Filter(data, IsNonZeroInt), IsNonZeroInt) == Filter(data, IsNonZeroInt)
  {
    FilterIdempotent(data, IsNonZeroInt);
  }

  // ---- eraseEmptyString ----

  /** The strings `eraseEmptyString` keeps: those that are not empty once trimmed. */
  predicate IsNotBlank(s: string) {
    Trim(s) != []
  }

  /** `eraseEmptyString`: copies, in order and untrimmed, the strings holding
      a character above U+0020. */
  method EraseEmptyString(data: array<string>) returns (checked: seq<string>)
    ensures checked == Filter(data[..], IsNotBlank)
    ensures forall x :: x in checked <==> x in data[..] && exists i :: 0 <= i < |x| && x[i] > ' '
    ensures |checked| <= data.Length
  {
    checked := [];
    for index := 0 to data.Length
      invariant checked == Filter(data[..index], IsNotBlank)
    {
      assert data[..index + 1][..index] == data[..index];
      if Trim(data[index]) != [] {
        checked := checked + [data[index]];
      }
    }
    assert data[..data.Length] == data[..];
    forall x ensures x in checked <==> x in data[..] && exists i :: 0 <= i < |x| && x[i] > ' ' {
      FilterMembership(data[..], IsNotBlank, x);
      TrimEmptyIffBlank(x);
    }
  }

  /** Erasing empty strings a second time changes nothing. */
  lemma EraseEmptyIdempotent(data: seq<string>)
    ensures Filter(Filter(data, IsNotBlank), IsNotBlank) == Filter(data, IsNotBlank)
  {
    FilterIdempotent(data, IsNotBlank);
  }

  // ---- convertToRGB ----

  /** `Color.red`, `Color.green`, `Color.blue`: bits 16-23, 8-15 and 0-7 of
      the colour (an arithmetic shift followed by a mask of 0xFF). */
  function Red(color: Int32): (r: nat)
    ensures r < 256
  {
    (color / 0x1_0000) % 0x100
  }

  function Green(color: Int32): (g: nat)
    ensures g < 256
  {
    (color / 0x100) % 0x100
  }

  function Blue(color: Int32): (b: nat)
    ensures b < 256
  {
    color % 0x100
  }

  /** One component as `convertToRGB` writes it: `Integer.toHexString`, with a
      "0" put in front of a single digit. */
  function HexByte(n: nat): (s: string)
    requires n < 256
    ensures |s| == 2
  {
    var h := ToHexString(n);
    if |h| == 1 then "0" + h else h
  }

  /** The value of a two-digit lower-case hexadecimal string. */
  function HexPairValue(s: string): nat
    requires |s| == 2 && IsLowerHexDigit(s[0]) && IsLowerHexDigit(s[1])
  {
    HexValue(s[0]) * 16 + HexValue(s[1])
  }

  /** `HexByte` writes two lower-case hexadecimal digits that read back as `n`. */
  lemma HexByteRoundTrip(n: nat)
    requires n < 256
    ensures IsLowerHexDigit(HexByte(n)[0]) && IsLowerHexDigit(HexByte(n)[1])
    ensures HexPairValue(HexByte(n)) == n
  {
    var s := HexByte(n);
    if n < 16 {
      assert s == ['0', HexDigit(n)];
    } else {
      assert ToHexString(n / 16) == [HexDigit(n / 16)];
      assert s == [HexDigit(n / 16), HexDigit(n % 16)];
    }
    HexDigitInjective(HexValue(s[1]), if n < 16 then n else n % 16);
    HexDigitInjective(HexValue(s[0]), if n < 16 then 0 else n / 16);
  }

  lemma HexDigitInjective(d: nat, e: nat)
    requires d < 16 && e < 16 && HexDigit(d) == HexDigit(e)
    ensures d == e
  {
  }

  /** `convertToRGB`: "#" followed by the red, green and blue components as
      two lower-case hexadecimal digits each; the alpha byte is not shown. */
  function ConvertToRGB(color: Int32): (s: string)
    ensures |s| == 7 && s[0] == '#'
  {
    "#" + HexByte(Red(color)) + HexByte(Green(color)) + HexByte(Blue(color))
  }

  /** Each pair of digits in `convertToRGB`'s result reads back as the
      corresponding colour component. */
  lemma ConvertToRGBRoundTrip(color: Int32)
    ensures forall i :: 1 <= i < 7 ==> IsLowerHexDigit(ConvertToRGB(color)[i])
    ensures HexPairValue(ConvertToRGB(color)[1..3]) == Red(color)
    ensures HexPairValue(ConvertToRGB(color)[3..5]) == Green(color)
    ensures HexPairValue(ConvertToRGB(color)[5..7]) == Blue(color)
  {
    var s := ConvertToRGB(color);
    HexByteRoundTrip(Red(color));
    HexByteRoundTrip(Green(color));
    HexByteRoundTrip(Blue(color));
    var head := "#" + HexByte(Red(color)) + HexByte(Green(color));
    assert s == head + HexByte(Blue(color)) && |head| == 5;
    assert s[1..3] == HexByte(Red(color));
    assert s[3..5] == HexByte(Green(color));
    assert s[5..7] == HexByte(Blue(color));
  }

  /** The low 24 bits of the colour, as a number in [0, 2^24). */
  function Rgb(color: Int32): nat {
    color % 0x100_0000
  }

  /** The three components together are exactly the low 24 bits. */
  lemma ComponentsAreRgb(color: Int32)
    ensures Red(color) == Rgb(color) / 0x1_0000
    ensures Green(color) == (Rgb(color) / 0x100) % 0x100
    ensures Blue(color) == Rgb(color) % 0x100
  {
    var q := color / 0x100_0000;
    var m := Rgb(color);
    assert color == q * 0x100_0000 + m;
    assert color / 0x1_0000 == q * 0x100 + m / 0x1_0000;
    assert color / 0x100 == q * 0x1_0000 + m / 0x100;
    assert color % 0x100 == m % 0x100;
  }

  /** The low 24 bits are recomposed from the three components. */
  lemma RgbFromComponents(color: Int32)
    ensures Rgb(color) == Red(color) * 0x1_0000 + Green(color) * 0x100 + Blue(color)
  {
    ComponentsAreRgb(color);
    var m := Rgb(color);
    assert m == (m / 0x1_0000) * 0x1_0000 + m % 0x1_0000;
    assert m % 0x1_0000 == ((m / 0x100) % 0x100) * 0x100 + m % 0x100;
  }

  /** Equal strings carry equal components. */
  lemma SameStringSameComponents(c1: Int32, c2: Int32)
    requires ConvertToRGB(c1) == ConvertToRGB(c2)
    ensures Red(c1) == Red(c2) && Green(c1) == Green(c2) && Blue(c1) == Blue(c2)
  {
    ConvertToRGBRoundTrip(c1);
    ConvertToRGBRoundTrip(c2);
  }

  /** `convertToRGB` ignores the alpha byte: colours with equal low 24 bits
      give the same string, and colours with different low 24 bits give
      different strings. */
  lemma ConvertToRGBIgnoresOnlyAlpha(c1: Int32, c2: Int32)
    ensures ConvertToRGB(c1) == ConvertToRGB(c2) <==> Rgb(c1) == Rgb(c2)
  {
    ComponentsAreRgb(c1);
    ComponentsAreRgb(c2);
    if ConvertToRGB(c1) == ConvertToRGB(c2) {
      SameStringSameComponents(c1, c2);
      RgbFromComponents(c1);
      RgbFromComponents(c2);
    }
  }
}
