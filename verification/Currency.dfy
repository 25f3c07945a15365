/**
 Printing and parsing of currency amounts in cents. Strings are sequences of bytes, and a
 `Cents` is a 64-bit integer.
 */
module Currency {
  import opened Basics

  newtype int64 = x: int | -0x8000_0000_0000_0000 <= x < 0x8000_0000_0000_0000

  /** The bound on the dollar part: (MaxInt64 - 99) / 100. */
  const MAX_DOLLARS := 92233720368547757

  /** The largest amount that parses: MAX_DOLLARS dollars and 99 cents. */
  const MAX_CENTS := 9223372036854775799

  datatype Result = Ok(cents: int64) | Invalid | OutOfRange

  // ---------------------------------------------------------------------------------------
  // Decimal digits

  predicate IsDigit(c: char) {
    '0' <= c <= '9'
  }

  predicate AllDigits(s: string) {
    s != "" && forall i :: 0 <= i < |s| ==> IsDigit(s[i])
  }

  function DigitOf(c: char): nat
    requires IsDigit(c)
  {
    (c as int) - ('0' as int)
  }

  /** The number that a string of digits spells. */
  function Value(s: string): nat
    requires forall i :: 0 <= i < |s| ==> IsDigit(s[i])
  {
    if s == "" then 0 else Value(s[..|s| - 1]) * 10 + DigitOf(s[|s| - 1])
  }

  /** The decimal digits of a number, as `%d` prints them. */
  function Decimal(n: nat): string {
    if n < 10 then [('0' as int + n) as char] else Decimal(n / 10) + [('0' as int + n % 10) as char]
  }

  lemma {:induction false} DecimalSpells(n: nat)
    ensures AllDigits(Decimal(n)) && Value(Decimal(n)) == n
    ensures n < 10 <==> |Decimal(n)| == 1
    ensures n < 100 ==> |Decimal(n)| <= 2
  {
    if n < 10 {
      assert Decimal(n)[..0] == "";
    } else {
      DecimalSpells(n / 10);
      assert Decimal(n)[..|Decimal(n)| - 1] == Decimal(n / 10);
    }
  }

  function Pow10(k: nat): (p: nat)
    ensures p > 0
  {
    if k == 0 then 1 else Pow10(k - 1) * 10
  }

  lemma {:induction false} ValueBelowPow10(s: string)
    requires forall i :: 0 <= i < |s| ==> IsDigit(s[i])
    ensures Value(s) < Pow10(|s|)
  {
    if s != "" {
      ValueBelowPow10(s[..|s| - 1]);
    }
  }

  lemma {:induction false} ValueConcat(s: string, t: string)
    requires forall i :: 0 <= i < |s| ==> IsDigit(s[i])
    requires forall i :: 0 <= i < |t| ==> IsDigit(t[i])
    ensures Value(s + t) == Value(s) * Pow10(|t|) + Value(t)
  {
    if t == "" {
      assert s + t == s;
    } else {
      var n := |t| - 1;
      assert (s + t)[..|s + t| - 1] == s + t[..n];
      ValueConcat(s, t[..n]);
      ShiftDigit(Value(s), Pow10(n), Value(t[..n]), DigitOf(t[n]));
    }
  }

  lemma ShiftDigit(a: int, p: int, b: int, d: int)
    ensures (a * p + b) * 10 + d == a * (p * 10) + (b * 10 + d)
  {
  }

  // ---------------------------------------------------------------------------------------
  // The string functions that Parse uses

  predicate IsPadding(c: char) {
    c == '$' || c == ' '
  }

  function TrimLeft(s: string): string {
    if s != "" && IsPadding(s[0]) then TrimLeft(s[1..]) else s
  }

  function TrimRight(s: string): string {
    if s != "" && IsPadding(s[|s| - 1]) then TrimRight(s[..|s| - 1]) else s
  }

  function WithoutCommas(s: string): string {
    if s == "" then "" else (if s[0] == ',' then "" else [s[0]]) + WithoutCommas(s[1..])
  }

  /** The text without the padding around it and the commas in it. */
  function Clean(src: string): string {
    WithoutCommas(TrimRight(TrimLeft(src)))
  }

  /** `strings.Split` on a full stop. */
  function Split(s: string): (parts: seq<string>)
    ensures parts != []
  {
    if s == "" then [""]
    else
      var rest := Split(s[1..]);
      if s[0] == '.' then [""] + rest else [[s[0]] + rest[0]] + rest[1..]
  }

  /** `strconv.ParseInt` on a string of digits. */
  function ParseInt(s: string): Option<int64>
    requires AllDigits(s)
  {
    if Value(s) <= MAX_INT64 then Some(Value(s) as int64) else None
  }

  predicate Signed(s: string) {
    s != "" && (s[0] == '-' || s[0] == '+')
  }

  /** The first two digits of a fraction, as cents. */
  function TwoDigits(frac: string): string {
    var cut := if |frac| > 2 then frac[..2] else frac;
    if |cut| == 1 then cut + "0" else cut
  }

  /** The cents of a fraction cut to at most two digits. */
  function CentsOf(s: string): (c: int64)
    requires AllDigits(s) && |s| <= 2
    ensures 0 <= c < 100 && c as int == Value(s)
  {
    ValueBelowPow10(s);
    assert Pow10(0) == 1 && Pow10(1) == 10 && Pow10(2) == 100;
    Value(s) as int64
  }

  /** The amount in the parts around the full stop, without its sign. */
  function ParsedParts(parts: seq<string>): (r: Result)
    requires parts != []
    ensures r.Ok? ==> r.cents >= 0
  {
    if |parts| > 2 || !AllDigits(parts[0]) || ParseInt(parts[0]) == None then Invalid
    else if Value(parts[0]) > MAX_DOLLARS then OutOfRange
    else if |parts| == 1 then Ok((Value(parts[0]) * 100) as int64)
    else if !AllDigits(TwoDigits(parts[1])) then Invalid
    else Ok((Value(parts[0]) * 100) as int64 + CentsOf(TwoDigits(parts[1])))
  }

  /** `Parse`, as a function of the text. */
  function Parsed(src: string): Result {
    var text := Clean(src);
    var r := ParsedParts(Split(if Signed(text) then text[1..] else text));
    if r.Ok? && text != "" && text[0] == '-' then Ok(-r.cents) else r
  }

  method IsAllDigits(s: string) returns (r: bool)
    ensures r == AllDigits(s)
  {
    if s == "" {
      return false;
    }
    for i := 0 to |s|
      invariant forall j :: 0 <= j < i ==> IsDigit(s[j])
    {
      if s[i] < '0' || s[i] > '9' {
        return false;
      }
    }
    return true;
  }

  /** The part of `Parse` after the sign. All its arithmetic is on int64, and none of it overflows. */
  method ParseMagnitude(sanitized: string) returns (r: Result)
    ensures r == ParsedParts(Split(sanitized))
  {
    var parts := Split(sanitized);
    if |parts| > 2 {
      return Invalid;
    }
    var ok := IsAllDigits(parts[0]);
    if !ok {
      return Invalid;
    }
    var dollars := ParseInt(parts[0]);
    if dollars == None {
      return Invalid;
    }
    if dollars.value > (0x7fff_ffff_ffff_ffff - 99) / 100 {
      return OutOfRange;
    }
    var total: int64 := dollars.value * 100;
    if |parts| == 2 {
      var frac := parts[1];
      if |frac| > 2 {
        frac := frac[0..2];
      }
      if |frac| == 1 {
        frac := frac + "0";
      }
      assert frac == TwoDigits(parts[1]);
      ok := IsAllDigits(frac);
      if !ok {
        return Invalid;
      }
      assert CentsOf(frac) < 100;
      var cents := ParseInt(frac);
      if cents == None {
        return Invalid;
      }
      total := total + cents.value;
    }
    return Ok(total);
  }

  /** `Parse`; the negation of an amount does not overflow either. */
  method Parse(src: string) returns (r: Result)
    ensures r == Parsed(src)
  {
    var sanitized := TrimRight(TrimLeft(src));
    sanitized := WithoutCommas(sanitized);
    var negative := false;
    if sanitized != "" && sanitized[0] == '-' {
      negative := true;
      sanitized := sanitized[1..];
    } else if sanitized != "" && sanitized[0] == '+' {
      sanitized := sanitized[1..];
    }
    r := ParseMagnitude(sanitized);
    if r.Ok? && negative {
      r := Ok(-r.cents);
    }
  }

  // ---------------------------------------------------------------------------------------
  // Printing

  /** Two's complement in 64 bits. */
  function Wrap(n: int): int {
    (n + 0x8000_0000_0000_0000) % 0x1_0000_0000_0000_0000 - 0x8000_0000_0000_0000
  }

  /** Division that truncates toward zero. */
  function Quotient(a: int, b: int): int
    requires b > 0
  {
    if a >= 0 then a / b else -(-a / b)
  }

  function Remainder(a: int, b: int): int
    requires b > 0
  {
    a - Quotient(a, b) * b
  }

  /** `%d`. */
  function Format(n: int): string {
    if n < 0 then "-" + Decimal(-n) else Decimal(n)
  }

  /** `%02d` for numbers of at most two digits. */
  function FormatTwo(n: int): string {
    if 0 <= n < 10 then "0" + Format(n) else Format(n)
  }

  /** `String`. */
  function Printed(c: int64): string {
    var value := if c < 0 then Wrap(-(c as int)) else c as int;
    (if c < 0 then "-" else "") + Format(Quotient(value, 100)) + "." + FormatTwo(Remainder(value, 100))
  }

  /** `CentsWithJsonEncoding`. */
  class CentsWithJsonEncoding {
    var value: int64

    constructor (value: int64)
      ensures this.value == value
    {
      this.value := value;
    }

    /** Up to MAX_CENTS in magnitude the text parses to the amount, and beyond that it does not parse. */
    method MarshalJSON() returns (data: string)
      ensures data == Printed(value)
      ensures Magnitude(value) <= MAX_CENTS ==> Parsed(data) == Ok(value)
      ensures Magnitude(value) > MAX_CENTS ==> !Parsed(data).Ok?
    {
      PrintParseRoundTrip(value);
      data := Printed(value);
    }

    method UnmarshalJSON(data: string) returns (error: bool)
      modifies this
      ensures error == !Parsed(data).Ok?
      ensures value == if error then old(value) else Parsed(data).cents
    {
      var c := Parse(data);
      if !c.Ok? {
        return true;
      }
      value := c.cents;
      return false;
    }
  }

  /** Sends an amount from one object to another as JSON. */
  method Transfer(from: CentsWithJsonEncoding, to: CentsWithJsonEncoding) returns (error: bool)
    modifies to
    ensures error <==> Magnitude(old(from.value)) > MAX_CENTS
    ensures to.value == if error then old(to.value) else old(from.value)
  {
    var data := from.MarshalJSON();
    error := to.UnmarshalJSON(data);
  }

  // ---------------------------------------------------------------------------------------
  // What a text spells

  lemma {:induction false} TrimLeftStops(padding: string, rest: string)
    requires forall i :: 0 <= i < |padding| ==> IsPadding(padding[i])
    requires rest != "" ==> !IsPadding(rest[0])
    ensures TrimLeft(padding + rest) == rest
  {
    if padding == "" {
      assert padding + rest == rest;
    } else {
      assert (padding + rest)[1..] == padding[1..] + rest;
      TrimLeftStops(padding[1..], rest);
    }
  }

  lemma {:induction false} TrimRightStops(rest: string, padding: string)
    requires forall i :: 0 <= i < |padding| ==> IsPadding(padding[i])
    requires rest != "" ==> !IsPadding(rest[|rest| - 1])
    ensures TrimRight(rest + padding) == rest
  {
    if padding == "" {
      assert rest + padding == rest;
    } else {
      assert (rest + padding)[..|rest + padding| - 1] == rest + padding[..|padding| - 1];
      TrimRightStops(rest, padding[..|padding| - 1]);
    }
  }

  lemma {:induction false} CommaFreeStays(s: string, t: string)
    requires ',' !in s
    ensures WithoutCommas(s + t) == s + WithoutCommas(t)
  {
    if s == "" {
      assert s + t == t;
    } else {
      assert (s + t)[1..] == s[1..] + t;
      CommaFreeStays(s[1..], t);
    }
  }

  lemma CommaGoes(s: string, t: string)
    requires ',' !in s
    ensures WithoutCommas(s + "," + t) == s + "" + WithoutCommas(t)
  {
    assert s + "," + t == s + ("," + t);
    CommaFreeStays(s, "," + t);
    assert ("," + t)[1..] == t;
    assert "" + WithoutCommas(t) == WithoutCommas(t);
    assert s + "" == s;
  }

  lemma {:induction false} CommasGo(parts: seq<string>)
    requires parts != [] && forall i :: 0 <= i < |parts| ==> ',' !in parts[i]
    ensures WithoutCommas(Joined(parts, ",")) == Joined(parts, "")
  {
    if |parts| == 1 {
      CommaFreeStays(parts[0], "");
      assert parts[0] + "" == parts[0];
    } else {
      CommaGoes(parts[0], Joined(parts[1..], ","));
      CommasGo(parts[1..]);
    }
  }

  /** Padding on both ends and commas anywhere go; everything else stays, padding inside as well. */
  lemma CleanStrips(left: string, parts: seq<string>, right: string)
    requires forall i :: 0 <= i < |left| ==> IsPadding(left[i])
    requires forall i :: 0 <= i < |right| ==> IsPadding(right[i])
    requires parts != [] && forall i :: 0 <= i < |parts| ==> ',' !in parts[i]
    requires var core := Joined(parts, ","); core != "" ==> !IsPadding(core[0]) && !IsPadding(core[|core| - 1])
    ensures Clean(left + Joined(parts, ",") + right) == Joined(parts, "")
  {
    var core := Joined(parts, ",");
    CommasGo(parts);
    if core == "" {
      assert left + core + right == (left + right) + "";
      TrimLeftStops(left + right, "");
    } else {
      assert left + core + right == left + (core + right);
      TrimLeftStops(left, core + right);
      TrimRightStops(core, right);
    }
  }

  /** The text is a sign or none, a whole part, and a fraction or none. */
  predicate Spells(text: string, negative: bool, plus: bool, whole: string, frac: Option<string>) {
    text == (if negative then "-" else if plus then "+" else "") + whole +
            (if frac.Some? then "." + frac.value else "")
  }

  /** What Parse accepts, but for size: digits, then nothing or a fraction whose first two characters are digits. */
  predicate Readable(whole: string, frac: Option<string>) {
    AllDigits(whole) && (frac.Some? ==> '.' !in frac.value && AllDigits(TwoDigits(frac.value)))
  }

  lemma {:induction false} SplitDotFree(s: string)
    requires '.' !in s
    ensures Split(s) == [s]
  {
    if s != "" {
      SplitDotFree(s[1..]);
      assert [s[0]] + s[1..] == s;
    }
  }

  lemma {:induction false} SplitAtDot(s: string, t: string)
    requires '.' !in s
    ensures Split(s + "." + t) == [s] + Split(t)
  {
    if s == "" {
      assert ("" + "." + t)[1..] == t;
    } else {
      assert (s + "." + t)[1..] == s[1..] + "." + t;
      SplitAtDot(s[1..], t);
      assert [s[0]] + s[1..] == s;
      assert ([s[1..]] + Split(t))[1..] == Split(t);
    }
  }

  /** `strings.Join`. */
  function Joined(parts: seq<string>, separator: string): string
    requires parts != []
  {
    if |parts| == 1 then parts[0] else parts[0] + separator + Joined(parts[1..], separator)
  }

  lemma {:induction false} SplitJoins(s: string)
    ensures Joined(Split(s), ".") == s && forall i :: 0 <= i < |Split(s)| ==> '.' !in Split(s)[i]
  {
    if s != "" {
      SplitJoins(s[1..]);
      var rest, parts := Split(s[1..]), Split(s);
      if s[0] == '.' {
        assert parts[1..] == rest;
        assert "" + "." + s[1..] == s;
      } else {
        assert parts[1..] == rest[1..];
        if |rest| == 1 {
          assert [s[0]] + rest[0] == s;
        } else {
          assert ([s[0]] + rest[0]) + "." + Joined(rest[1..], ".") == [s[0]] + (rest[0] + "." + Joined(rest[1..], "."));
        }
      }
    }
  }

  lemma DigitsAreDotFree(s: string)
    requires AllDigits(s)
    ensures '.' !in s && !Signed(s)
  {
    assert IsDigit(s[0]);
  }

  /** What follows the sign. */
  function Body(whole: string, frac: Option<string>): string {
    whole + (if frac.Some? then "." + frac.value else "")
  }

  lemma SplitBody(whole: string, frac: Option<string>)
    requires Readable(whole, frac)
    ensures Split(Body(whole, frac)) == if frac.Some? then [whole, frac.value] else [whole]
  {
    DigitsAreDotFree(whole);
    if frac.Some? {
      assert Body(whole, frac) == whole + "." + frac.value;
      SplitAtDot(whole, frac.value);
      SplitDotFree(frac.value);
    } else {
      assert Body(whole, frac) == whole;
      SplitDotFree(whole);
    }
  }

  lemma SignComesOff(text: string, negative: bool, plus: bool, whole: string, frac: Option<string>)
    requires Spells(text, negative, plus, whole, frac) && AllDigits(whole)
    ensures (if Signed(text) then text[1..] else text) == Body(whole, frac)
    ensures text != "" && (text[0] == '-' <==> negative)
  {
    DigitsAreDotFree(whole);
    var sign := if negative then "-" else if plus then "+" else "";
    assert text == sign + Body(whole, frac);
    if sign == "" {
      assert text[0] == whole[0] && IsDigit(whole[0]);
    }
  }

  /** Parse on a readable text: the signed cents, or an error that depends on the dollars alone. */
  lemma ParsedSpelling(src: string, negative: bool, plus: bool, whole: string, frac: Option<string>)
    requires Spells(Clean(src), negative, plus, whole, frac) && Readable(whole, frac)
    ensures Value(whole) > MAX_INT64 ==> Parsed(src) == Invalid
    ensures MAX_DOLLARS < Value(whole) <= MAX_INT64 ==> Parsed(src) == OutOfRange
    ensures Value(whole) <= MAX_DOLLARS ==>
      var total := Value(whole) * 100 + (if frac.Some? then Value(TwoDigits(frac.value)) else 0);
      Parsed(src).Ok? && Parsed(src).cents as int == if negative then -total else total
  {
    SignComesOff(Clean(src), negative, plus, whole, frac);
    SplitBody(whole, frac);
    PartsAddUp(whole, frac);
  }

  lemma PartsAddUp(whole: string, frac: Option<string>)
    requires Readable(whole, frac)
    ensures var r := ParsedParts(if frac.Some? then [whole, frac.value] else [whole]);
      && (Value(whole) > MAX_INT64 ==> r == Invalid)
      && (MAX_DOLLARS < Value(whole) <= MAX_INT64 ==> r == OutOfRange)
      && (Value(whole) <= MAX_DOLLARS ==>
        r.Ok? && r.cents as int == Value(whole) * 100 + (if frac.Some? then Value(TwoDigits(frac.value)) else 0))
  {
  }

  /** What Parse reads in a text it accepts. */
  lemma AcceptedSpelling(src: string) returns (negative: bool, plus: bool, whole: string, frac: Option<string>)
    requires Parsed(src).Ok?
    ensures Spells(Clean(src), negative, plus, whole, frac)
    ensures Readable(whole, frac) && Value(whole) <= MAX_DOLLARS
  {
    var text := Clean(src);
    var body := if Signed(text) then text[1..] else text;
    negative, plus := text != "" && text[0] == '-', text != "" && text[0] == '+';
    whole, frac := AcceptedParts(body);
    SignAndBody(text, negative, plus, whole, frac);
  }

  lemma AcceptedParts(body: string) returns (whole: string, frac: Option<string>)
    requires ParsedParts(Split(body)).Ok?
    ensures body == Body(whole, frac) && Readable(whole, frac) && Value(whole) <= MAX_DOLLARS
  {
    var parts := Split(body);
    whole, frac := parts[0], if |parts| == 2 then Some(parts[1]) else None;
    SplitJoins(body);
    if |parts| == 2 {
      assert Joined(parts[1..], ".") == parts[1];
      assert parts[0] + "." + parts[1] == parts[0] + ("." + parts[1]);
    } else {
      assert parts[0] + "" == parts[0];
    }
  }

  lemma SignAndBody(text: string, negative: bool, plus: bool, whole: string, frac: Option<string>)
    requires negative == (text != "" && text[0] == '-') && plus == (text != "" && text[0] == '+')
    requires (if Signed(text) then text[1..] else text) == Body(whole, frac)
    ensures Spells(text, negative, plus, whole, frac)
  {
    var tail := if frac.Some? then "." + frac.value else "";
    if Signed(text) {
      assert text == [text[0]] + text[1..];
      Regroup([text[0]], whole, tail);
    } else {
      Regroup("", whole, tail);
    }
  }

  lemma Regroup(a: string, b: string, c: string)
    ensures a + (b + c) == a + b + c
    ensures "" + b + c == b + c
  {
    assert "" + b == b;
  }

  /** Parse accepts exactly the readable texts whose dollar part is within bounds. */
  lemma AcceptsExactly(src: string)
    ensures Parsed(src).Ok? <==>
      exists negative, plus, whole, frac ::
        Spells(Clean(src), negative, plus, whole, frac) && Readable(whole, frac) && Value(whole) <= MAX_DOLLARS
  {
    if Parsed(src).Ok? {
      var negative, plus, whole, frac := AcceptedSpelling(src);
    } else if negative, plus, whole, frac :|
      Spells(Clean(src), negative, plus, whole, frac) && Readable(whole, frac) && Value(whole) <= MAX_DOLLARS {
      ParsedSpelling(src, negative, plus, whole, frac);
    }
  }

  lemma PlainAppend(a: string, b: string)
    requires Plain(a) && Plain(b)
    ensures Plain(a + b)
  {
  }

  /** The first two digits of a fraction are what is left of it. */
  lemma CutToCents(cents: string, junk: string)
    requires AllDigits(cents) && |cents| == 2 && '.' !in junk
    ensures '.' !in cents + junk && TwoDigits(cents + junk) == cents
  {
    DigitsAreDotFree(cents);
    assert (cents + junk)[..2] == cents;
  }

  lemma CleanDecimal(whole: string, frac: string)
    requires AllDigits(whole) && Plain(frac)
    ensures Clean(whole + ("." + frac)) == whole + ("." + frac)
  {
    DigitsArePlain(whole);
    PlainAppend(".", frac);
    PlainAppend(whole, "." + frac);
    CleanAlready(whole + ("." + frac));
  }

  lemma SpellsDecimal(whole: string, frac: string)
    ensures Spells(whole + ("." + frac), false, false, whole, Some(frac))
  {
    assert "" + whole == whole;
  }

  /** Whatever follows two digits of cents is ignored, digits or not. */
  lemma IgnoresWhatFollowsTwoDecimals(whole: string, cents: string, junk: string)
    requires AllDigits(whole) && AllDigits(cents) && |cents| == 2 && Value(whole) <= MAX_DOLLARS
    requires Plain(junk) && '.' !in junk
    ensures Parsed(whole + ("." + (cents + junk))).Ok?
    ensures Parsed(whole + ("." + (cents + junk))).cents as int == Value(whole) * 100 + Value(cents)
  {
    var frac := cents + junk;
    CutToCents(cents, junk);
    DigitsArePlain(cents);
    PlainAppend(cents, junk);
    CleanDecimal(whole, frac);
    SpellsDecimal(whole, frac);
    ParsedSpelling(whole + ("." + frac), false, false, whole, Some(frac));
  }

  lemma OneDigit(s: string)
    requires |s| == 1 && IsDigit(s[0])
    ensures Value(s) == DigitOf(s[0])
  {
    assert s[..0] == "";
  }

  /** For example "1.23x", which is no decimal. */
  lemma ParsesNoDecimal(src: string)
    requires src == "1.23x"
    ensures Parsed(src) == Ok(123)
  {
    var whole, cents, junk := src[..1], src[2..4], src[4..];
    assert src[0] == '1' && src[1] == '.' && src[2] == '2' && src[3] == '3' && src[4] == 'x';
    assert whole[0] == src[0] && cents[0] == src[2] && cents[1] == src[3] && junk[0] == src[4];
    assert src == whole + ("." + (cents + junk));
    OneDigit(whole);
    OneDigit(cents[..1]);
    OneDigit(cents[1..]);
    assert cents == cents[..1] + cents[1..];
    ValueConcat(cents[..1], cents[1..]);
    assert Pow10(0) == 1 && Pow10(1) == 10;
    IgnoresWhatFollowsTwoDecimals(whole, cents, junk);
  }

  lemma {:induction false} TrimLeftPast(padding: string, rest: string)
    requires forall i :: 0 <= i < |padding| ==> IsPadding(padding[i])
    ensures TrimLeft(padding + rest) == TrimLeft(rest)
  {
    if padding == "" {
      assert padding + rest == rest;
    } else {
      assert (padding + rest)[1..] == padding[1..] + rest;
      TrimLeftPast(padding[1..], rest);
    }
  }

  lemma {:induction false} TrimRightPast(rest: string, padding: string)
    requires forall i :: 0 <= i < |padding| ==> IsPadding(padding[i])
    ensures TrimRight(rest + padding) == TrimRight(rest)
  {
    if padding == "" {
      assert rest + padding == rest;
    } else {
      assert (rest + padding)[..|rest + padding| - 1] == rest + padding[..|padding| - 1];
      TrimRightPast(rest, padding[..|padding| - 1]);
    }
  }

  lemma {:induction false} TrimBothPast(rest: string, padding: string)
    requires forall i :: 0 <= i < |padding| ==> IsPadding(padding[i])
    ensures TrimRight(TrimLeft(rest + padding)) == TrimRight(TrimLeft(rest))
  {
    if rest != "" && IsPadding(rest[0]) {
      assert (rest + padding)[1..] == rest[1..] + padding;
      TrimBothPast(rest[1..], padding);
    } else if rest == "" {
      assert rest + padding == padding + "" == padding;
      TrimLeftPast(padding, "");
    } else {
      TrimRightPast(rest, padding);
    }
  }

  /** Spaces and dollar signs around a text do not change what it parses to. */
  lemma PaddingIsIgnored(left: string, text: string, right: string)
    requires forall i :: 0 <= i < |left| ==> left[i] == ' ' || left[i] == '$'
    requires forall i :: 0 <= i < |right| ==> right[i] == ' ' || right[i] == '$'
    ensures Parsed(left + text + right) == Parsed(text)
  {
    assert left + text + right == left + (text + right);
    TrimLeftPast(left, text + right);
    TrimBothPast(text, right);
  }

  /** No other characters are dropped. */
  lemma OtherTextIsKept(text: string)
    requires forall i :: 0 <= i < |text| ==> text[i] != ' ' && text[i] != '$' && text[i] != ','
    ensures Clean(text) == text
  {
    CleanAlready(text);
  }

  /** The ten digits, by their values. */
  lemma DigitsHaveTheirValues(s: string)
    requires s == "0123456789"
    ensures forall d :: 0 <= d < 10 ==> IsDigit(s[d]) && DigitOf(s[d]) == d && Decimal(d) == [s[d]]
    ensures forall c :: IsDigit(c) ==> c in s
  {
    forall c | IsDigit(c)
      ensures c in s
    {
      assert s[(c as int) - ('0' as int)] == c;
    }
  }

  // ---------------------------------------------------------------------------------------
  // Main results

  lemma CutsToCents(x: nat, p: nat, y: nat)
    requires y < p
    ensures (x * p + y) * 100 / (p * 100) == x
  {
    var n := (x * p + y) * 100;
    var d := p * 100;
    assert n == x * d + y * 100;
    assert 0 <= y * 100 < d;
    QuotientIs(n, d, x, y * 100);
  }

  lemma QuotientIs(n: int, d: int, q: int, r: int)
    requires n == q * d + r && 0 <= r < d
    ensures n / d == q
  {
    var k := n / d;
    assert n == k * d + n % d;
    assert (k - q) * d == k * d - q * d;
    ZeroIfSmall(k - q, d);
  }

  lemma ZeroIfSmall(x: int, d: int)
    requires -d < x * d < d
    ensures x == 0
  {
  }

  /** Two digits of a fraction are its cents, whatever follows them. */
  lemma TwoDigitsTruncate(whole: string, frac: string)
    requires AllDigits(whole) && AllDigits(frac)
    ensures AllDigits(TwoDigits(frac))
    ensures Value(whole) * 100 + Value(TwoDigits(frac)) == Value(whole + frac) * 100 / Pow10(|frac|)
  {
    if |frac| == 1 {
      assert TwoDigits(frac) == frac + "0";
      OneDigitPads(whole, frac);
    } else {
      var head, tail := frac[..2], frac[2..];
      assert TwoDigits(frac) == head;
      assert whole + head + tail == whole + frac;
      MoreDigitsTruncate(whole, head, tail);
    }
  }

  lemma OneDigitPads(whole: string, frac: string)
    requires AllDigits(whole) && AllDigits(frac) && |frac| == 1
    ensures AllDigits(frac + "0") && Value(whole) * 100 + Value(frac + "0") == Value(whole + frac) * 100 / Pow10(1)
  {
    assert Pow10(0) == 1 && Pow10(1) == 10;
    ValueConcat(whole, frac);
    assert (frac + "0")[..1] == frac;
    assert Value(frac + "0") == Value(frac) * 10;
  }

  lemma TwoMoreDigits(whole: string, head: string)
    requires AllDigits(whole) && AllDigits(head) && |head| == 2
    ensures AllDigits(whole + head) && Value(whole + head) == Value(whole) * 100 + Value(head)
  {
    ValueConcat(whole, head);
    TensAdd(0);
  }

  lemma CutsTo(v: nat, x: nat, p: nat, y: nat, q: nat)
    requires v == x * p + y && y < p && q == p * 100
    ensures v * 100 / q == x
  {
    CutsToCents(x, p, y);
  }

  lemma MoreDigitsTruncate(whole: string, head: string, tail: string)
    requires AllDigits(whole) && AllDigits(head) && |head| == 2
    requires forall i :: 0 <= i < |tail| ==> IsDigit(tail[i])
    ensures Value(whole) * 100 + Value(head) == Value(whole + head + tail) * 100 / Pow10(|tail| + 2)
  {
    TwoMoreDigits(whole, head);
    ValueConcat(whole + head, tail);
    ValueBelowPow10(tail);
    TensAdd(|tail|);
    CutsTo(Value(whole + head + tail), Value(whole + head), Pow10(|tail|), Value(tail), Pow10(|tail| + 2));
  }

  lemma TensAdd(k: nat)
    ensures Pow10(k + 2) == Pow10(k) * 100
  {
    assert Pow10(k + 2) == Pow10(k + 1) * 10;
  }

  /**
   A well-formed decimal parses to its amount in cents, truncated toward zero, with the sign
   applied to the whole; it fails exactly when the dollar part is above MAX_DOLLARS.
   */
  lemma ParsesDecimals(src: string, negative: bool, plus: bool, whole: string, frac: Option<string>)
    requires Spells(Clean(src), negative, plus, whole, frac)
    requires AllDigits(whole) && (frac.Some? ==> AllDigits(frac.value))
    ensures Parsed(src).Ok? <==> Value(whole) <= MAX_DOLLARS
    ensures Parsed(src).Ok? ==>
      var digits, places := if frac.Some? then whole + frac.value else whole, if frac.Some? then |frac.value| else 0;
      var magnitude := Value(digits) * 100 / Pow10(places);
      Parsed(src).cents as int == if negative then -magnitude else magnitude
  {
    if frac.Some? {
      DigitsAreDotFree(frac.value);
      TwoDigitsTruncate(whole, frac.value);
    }
    ParsedSpelling(src, negative, plus, whole, frac);
  }

  predicate Plain(s: string) {
    forall i :: 0 <= i < |s| ==> !IsPadding(s[i]) && s[i] != ','
  }

  /** Text without padding and commas is already clean. */
  lemma {:induction false} CleanAlready(s: string)
    requires Plain(s)
    ensures WithoutCommas(s) == s && TrimLeft(s) == s && TrimRight(s) == s
  {
    if s != "" {
      CleanAlready(s[1..]);
    }
  }

  lemma TwoDigitsSpell(n: nat)
    requires n < 100
    ensures AllDigits(FormatTwo(n)) && |FormatTwo(n)| == 2 && Value(FormatTwo(n)) == n
  {
    DecimalSpells(n);
    if n < 10 {
      ValueConcat("0", Decimal(n));
      assert Value("0") == 0 by {
        assert "0"[..0] == "";
      }
    }
  }

  function Magnitude(c: int64): nat {
    if c < 0 then -(c as int) else c as int
  }

  lemma NoWrap(c: int64)
    requires c as int != MIN_INT64
    ensures c < 0 ==> Wrap(-(c as int)) == Magnitude(c)
  {
  }

  lemma Division(m: nat)
    ensures Quotient(m, 100) == m / 100 && Remainder(m, 100) == m % 100
    ensures Format(m / 100) == Decimal(m / 100)
  {
  }

  lemma PrintedIs(c: int64)
    requires c as int != MIN_INT64
    ensures Printed(c) == (if c < 0 then "-" else "") + Decimal(Magnitude(c) / 100)
                          + ("." + FormatTwo(Magnitude(c) % 100))
  {
    var m := Magnitude(c);
    NoWrap(c);
    Division(m);
    var sign, d, f := if c < 0 then "-" else "", Decimal(m / 100), FormatTwo(m % 100);
    assert sign + d + "." + f == sign + d + ("." + f);
  }

  /** A printed amount other than the smallest int64: sign, dollars, and two digits of cents. */
  lemma PrintedSpells(c: int64)
    requires c as int != MIN_INT64
    ensures Clean(Printed(c)) == Printed(c)
    ensures Spells(Printed(c), c < 0, false, Decimal(Magnitude(c) / 100), Some(FormatTwo(Magnitude(c) % 100)))
  {
    var d, f := Decimal(Magnitude(c) / 100), FormatTwo(Magnitude(c) % 100);
    PrintedIs(c);
    DecimalSpells(Magnitude(c) / 100);
    TwoDigitsSpell(Magnitude(c) % 100);
    DigitsArePlain(d);
    DigitsArePlain(f);
    AmountIsPlain(if c < 0 then "-" else "", d, "." + f);
    CleanAlready(Printed(c));
  }

  lemma AmountIsPlain(a: string, b: string, c: string)
    requires Plain(a) && Plain(b) && Plain(c)
    ensures Plain(a + b + c)
  {
  }

  /**
   Print then parse: every amount up to MAX_CENTS in magnitude comes back, and every other one
   is an error, never a wrong value. JSON goes through the same two functions.
   */
  lemma PrintParseRoundTrip(c: int64)
    ensures -MAX_CENTS <= c as int <= MAX_CENTS ==> Parsed(Printed(c)) == Ok(c)
    ensures !(-MAX_CENTS <= c as int <= MAX_CENTS) ==> !Parsed(Printed(c)).Ok?
  {
    if c as int == MIN_INT64 {
      SmallestIsInvalid();
    } else {
      var whole, two := Decimal(Magnitude(c) / 100), FormatTwo(Magnitude(c) % 100);
      PrintedSpells(c);
      DecimalSpells(Magnitude(c) / 100);
      TwoDigitsSpell(Magnitude(c) % 100);
      assert TwoDigits(two) == two;
      DigitsAreDotFree(two);
      ParsedSpelling(Printed(c), c < 0, false, whole, Some(two));
    }
  }

  /** The smallest int64 prints with two signs, which Parse rejects. */
  lemma SmallestIsInvalid()
    ensures Parsed(Printed(MIN_INT64 as int64)) == Invalid
  {
    var dollars, cents := -Quotient(MIN_INT64, 100), -Remainder(MIN_INT64, 100);
    assert Wrap(-MIN_INT64) == MIN_INT64;
    assert dollars > 0 && cents > 0;
    DecimalSpells(dollars);
    DecimalSpells(cents);
    TwoSignsAreInvalid(Decimal(dollars), Decimal(cents));
  }

  lemma TwoSignsAreInvalid(d: string, f: string)
    requires AllDigits(d) && AllDigits(f)
    ensures Parsed("-" + ("-" + d) + "." + ("-" + f)) == Invalid
  {
    var whole, frac := "-" + d, "-" + f;
    DigitsArePlain(d);
    DigitsArePlain(f);
    AmountIsPlain("-", "-", d);
    AmountIsPlain(".", "-", f);
    AmountIsPlain("-" + "-" + d, "." + "-" + f, "");
    assert "-" + whole + "." + frac == ("-" + "-" + d) + ("." + "-" + f) + "";
    NoDotAfterSign(d);
    BadDollarsAreInvalid(whole, frac);
  }

  lemma DigitsArePlain(s: string)
    requires AllDigits(s)
    ensures Plain(s)
  {
  }

  lemma BadDollarsAreInvalid(whole: string, frac: string)
    requires Plain("-" + whole + "." + frac) && '.' !in whole && !AllDigits(whole)
    ensures Parsed("-" + whole + "." + frac) == Invalid
  {
    var text := "-" + whole + "." + frac;
    CleanAlready(text);
    assert text[1..] == whole + "." + frac;
    SplitAtDot(whole, frac);
  }

  lemma NoDotAfterSign(s: string)
    requires AllDigits(s)
    ensures '.' !in "-" + s && !AllDigits("-" + s)
  {
    DigitsAreDotFree(s);
    assert !IsDigit(("-" + s)[0]);
  }
}
