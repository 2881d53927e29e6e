/**
 * The input checks of the fog server (server.js): the manual command check of
 * `executeCommand`, the interval check of the Auto-Fog enable route, with the
 * JavaScript `parseInt` it relies on, and the hexadecimal check of the custom
 * code route.
 */
module Validation {
  import opened Wrappers

  // ---------------------------------------------------------------------------
  // Manual commands (server.js:248-249)
  // ---------------------------------------------------------------------------

  /** The list `validCommands` of `executeCommand`. */
  const VALID_COMMANDS: seq<string> := ["on", "off"]

  /** `validCommands.includes(command)`. */
  function IsValidCommand(command: string): (b: bool)
    ensures b <==> command == "on" || command == "off"
  {
    command in VALID_COMMANDS
  }

  // ---------------------------------------------------------------------------
  // Auto-Fog interval (server.js:441)
  // ---------------------------------------------------------------------------

  /** The interval lengths, in minutes, that the enable route admits. */
  predicate IsAllowedInterval(n: int) {
    n == 2 || n == 5 || n == 10
  }

  /**
   * The `interval` member of the enable request's JSON body. `Absent` stands
   * for a missing member, `null`, `true` and `false`, all of which
   * `parseInt` turns into NaN; `Number` is an integral JSON number. Arrays
   * and objects are not modelled.
   */
  datatype IntervalField = Absent | Number(n: int) | Text(s: string)

  /** JavaScript truthiness of the field: `!interval`. */
  predicate IsFalsy(v: IntervalField) {
    match v
    case Absent => true
    case Number(n) => n == 0
    case Text(s) => s == ""
  }

  /** The characters `parseInt` skips at the start: ECMAScript WhiteSpace and LineTerminator. */
  predicate IsJsWhitespace(c: char) {
    var k := c as int;
    k == 0x09 || k == 0x0A || k == 0x0B || k == 0x0C || k == 0x0D || k == 0x20 ||
    k == 0xA0 || k == 0x1680 || (0x2000 <= k <= 0x200A) || k == 0x2028 || k == 0x2029 ||
    k == 0x202F || k == 0x205F || k == 0x3000 || k == 0xFEFF
  }

  /** The string with its leading white space removed. */
  function TrimStart(s: string): (t: string)
    ensures |t| <= |s| && t == s[|s| - |t|..]
    ensures t == [] || !IsJsWhitespace(t[0])
    ensures forall i :: 0 <= i < |s| - |t| ==> IsJsWhitespace(s[i])
  {
    if s != [] && IsJsWhitespace(s[0]) then TrimStart(s[1..]) else s
  }

  /**
   * The value of `c` as a digit of the given radix, if it is one: '0'-'9'
   * stand for 0-9 and 'a'-'f' or 'A'-'F' for 10-15, below the radix.
   */
  function DigitValue(c: char, radix: int): (d: Option<int>)
    requires 2 <= radix <= 16
    ensures d.Some? ==> 0 <= d.value < radix
  {
    var v :=
      if '0' <= c <= '9' then c as int - '0' as int
      else if 'a' <= c <= 'f' then c as int - 'a' as int + 10
      else if 'A' <= c <= 'F' then c as int - 'A' as int + 10
      else radix;
    if v < radix then Some(v) else None
  }

  predicate IsDigit(c: char, radix: int)
    requires 2 <= radix <= 16
  {
    DigitValue(c, radix).Some?
  }

  /** The longest prefix of `s` made of digits of the radix. */
  function DigitPrefix(s: string, radix: int): (z: string)
    requires 2 <= radix <= 16
    ensures |z| <= |s| && z == s[..|z|]
    ensures forall i :: 0 <= i < |z| ==> IsDigit(z[i], radix)
    ensures |z| < |s| ==> !IsDigit(s[|z|], radix)
  {
    if s != [] && IsDigit(s[0], radix) then [s[0]] + DigitPrefix(s[1..], radix) else []
  }

  /** The number that a string of digits denotes, most significant digit first. */
  function DigitsValue(z: string, radix: int): (n: nat)
    requires 2 <= radix <= 16
    requires forall i :: 0 <= i < |z| ==> IsDigit(z[i], radix)
  {
    if z == [] then 0
    else
      assert IsDigit(z[|z| - 1], radix);
      var high := DigitsValue(z[..|z| - 1], radix);
      assert high * radix >= 0;
      high * radix + DigitValue(z[|z| - 1], radix).value
  }

  /**
   * JavaScript `parseInt(s)` with no radix argument (section 19.2.5 of
   * ECMA-262): skip leading white space, read an optional sign, read the
   * prefix "0x" or "0X" as radix 16 and otherwise use radix 10, and take the
   * longest run of digits that follows. `None` is NaN (no digit at all).
   */
  function ParseIntText(s: string): (r: Option<int>)
    ensures r.None? <==> (
      var t := TrimStart(s);
      var u := if t != [] && (t[0] == '+' || t[0] == '-') then t[1..] else t;
      if |u| >= 2 && u[0] == '0' && (u[1] == 'x' || u[1] == 'X')
      then u[2..] == [] || !IsDigit(u[2], 16)
      else u == [] || !IsDigit(u[0], 10))
  {
    var t := TrimStart(s);
    var sign := if t != [] && t[0] == '-' then -1 else 1;
    var u := if t != [] && (t[0] == '+' || t[0] == '-') then t[1..] else t;
    var hex := |u| >= 2 && u[0] == '0' && (u[1] == 'x' || u[1] == 'X');
    var radix := if hex then 16 else 10;
    var z := DigitPrefix(if hex then u[2..] else u, radix);
    if z == [] then None else Some(sign * DigitsValue(z, radix))
  }

  /** 10^21: from this magnitude on, JavaScript writes a number in exponent form ("2e+21"). */
  const EXPONENT_FORM_BOUND: int := 1_000_000_000_000_000_000_000

  /** The first decimal digit of a natural number. */
  function LeadingDigit(n: nat): (d: nat)
    ensures n > 0 ==> 1 <= d <= 9
    ensures d <= n
    decreases n
  {
    if n < 10 then n else LeadingDigit(n / 10)
  }

  /**
   * `parseInt(interval)`. A JSON number is first turned into its text. Below
   * 10^21 in magnitude that text is its decimal digits, which read back as
   * the number itself. From 10^21 on it is exponent form, such as "2e+21",
   * of which `parseInt` reads only the sign and the leading digit; the model
   * takes the leading digit of the exact value.
   */
  function ParseInt(v: IntervalField): (r: Option<int>)
    ensures v.Absent? ==> r.None?
    ensures v.Number? && -EXPONENT_FORM_BOUND < v.n < EXPONENT_FORM_BOUND ==> r == Some(v.n)
    ensures v.Number? && v.n >= EXPONENT_FORM_BOUND ==> r.Some? && 1 <= r.value <= 9
    ensures v.Number? && v.n <= -EXPONENT_FORM_BOUND ==> r.Some? && -9 <= r.value <= -1
    ensures v.Text? ==> r == ParseIntText(v.s)
  {
    match v
    case Absent => None
    case Number(n) =>
      if n >= EXPONENT_FORM_BOUND then Some(LeadingDigit(n))
      else if n <= -EXPONENT_FORM_BOUND then (var d: int := LeadingDigit(-n); Some(-d))
      else Some(n)
    case Text(s) => ParseIntText(s)
  }

  /**
   * The enable route's guard `!interval || ![2, 5, 10].includes(parseInt(interval))`,
   * giving the parsed interval when the request passes it.
   */
  function CheckInterval(v: IntervalField): (r: Option<int>)
    ensures r.Some? <==> ParseInt(v).Some? && IsAllowedInterval(ParseInt(v).value)
    ensures r.Some? ==> r == ParseInt(v)
  {
    if IsFalsy(v) then None
    else match ParseInt(v)
      case Some(n) => if IsAllowedInterval(n) then Some(n) else None
      case None => None
  }

  /** 2e21 is written "2e+21", so the route reads it as 2 and accepts it. */
  lemma HugeIntervalReadAsLeadingDigit()
    ensures CheckInterval(Number(2 * EXPONENT_FORM_BOUND)) == Some(2)
  {
    assert Pow10(7) == 10_000_000;
    assert Pow10(14) == 100_000_000_000_000;
    assert Pow10(21) == EXPONENT_FORM_BOUND;
    LeadingDigitScaled(2, 21);
  }

  function Pow10(k: nat): (p: nat)
    ensures p >= 1
  {
    if k == 0 then 1 else 10 * Pow10(k - 1)
  }

  /** A digit followed by `k` zeros leads with that digit. */
  lemma {:induction false} LeadingDigitScaled(d: nat, k: nat)
    requires 1 <= d <= 9
    ensures LeadingDigit(d * Pow10(k)) == d
    decreases k
  {
    if k > 0 {
      var p := Pow10(k - 1);
      assert d * Pow10(k) == (d * p) * 10;
      assert (d * p) * 10 / 10 == d * p;
      LeadingDigitScaled(d, k - 1);
    }
  }

  /** Leading blanks are skipped and whatever follows the number is ignored. */
  lemma IntervalWithTrailingText()
    ensures CheckInterval(Text(" 10min")) == Some(10)
  {
    TrailingTextDigits();
    assert DigitsValue("10", 10) == 10 by {
      assert "10"[..1] == "1";
    }
    assert ParseIntText(" 10min") == Some(10);
  }

  lemma TrailingTextDigits()
    ensures TrimStart(" 10min") == "10min"
    ensures DigitPrefix("10min", 10) == "10"
  {
    assert IsJsWhitespace(" 10min"[0]);
    assert " 10min"[1..] == "10min";
    assert !IsJsWhitespace("10min"[0]);
    TrailingTextPrefix();
  }

  lemma TrailingTextPrefix()
    ensures DigitPrefix("10min", 10) == "10"
  {
    assert DigitValue('m', 10).None?;
    assert DigitPrefix("min", 10) == "";
    assert "10min"[1..] == "0min";
    assert "0min"[1..] == "min";
    assert DigitValue('0', 10) == Some(0);
    assert DigitPrefix("0min", 10) == "0";
    assert DigitValue('1', 10) == Some(1);
  }

  /** A "0x" prefix switches to radix 16. */
  lemma IntervalInHex()
    ensures CheckInterval(Text("0x5")) == Some(5)
  {
    assert TrimStart("0x5") == "0x5";
    assert DigitPrefix("5", 16) == "5";
    assert ParseIntText("0x5") == Some(5);
  }

  /** A minus sign makes 5 into -5, which is refused. */
  lemma NegativeIntervalRefused()
    ensures CheckInterval(Text("-5")) == None
  {
    assert !IsJsWhitespace("-5"[0]);
    assert TrimStart("-5") == "-5";
    assert "-5"[1..] == "5";
    assert DigitValue('5', 10) == Some(5);
    assert DigitPrefix("5", 10) == "5";
    assert DigitsValue("5", 10) == 5 by {
      assert "5"[..0] == [];
    }
    assert ParseIntText("-5") == Some(-5);
    assert ParseInt(Text("-5")) == Some(-5);
  }

  // ---------------------------------------------------------------------------
  // Custom code (server.js:385, 394)
  // ---------------------------------------------------------------------------

  /** One character of the class `[0-9A-Fa-f]`: a digit of radix 16. */
  predicate IsHexDigit(c: char) {
    IsDigit(c, 16)
  }

  /** The characters of `[0-9A-Fa-f]`, listed one by one. */
  const HEX_DIGITS: string := "0123456789ABCDEFabcdef"

  lemma HexDigitClass(c: char)
    ensures IsHexDigit(c) <==> c in HEX_DIGITS
  {
    if IsHexDigit(c) {
      if '0' <= c <= '9' {
        assert c == HEX_DIGITS[c as int - '0' as int];
      } else if 'A' <= c <= 'F' {
        assert c == HEX_DIGITS[c as int - 'A' as int + 10];
      } else {
        assert c == HEX_DIGITS[c as int - 'a' as int + 16];
      }
    }
  }

  /**
   * The regular expression `^[0-9A-Fa-f]+$`, matched the way its `+` reads:
   * one hex digit, then either the end of the text or a further match.
   */
  function MatchesHexCode(s: string): (b: bool)
    ensures b <==> |s| > 0 && forall i :: 0 <= i < |s| ==> IsHexDigit(s[i])
  {
    |s| > 0 && IsHexDigit(s[0]) && (|s| == 1 || MatchesHexCode(s[1..]))
  }

  /** What the custom code route makes of the request's `code` member. */
  datatype CodeCheck = MissingCode | BadFormat | Accepted(code: string)

  /**
   * `if (!code)` answers "Code parameter required"; a code that fails the
   * regular expression answers "Invalid code format"; any other code is sent.
   */
  function CheckCustomCode(code: Option<string>): (r: CodeCheck)
    ensures r.MissingCode? <==> code.None? || code.value == ""
    ensures r.Accepted? <==> code.Some? && |code.value| > 0 && forall i :: 0 <= i < |code.value| ==> IsHexDigit(code.value[i])
    ensures r.Accepted? ==> r.code == code.value
  {
    if code.None? || code.value == "" then MissingCode
    else if !MatchesHexCode(code.value) then BadFormat
    else Accepted(code.value)
  }
}
