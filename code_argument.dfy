/**
 * The `--code` argument on its way from the server to the transmitter
 * script. The server admits a code of hex digits (server.js:394) and hands
 * it to the script, whose option `--code` converts its text with Python's
 * `int(text, 0)` (fog-controller.py:116).
 */
module CodeArgument {
  import opened Wrappers
  import opened Validation

  /**
   * The radix that the start of the text selects in `int(text, 0)`: "0x"
   * for 16, "0o" for 8, "0b" for 2, in either case; otherwise 10.
   */
  function PrefixRadix(text: string): (radix: int)
    ensures radix == 2 || radix == 8 || radix == 10 || radix == 16
    ensures radix != 10 <==> |text| >= 2 && text[0] == '0' && text[1] in "xXoObB"
  {
    if |text| >= 2 && text[0] == '0' then
      if text[1] == 'x' || text[1] == 'X' then 16
      else if text[1] == 'o' || text[1] == 'O' then 8
      else if text[1] == 'b' || text[1] == 'B' then 2
      else 10
    else 10
  }

  predicate AllDigits(z: string, radix: int)
    requires 2 <= radix <= 16
  {
    forall i :: 0 <= i < |z| ==> IsDigit(z[i], radix)
  }

  /**
   * Python's `int(text, 0)` on text without sign, white space or
   * underscores, over ASCII digits: after a radix prefix, one or more
   * digits of that radix;
   * without a prefix, decimal digits, of which the first may be 0 only when
   * all of them are. `None` is the ValueError that argparse reports.
   */
  function PythonInt(text: string): (r: Option<nat>)
    ensures PrefixRadix(text) != 10 ==> (r.Some? <==> |text| > 2 && AllDigits(text[2..], PrefixRadix(text)))
    ensures PrefixRadix(text) == 10 ==>
      (r.Some? <==> text != [] && AllDigits(text, 10) && (text[0] == '0' ==> forall i :: 0 <= i < |text| ==> text[i] == '0'))
  {
    var radix := PrefixRadix(text);
    if radix != 10 then
      var digits := text[2..];
      if digits != [] && AllDigits(digits, radix) then Some(DigitsValue(digits, radix)) else None
    else if text != [] && AllDigits(text, 10) && (text[0] == '0' ==> forall i :: 0 <= i < |text| ==> text[i] == '0') then
      Some(DigitsValue(text, 10))
    else None
  }

  /** The number a code of hex digits stands for. */
  function HexValue(code: string): nat
    requires MatchesHexCode(code)
  {
    assert AllDigits(code, 16);
    DigitsValue(code, 16)
  }

  /**
   * The argument that makes the script send the code's hex value: the code
   * behind a "0x" prefix.
   */
  function HexArgument(code: string): (arg: string)
    requires MatchesHexCode(code)
    ensures PythonInt(arg) == Some(HexValue(code))
  {
    var arg := "0x" + code;
    assert arg[2..] == code;
    assert AllDigits(code, 16);
    arg
  }

  /** Passed bare, a code with a letter among its digits is not a number to the script. */
  lemma BareCodeRefused()
    ensures MatchesHexCode("1A2b") && PythonInt("1A2b") == None
  {
    assert !IsDigit("1A2b"[1], 10);
  }

  /** Passed bare, a code of decimal digits is read in radix 10: "10" sends 10, not 16. */
  lemma BareCodeReadAsDecimal()
    ensures MatchesHexCode("10") && PythonInt("10") == Some(10) && HexValue("10") == 16
  {
    assert "10"[..1] == "1";
    assert DigitsValue("10", 10) == 10;
    assert DigitsValue("10", 16) == 16;
  }

  /** Passed bare, "0b1" is read as the binary number 1, not the hex number 0xb1. */
  lemma BareCodeReadAsBinary()
    ensures MatchesHexCode("0b1") && PythonInt("0b1") == Some(1) && HexValue("0b1") == 177
  {
    assert "0b1"[2..] == "1";
    assert "0b1"[..2] == "0b";
    assert "0b"[..1] == "0";
    assert DigitsValue("0b", 16) == 11;
  }
}
