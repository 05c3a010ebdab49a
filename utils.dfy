/** Helpers shared by the hardware units: turning foreign `Result`s and
    `Option`s into the emulator's own errors, rendering a signed value as
    word text, and looking a program up by name in the process table. */
module Utils {
  import opened Numerics
  import opened Outcomes
  import opened Architecture

  /** `convert_result`: keeps a success, replaces any failure by the given
      message and cause. */
  function ConvertResult<T, E>(resultExtern: Result<T, E>, msg: string, cod: Interrups): (r: Result<T, Errors>)
    ensures resultExtern.Ok? <==> r.Ok?
    ensures r.Ok? ==> r.value == resultExtern.value
    ensures r.Err? ==> r.error == Errors(msg, cod)
  {
    match resultExtern
    case Ok(val) => Ok(val)
    case Err(_) => Err(Errors(msg, cod))
  }

  /** `convert_option_result`: `Some` becomes success, `None` the given error. */
  function ConvertOptionResult<T>(option: Option<T>, msg: string, cod: Interrups): (r: Result<T, Errors>)
    ensures option.Some? <==> r.Ok?
    ensures r.Ok? ==> r.value == option.value
    ensures r.Err? ==> r.error == Errors(msg, cod)
  {
    match option
    case Some(val) => Ok(val)
    case None => Err(Errors(msg, cod))
  }

  /** `convert_to_string_format_pal`: a negative value is "1" followed by its
      magnitude padded to seven digits, any other value is padded to eight.
      `i32::abs` overflows on the least 32-bit value, so that one is excluded. */
  function ConvertToStringFormatPal(pal: I32): (s: string)
    requires pal != -0x8000_0000
    ensures AllDigits(s)
    ensures pal < 0 ==> |s| > 1 && s[0] == '1' && s[1..] == Format(-pal, 7)
    ensures pal >= 0 ==> s == Format(pal, 8)
  {
    if pal < 0 then "1" + Format(-pal, 7) else Format(pal, 8)
  }

  /** The rendering is exactly one word long on the range a word can hold. */
  lemma FormatPalLength(n: I32)
    requires -9_999_999 <= n <= 99_999_999
    ensures |ConvertToStringFormatPal(n)| == 8
  {
    if n < 0 {
      FormatWidth(-n, 7);
    } else {
      FormatWidth(n, 8);
    }
  }

  /** The text of a negative value reads as the sign digit 1 followed by
      the magnitude. */
  lemma NegativeTextValue(m: nat)
    requires 0 < m < SignUnit
    ensures |"1" + Format(m, 7)| == 8 && AllDigits("1" + Format(m, 7))
    ensures ParseDigits("1" + Format(m, 7)) == SignUnit + m
  {
    FormatWidth(m, 7);
    FormatParses(m, 7);
    ParseAppend("1", Format(m, 7));
    assert ParseDigits("1") == 1 by { assert "1"[..0] == []; }
  }

  /** Rendering a signed value and reading it back as a word gives the value
      again, for every value a word can represent. */
  lemma FormatPalRoundTrip(n: I32)
    requires -9_999_999 <= n <= 9_999_999
    ensures New(ConvertToStringFormatPal(n)).Some?
    ensures Convert(New(ConvertToStringFormatPal(n)).value) == n
  {
    if n < 0 {
      NegativeTextValue(-n);
    } else {
      FormatWidth(n, 8);
      FormatParses(n, 8);
    }
  }

  /** The other direction: a word whose leading digit is 0 or 1, other than
      the negative zero 10000000, is rendered back to its own eight digits. */
  lemma ConvertFormatRoundTrip(p: Palabra)
    requires p.palabra < 2 * SignUnit && p.palabra != SignUnit
    ensures ConvertToStringFormatPal(Convert(p)) == Format(p.palabra, 8)
  {
    if p.palabra > SignUnit {
      var m := p.palabra - SignUnit;
      NegativeTextValue(m);
      FormatWidth(p.palabra, 8);
      FormatParses(p.palabra, 8);
      EqualLengthDigitsInjective("1" + Format(m, 7), Format(p.palabra, 8));
    }
  }

  /** Two digit strings of one length with the same value are equal. */
  lemma {:induction false} EqualLengthDigitsInjective(s: string, t: string)
    requires AllDigits(s) && AllDigits(t) && |s| == |t|
    requires ParseDigits(s) == ParseDigits(t)
    ensures s == t
  {
    if s != [] {
      var k := |s| - 1;
      var a, b := ParseDigits(s[..k]), ParseDigits(t[..k]);
      var x, y := DigitValue(s[k]), DigitValue(t[k]);
      assert a * 10 + x == b * 10 + y;
      DivModUnique(a * 10 + x, 10, a, x);
      DivModUnique(b * 10 + y, 10, b, y);
      EqualLengthDigitsInjective(s[..k], t[..k]);
      assert s == s[..k] + [s[k]] && t == t[..k] + [t[k]];
    }
  }

  /** The text of the error `linear_search_program` reports. */
  function NotFoundMessage(name: string): string {
    "No se encontro programa el programa " + name + ", en la tabla de procesos"
  }

  /** `linear_search_program`: the first entry of the process table whose
      name is `name`, or an invalid-instruction error when none has it.
      `nameOf` reads an entry's name. */
  method LinearSearchProgram<P>(tableProcess: seq<P>, nameOf: P -> string, name: string)
    returns (r: Result<P, Errors>)
    ensures r.Ok? ==> exists i :: 0 <= i < |tableProcess| && tableProcess[i] == r.value
                        && nameOf(tableProcess[i]) == name
                        && forall j :: 0 <= j < i ==> nameOf(tableProcess[j]) != name
    ensures r.Err? <==> forall j :: 0 <= j < |tableProcess| ==> nameOf(tableProcess[j]) != name
    ensures r.Err? ==> r.error == Errors(NotFoundMessage(name), InstInv)
  {
    var i := 0;
    while i < |tableProcess|
      invariant 0 <= i <= |tableProcess|
      invariant forall j :: 0 <= j < i ==> nameOf(tableProcess[j]) != name
    {
      if nameOf(tableProcess[i]) == name {
        return Ok(tableProcess[i]);
      }
      i := i + 1;
    }
    return Err(Errors(NotFoundMessage(name), InstInv));
  }
}
