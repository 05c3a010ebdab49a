/** The machine word, `Palabra`: eight decimal digits held as an unsigned
    32-bit number. A leading digit 0 marks a non-negative value, 1 a
    negative one (sign and magnitude). On disk a word is its eight digits
    followed by the tag byte 'F'. */
module Architecture {
  import opened Numerics

  datatype Palabra = Palabra(palabra: U32)

  const WordDigits: nat := 8
  const SignUnit: nat := 10_000_000

  /** `Palabra::new`: a word from exactly eight characters of decimal text. */
  function New(num: string): (r: Option<Palabra>)
    ensures |num| != 8 ==> r == None
    ensures |num| == 8 ==> (r.Some? <==> AllDigits(num))
    ensures r.Some? ==> r.value.palabra == ParseDigits(num) < Pow10(8)
  {
    if |num| != WordDigits then None
    else match ParseU32(num)
      case Some(n) => Some(Palabra(n))
      case None => None
  }

  /** The zero word every register and memory cell starts with, built as
      the source builds it: `Palabra::new("00000000").unwrap()`. */
  function Zero(): (z: Palabra)
    ensures z.palabra == 0
  {
    assert AllDigits("00000000");
    assert ParseDigits("00000000") == 0 by {
      assert Fixed(0, 8) == "00000000";
      ParseFixed(0, 8);
    }
    New("00000000").value
  }

  /** `Palabra::convert`: the signed value. Leading digit 0 gives the word
      itself, 1 gives minus the other seven digits, and any larger leading
      digit gives the constant 1. */
  function Convert(p: Palabra): (v: int)
    ensures p.palabra < SignUnit ==> v == p.palabra && 0 <= v <= 9_999_999
    ensures SignUnit <= p.palabra < 2 * SignUnit ==> v == SignUnit - p.palabra && -9_999_999 <= v <= 0
    ensures 2 * SignUnit <= p.palabra ==> v == 1
  {
    var sig := p.palabra / SignUnit;
    if sig == 0 then p.palabra
    else if sig == 1 then -1 * (p.palabra - SignUnit)
    else 1
  }

  /** `convert_to_string_disk`: the eight zero-padded digits, then 'F'. */
  function ConvertToStringDisk(p: Palabra): (s: string)
    ensures p.palabra < Pow10(8) ==> |s| == 9 && AllDigits(s[..8]) && s[8] == 'F'
  {
    FormatWidth(p.palabra, 8);
    Format(p.palabra, 8) + "F"
  }

  /** `convert_to_disk_palabra`: nine characters whose first eight are
      decimal digits; the ninth is not looked at. */
  function ConvertToDiskPalabra(s: string): (r: Option<Palabra>)
    ensures |s| != 9 ==> r == None
    ensures |s| == 9 ==> (r.Some? <==> AllDigits(s[..8]))
    ensures r.Some? ==> r.value.palabra == ParseDigits(s[..8])
  {
    if |s| != 9 then None
    else match ParseU32(s[..8])
      case Some(n) => Some(Palabra(n))
      case None => None
  }

  /** Reading a word's eight disk digits back with `Palabra::new` gives the
      word again. */
  lemma DiskDigitsParse(p: Palabra)
    requires p.palabra < Pow10(8)
    ensures New(ConvertToStringDisk(p)[..8]) == Some(p)
  {
    FormatWidth(p.palabra, 8);
    FormatParses(p.palabra, 8);
    assert ConvertToStringDisk(p)[..8] == Format(p.palabra, 8);
  }

  /** The disk form round-trips for every eight-digit word. */
  lemma DiskRoundTrip(p: Palabra)
    requires p.palabra < Pow10(8)
    ensures ConvertToDiskPalabra(ConvertToStringDisk(p)) == Some(p)
  {
    DiskDigitsParse(p);
  }

  /** The tag byte is ignored: any ninth character decodes the same. */
  lemma DiskTagIgnored(s: string, c: char)
    requires |s| == 9
    ensures ConvertToDiskPalabra(s[8 := c]) == ConvertToDiskPalabra(s)
  {
    assert s[8 := c][..8] == s[..8];
  }
}
