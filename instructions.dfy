/** The instruction format: a word read as two opcode digits, one
    addressing-mode digit and five operand digits. */
module Instructions {
  import opened Numerics
  import opened Architecture

  datatype Instruction = Instruction(opcode: U8, dir: U8, value: U32)

  /** The field widths that make an instruction render as one word. */
  predicate Encodable(i: Instruction) {
    i.opcode <= 99 && i.dir <= 9 && i.value <= 99_999
  }

  /** `Instruction::new`: slices a word into its fields. The opcode is
      narrowed to `u8`, which only matters for words above 255,999,999. */
  function Decode(pal: Palabra): (i: Instruction)
    ensures pal.palabra < Pow10(8) ==> Encodable(i)
    ensures pal.palabra < Pow10(8) ==>
      i.opcode * 1_000_000 + i.dir * 100_000 + i.value == pal.palabra
  {
    Instruction((pal.palabra / 1_000_000) % 256, (pal.palabra / 100_000) % 10, pal.palabra % 100_000)
  }

  /** The text `conver_to_palabra` formats: "{:02}{:01}{:05}". */
  function Text(i: Instruction): string {
    Format(i.opcode, 2) + Format(i.dir, 1) + Format(i.value, 5)
  }

  /** The text is one word long exactly when every field fits its width,
      which is why `conver_to_palabra` may only be given such instructions:
      on any other its `unwrap` fails. */
  lemma TextIsWordLong(i: Instruction)
    ensures |Text(i)| == 8 <==> Encodable(i)
  {
    FormatWidth(i.opcode, 2);
    FormatWidth(i.dir, 1);
    FormatWidth(i.value, 5);
  }

  /** `conver_to_palabra`: packs the fields back into a word. */
  function Encode(i: Instruction): (pal: Palabra)
    requires Encodable(i)
    ensures pal.palabra == i.opcode * 1_000_000 + i.dir * 100_000 + i.value
  {
    TextValue(i);
    New(Text(i)).value
  }

  lemma TextValue(i: Instruction)
    requires Encodable(i)
    ensures |Text(i)| == 8 && AllDigits(Text(i))
    ensures ParseDigits(Text(i)) == i.opcode * 1_000_000 + i.dir * 100_000 + i.value
  {
    TextIsWordLong(i);
    var ab, c := Format(i.opcode, 2) + Format(i.dir, 1), Format(i.value, 5);
    assert Pow10(5) == 100_000;
    FormatWidth(i.value, 5);
    assert |c| == 5;
    HeadValue(i);
    FormatParses(i.value, 5);
    ParseAppend(ab, c);
    var h := i.opcode * 10 + i.dir;
    assert ParseDigits(ab + c) == h * 100_000 + i.value;
  }

  /** The opcode and mode digits read together as one number. */
  lemma HeadValue(i: Instruction)
    requires Encodable(i)
    ensures AllDigits(Format(i.opcode, 2) + Format(i.dir, 1))
    ensures ParseDigits(Format(i.opcode, 2) + Format(i.dir, 1)) == i.opcode * 10 + i.dir
  {
    FormatWidth(i.dir, 1);
    FormatParses(i.opcode, 2);
    FormatParses(i.dir, 1);
    ParseAppend(Format(i.opcode, 2), Format(i.dir, 1));
  }

  /** Decoding an encoded instruction gives back the instruction. */
  lemma DecodeEncode(i: Instruction)
    requires Encodable(i)
    ensures Decode(Encode(i)) == i
  {
    var p := Encode(i).palabra;
    DivModUnique(p, 100_000, i.opcode * 10 + i.dir, i.value);
    DivModUnique(p, 1_000_000, i.opcode, i.dir * 100_000 + i.value);
    DivModUnique(i.opcode * 10 + i.dir, 10, i.opcode, i.dir);
  }

  /** Encoding a decoded eight-digit word gives back the word. */
  lemma EncodeDecode(pal: Palabra)
    requires pal.palabra < Pow10(8)
    ensures Encodable(Decode(pal)) && Encode(Decode(pal)) == pal
  {
  }
}
