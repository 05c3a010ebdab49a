/** The CPU-visible state: the external interrupt flags, the program
    status word (PSW) and the register file. Every setter that can fail
    checks its argument first and leaves the state untouched on failure. */
module Cpu {
  import opened Numerics
  import opened Outcomes
  import opened Architecture

  /** Highest memory address a base, limit, stack or address register may hold. */
  const MaxAddress: int := 2000

  /** The flags raised by I/O completion and by the clock. */
  class ExternalInterrup {
    var int_io: bool
    var int_reloj: bool

    constructor ()
      ensures !int_io && !int_reloj
    {
      int_io := false;
      int_reloj := false;
    }
  }

  /** A snapshot of the PSW fields, to state what a setter leaves alone. */
  datatype PwsView = PwsView(cod_codicion: I8, modo_op: I8, inte: I8, pc: I32)

  /** The range check shared by the PSW setters: `val` must lie in
      `[lo, hi]`, otherwise an invalid-instruction error with `msg`. */
  function CheckRange(val: int, lo: int, hi: int, msg: string): (r: ResultOp)
    ensures r.Ok? <==> lo <= val <= hi
    ensures r.Err? ==> r.error == Errors(msg, InstInv)
  {
    if val > hi || val < lo then Err(Errors(msg, InstInv)) else Ok(())
  }

  /** Program status word: condition code, operating mode, interrupt
      enable and program counter. */
  class Pws {
    var cod_codicion: I8
    var modo_op: I8
    var inte: I8
    var pc: I32

    function View(): PwsView
      reads this
    {
      PwsView(cod_codicion, modo_op, inte, pc)
    }

    /** Every field within the range its setter admits. */
    predicate InRange()
      reads this
    {
      0 <= cod_codicion <= 3 && 0 <= modo_op <= 1 && 0 <= inte <= 1 && 0 <= pc <= 99_999
    }

    /** `Pws::new`: condition 0, user mode, interrupts enabled, pc 0. */
    constructor ()
      ensures View() == PwsView(0, 0, 1, 0)
      ensures InRange()
    {
      cod_codicion := 0;
      modo_op := 0;
      inte := 1;
      pc := 0;
    }

    /** `set_codition`: accepts 0..3. */
    method SetCodition(val: I8) returns (r: ResultOp)
      modifies this
      ensures r == CheckRange(val, 0, 3, "cod condicion invalido")
      ensures View() == if r.Ok? then old(View()).(cod_codicion := val) else old(View())
      ensures old(InRange()) ==> InRange()
    {
      if val > 3 || val < 0 {
        return Err(Errors("cod condicion invalido", InstInv));
      }
      cod_codicion := val;
      return Ok(());
    }

    /** `set_mode`: accepts 0 (user) or 1 (kernel). */
    method SetMode(val: I8) returns (r: ResultOp)
      modifies this
      ensures r == CheckRange(val, 0, 1, "cod modo invalido")
      ensures View() == if r.Ok? then old(View()).(modo_op := val) else old(View())
      ensures old(InRange()) ==> InRange()
    {
      if val > 1 || val < 0 {
        return Err(Errors("cod modo invalido", InstInv));
      }
      modo_op := val;
      return Ok(());
    }

    /** `set_inte`: accepts 0 or 1. */
    method SetInte(val: I8) returns (r: ResultOp)
      modifies this
      ensures r == CheckRange(val, 0, 1, "allow inte invalido")
      ensures View() == if r.Ok? then old(View()).(inte := val) else old(View())
      ensures old(InRange()) ==> InRange()
    {
      if val > 1 || val < 0 {
        return Err(Errors("allow inte invalido", InstInv));
      }
      inte := val;
      return Ok(());
    }

    /** `set_pc`: accepts 0..99999. */
    method SetPc(val: I32) returns (r: ResultOp)
      modifies this
      ensures r == CheckRange(val, 0, 99_999, "Dir Pc invalido")
      ensures View() == if r.Ok? then old(View()).(pc := val) else old(View())
      ensures old(InRange()) ==> InRange()
    {
      if val > 99_999 || val < 0 {
        return Err(Errors("Dir Pc invalido", InstInv));
      }
      pc := val;
      return Ok(());
    }

    /** `convert_to_palabra`: the three one-digit fields, then the program
        counter padded to five digits. */
    function ConvertToPalabra(): (s: string)
      reads this
      ensures InRange() ==> |s| == 8 && AllDigits(s)
      ensures InRange() ==> s[0] == DigitChar(cod_codicion) && s[1] == DigitChar(modo_op)
                            && s[2] == DigitChar(inte) && s[3..] == Format(pc, 5)
    {
      assert InRange() ==> |Format(pc, 5)| == 5 by {
        if InRange() { FormatWidth(pc, 5); }
      }
      FormatSigned(cod_codicion, 0) + FormatSigned(modo_op, 0) + FormatSigned(inte, 0) + FormatSigned(pc, 5)
    }
  }

  /** When its fields are in range, the PSW text is a word whose value packs
      the fields as decimal digits. */
  lemma PswWordValue(psw: Pws)
    requires psw.InRange()
    ensures New(psw.ConvertToPalabra()).Some?
    ensures New(psw.ConvertToPalabra()).value.palabra ==
      psw.cod_codicion * 10_000_000 + psw.modo_op * 1_000_000 + psw.inte * 100_000 + psw.pc
  {
    var s := psw.ConvertToPalabra();
    var head := s[..3];
    assert s == head + s[3..];
    var c: int, m: int, e: int := psw.cod_codicion, psw.modo_op, psw.inte;
    assert head == [DigitChar(c), DigitChar(m), DigitChar(e)];
    ThreeDigitsValue(c, m, e);
    FormatParses(psw.pc, 5);
    ParseAppend(head, s[3..]);
    assert Pow10(5) == 100_000;
  }

  /** Three digit characters read together as one three-digit number. */
  lemma ThreeDigitsValue(c: nat, m: nat, e: nat)
    requires c < 10 && m < 10 && e < 10
    ensures AllDigits([DigitChar(c), DigitChar(m), DigitChar(e)])
    ensures ParseDigits([DigitChar(c), DigitChar(m), DigitChar(e)]) == c * 100 + m * 10 + e
  {
    var head := [DigitChar(c), DigitChar(m), DigitChar(e)];
    assert head[..2][..1] == [DigitChar(c)] && [DigitChar(c)][..0] == [];
    assert head[..2] == [DigitChar(c), DigitChar(m)];
    assert ParseDigits([DigitChar(c)]) == c;
    assert ParseDigits(head[..2]) == c * 10 + m;
  }

  /** A snapshot of the register file, to state what a setter leaves alone. */
  datatype RegView = RegView(mar: Palabra, mdr: Palabra, ir: Palabra, rb: Palabra,
                             rl: Palabra, rx: Palabra, sp: Palabra, ac: Palabra)

  /** The address check shared by `set_mar`, `set_rb`, `set_rl`, `set_rx`
      and `set_sp`: the word's signed value must lie in [0, 2000]. */
  function AddressCheck(pal: Palabra): (r: ResultOp)
    ensures r.Ok? <==> 0 <= Convert(pal) <= MaxAddress
    ensures Convert(pal) > MaxAddress ==> r == Err(Errors("Dirección de memoria invalida", Overflow))
    ensures Convert(pal) < 0 ==> r == Err(Errors(" Dirección de memoria invalida", Underflow))
  {
    if Convert(pal) > MaxAddress then Err(Errors("Dirección de memoria invalida", Overflow))
    else if Convert(pal) < 0 then Err(Errors(" Dirección de memoria invalida", Underflow))
    else Ok(())
  }

  /** Because `Convert` yields 1 for any leading digit from 2 up, every such
      word, however large, passes the address check. */
  lemma LeadingDigitFallbackPasses(pal: Palabra)
    requires pal.palabra >= 2 * SignUnit
    ensures AddressCheck(pal).Ok?
  {
  }

  /** The register file. The PSW is a separate object the file owns. */
  class Registros {
    var mar: Palabra
    var mdr: Palabra
    var ir: Palabra
    var rb: Palabra
    var rl: Palabra
    var rx: Palabra
    var sp: Palabra
    var ac: Palabra
    const psw: Pws

    function View(): RegView
      reads this
    {
      RegView(mar, mdr, ir, rb, rl, rx, sp, ac)
    }

    /** `Registros::new`: every register holds the zero word; the PSW is new. */
    constructor ()
      ensures View() == RegView(Zero(), Zero(), Zero(), Zero(), Zero(), Zero(), Zero(), Zero())
      ensures fresh(psw) && psw.View() == PwsView(0, 0, 1, 0)
    {
      mar, mdr, ir, rb := Zero(), Zero(), Zero(), Zero();
      rl, rx, sp, ac := Zero(), Zero(), Zero(), Zero();
      psw := new Pws();
    }

    method SetMar(pal: Palabra) returns (r: ResultOp)
      modifies this
      ensures r == AddressCheck(pal)
      ensures View() == if r.Ok? then old(View()).(mar := pal) else old(View())
    {
      if Convert(pal) > MaxAddress {
        return Err(Errors("Dirección de memoria invalida", Overflow));
      }
      if Convert(pal) < 0 {
        return Err(Errors(" Dirección de memoria invalida", Underflow));
      }
      mar := pal;
      return Ok(());
    }

    /** `set_mdr`: unconditional. */
    method SetMdr(pal: Palabra)
      modifies this
      ensures View() == old(View()).(mdr := pal)
    {
      mdr := pal;
    }

    /** `set_ir`: unconditional. */
    method SetIr(pal: Palabra)
      modifies this
      ensures View() == old(View()).(ir := pal)
    {
      ir := pal;
    }

    method SetRb(pal: Palabra) returns (r: ResultOp)
      modifies this
      ensures r == AddressCheck(pal)
      ensures View() == if r.Ok? then old(View()).(rb := pal) else old(View())
    {
      if Convert(pal) > MaxAddress {
        return Err(Errors("Dirección de memoria invalida", Overflow));
      }
      if Convert(pal) < 0 {
        return Err(Errors(" Dirección de memoria invalida", Underflow));
      }
      rb := pal;
      return Ok(());
    }

    method SetRl(pal: Palabra) returns (r: ResultOp)
      modifies this
      ensures r == AddressCheck(pal)
      ensures View() == if r.Ok? then old(View()).(rl := pal) else old(View())
    {
      if Convert(pal) > MaxAddress {
        return Err(Errors("Dirección de memoria invalida", Overflow));
      }
      if Convert(pal) < 0 {
        return Err(Errors(" Dirección de memoria invalida", Underflow));
      }
      rl := pal;
      return Ok(());
    }

    method SetRx(pal: Palabra) returns (r: ResultOp)
      modifies this
      ensures r == AddressCheck(pal)
      ensures View() == if r.Ok? then old(View()).(rx := pal) else old(View())
    {
      if Convert(pal) > MaxAddress {
        return Err(Errors("Dirección de memoria invalida", Overflow));
      }
      if Convert(pal) < 0 {
        return Err(Errors(" Dirección de memoria invalida", Underflow));
      }
      rx := pal;
      return Ok(());
    }

    method SetSp(pal: Palabra) returns (r: ResultOp)
      modifies this
      ensures r == AddressCheck(pal)
      ensures View() == if r.Ok? then old(View()).(sp := pal) else old(View())
    {
      if Convert(pal) > MaxAddress {
        return Err(Errors("Dirección de memoria invalida", Overflow));
      }
      if Convert(pal) < 0 {
        return Err(Errors(" Dirección de memoria invalida", Underflow));
      }
      sp := pal;
      return Ok(());
    }
  }
}
