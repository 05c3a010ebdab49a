/** The interrupt handlers and their dispatch. A handler says whether the
    running program may continue; the overflow handlers set the condition
    code, and the I/O and clock handlers raise their flag. */
module Interrupts {
  import opened Outcomes
  import opened Architecture
  import opened Cpu
  import Ram

  /** The verdict `handle_interrupt` gives for a cause: the program goes on
      after I/O completion, the clock and a system call, and stops after
      any other cause. */
  function Disposition(cod: Interrups): (r: ContinueOrBreak)
    ensures r == Continue <==> 2 <= cod.Code() <= 4
  {
    match cod
    case EndIO => Continue
    case Clock => Continue
    case CallSys => Continue
    case _ => Break
  }

  /** `overflow`: condition code 3 (the setter always accepts it). */
  method OverflowHandler(regs: Registros) returns (r: ContinueOrBreak)
    modifies regs.psw
    ensures regs.psw.View() == old(regs.psw.View()).(cod_codicion := 3)
    ensures r == Break
  {
    var unwrapped := regs.psw.SetCodition(3);
    assert unwrapped.Ok?;
    return Break;
  }

  /** `underflow`: condition code 3, like `overflow`. */
  method UnderflowHandler(regs: Registros) returns (r: ContinueOrBreak)
    modifies regs.psw
    ensures regs.psw.View() == old(regs.psw.View()).(cod_codicion := 3)
    ensures r == Break
  {
    var unwrapped := regs.psw.SetCodition(3);
    assert unwrapped.Ok?;
    return Break;
  }

  /** `dir_inv`: stops the program; no state changes. */
  function DirInvHandler(): (r: ContinueOrBreak)
    ensures r == Break
  {
    Break
  }

  /** `inst_inv`: stops the program; no state changes. */
  function InstInvHandler(): (r: ContinueOrBreak)
    ensures r == Break
  {
    Break
  }

  /** `end_io`: raises the I/O flag and lets the program continue. */
  method EndIOHandler(externalInterrup: ExternalInterrup) returns (r: ContinueOrBreak)
    modifies externalInterrup
    ensures externalInterrup.int_io && externalInterrup.int_reloj == old(externalInterrup.int_reloj)
    ensures r == Continue
  {
    externalInterrup.int_io := true;
    return Continue;
  }

  /** `clock`: raises the clock flag and lets the program continue. */
  method ClockHandler(externalInterrup: ExternalInterrup) returns (r: ContinueOrBreak)
    modifies externalInterrup
    ensures externalInterrup.int_reloj && externalInterrup.int_io == old(externalInterrup.int_io)
    ensures r == Continue
  {
    externalInterrup.int_reloj := true;
    return Continue;
  }

  /** `call_sys`: reads the system-call code from AC and its parameter from
      memory at SP, and lets the program continue. The read is unwrapped,
      so SP must decode to a position that holds a cell. */
  method CallSysHandler(regs: Registros, ram: Ram.Ram) returns (r: ContinueOrBreak)
    requires ram.Valid()
    requires 0 <= Convert(regs.sp) < Ram.Size
    ensures r == Continue
  {
    var codCall := Convert(regs.ac);
    var parametro := ram.ReadMemory(Convert(regs.sp));
    assert parametro.Ok?;
    return Continue;
  }

  /** `cod_int_inv`: stops the program; no state changes. */
  function CodIntInvHandler(): (r: ContinueOrBreak)
    ensures r == Break
  {
    Break
  }

  /** `cod_call_sys_inv`: stops the program; no state changes. */
  function CodCallSysInvHandler(): (r: ContinueOrBreak)
    ensures r == Break
  {
    Break
  }

  /** `handle_interrupt`: runs the handler of `codInt`. Only the overflow
      causes touch the PSW, only I/O completion and the clock touch the
      flags, and no handler changes a register or memory. */
  method HandleInterrupt(regs: Registros, codInt: Interrups, ram: Ram.Ram, externalInt: ExternalInterrup)
    returns (r: ContinueOrBreak)
    requires ram.Valid()
    requires codInt == CallSys ==> 0 <= Convert(regs.sp) < Ram.Size
    modifies regs.psw, externalInt
    ensures r == Disposition(codInt)
    ensures regs.psw.View() ==
      if codInt == Overflow || codInt == Underflow then old(regs.psw.View()).(cod_codicion := 3)
      else old(regs.psw.View())
    ensures externalInt.int_io == (old(externalInt.int_io) || codInt == EndIO)
    ensures externalInt.int_reloj == (old(externalInt.int_reloj) || codInt == Clock)
  {
    match codInt
    case Overflow => r := OverflowHandler(regs);
    case Underflow => r := UnderflowHandler(regs);
    case DirInv => r := DirInvHandler();
    case InstInv => r := InstInvHandler();
    case EndIO => r := EndIOHandler(externalInt);
    case Clock => r := ClockHandler(externalInt);
    case CallSys => r := CallSysHandler(regs, ram);
    case CodIntInv => r := CodIntInvHandler();
    case CodCallSysInv => r := CodCallSysInvHandler();
  }
}
