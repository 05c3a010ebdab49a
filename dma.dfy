/** The DMA controller: one transfer of one word between a disk sector and
    a memory cell, followed by raising the I/O flag. Any failing stage sets
    the controller's state to `Error` and raises nothing. Memory and the
    flags are shared with the CPU behind locks in the source; here they are
    plain objects handed to each transfer, and the simulated latency is
    left out. */
module Dma {
  import opened Numerics
  import opened Outcomes
  import opened Architecture
  import opened Utils
  import opened Cpu
  import Ram
  import Disk

  datatype StateDma = Succes | Error | Off

  /** A transfer request as the CPU queues it. */
  datatype DmaConfig = DmaConfig(pista_acceder: I8, sector_acceder: I8, cil_acceder: I8,
                                 pos_men: I32, state: StateDma, modo: I8)

  /** `Dma_Config::new`: sector (0, 0, 0), position 0, read mode, state `Succes`. */
  function NewConfig(): (c: DmaConfig)
    ensures c.modo == 0 && c.pos_men == 0 && c.state == Succes
    ensures c.cil_acceder == 0 && c.pista_acceder == 0 && c.sector_acceder == 0
  {
    DmaConfig(0, 0, 0, 0, Succes, 0)
  }

  const ParseMessage: string := "Error al transformar la palabra del disco"

  /** The read path, as a function of what the disk read gave and of the
      target position: the word to store, or the error to report. */
  function ReadTransfer(sector: Result<string, Errors>, pos: int): (t: Result<Palabra, Errors>)
    ensures t.Ok? <==> sector.Ok? && New(sector.value).Some? && 0 <= pos <= 2000
    ensures t.Ok? ==> t.value == New(sector.value).value
    ensures sector.Err? ==> t == Err(sector.error)
    ensures sector.Ok? && New(sector.value).None? ==> t == Err(Errors(ParseMessage, InstInv))
    ensures sector.Ok? && New(sector.value).Some? && !(0 <= pos <= 2000) ==>
              t == Err(Errors(Ram.InvalidMessage, DirInv))
  {
    match sector
    case Err(err) => Err(err)
    case Ok(text) =>
      match ConvertOptionResult(New(text), ParseMessage, InstInv)
      case Err(err) => Err(err)
      case Ok(pal) =>
        match Ram.Access(pos)
        case Err(err) => Err(err)
        case Ok(_) => Ok(pal)
  }

  /** The write path, as a function of what the memory read gave and of the
      target sector: the nine bytes to store, or the error to report. */
  function WriteTransfer(cell: Result<Palabra, Errors>, cil: int, pista: int, sec: int): (t: Result<string, Errors>)
    ensures t.Ok? <==> cell.Ok? && cell.value.palabra < Pow10(8) && Disk.InGeometry(cil, pista, sec)
    ensures t.Ok? ==> t.value == ConvertToStringDisk(cell.value) && |t.value| == 9
    ensures cell.Err? ==> t == Err(cell.error)
    ensures cell.Ok? && t.Err? ==> t.error == Errors("Error al escribir del disco", EndIO)
  {
    match cell
    case Err(err) => Err(err)
    case Ok(pal) =>
      var palDisk := ConvertToStringDisk(pal);
      FormatWidth(pal.palabra, 8);
      match Disk.WriteOutcome(palDisk, cil, pista, sec)
      case Err(err) => Err(err)
      case Ok(_) => Ok(palDisk)
  }

  /** A word written to a sector and read back into any valid cell arrives
      unchanged. */
  lemma TransferRoundTrip(pal: Palabra, cil: int, pista: int, sec: int, pos: int)
    requires pal.palabra < Pow10(8) && Disk.InGeometry(cil, pista, sec) && 0 <= pos <= 2000
    ensures WriteTransfer(Ok(pal), cil, pista, sec).Ok?
    ensures ReadTransfer(Ok(WriteTransfer(Ok(pal), cil, pista, sec).value[..8]), pos) == Ok(pal)
  {
    DiskDigitsParse(pal);
  }

  class Dma {
    var pista_acceder: I8
    var sector_acceder: I8
    var cil_acceder: I8
    var pos_men: I32
    var estado: StateDma
    var modo: I8

    /** `Dma::new`: sector (0, 0, 0), position 0, read mode, state `Succes`. */
    constructor ()
      ensures cil_acceder == 0 && pista_acceder == 0 && sector_acceder == 0
      ensures pos_men == 0 && modo == 0 && estado == Succes
    {
      pista_acceder, sector_acceder, cil_acceder := 0, 0, 0;
      pos_men, estado, modo := 0, Succes, 0;
    }

    /** What the read path will do with the disk as it is now. */
    function ReadPlan(disk: Disk.Disk): Result<Palabra, Errors>
      reads this, disk, disk.disk
      requires disk.Valid()
    {
      ReadTransfer(disk.Read(cil_acceder, pista_acceder, sector_acceder), pos_men)
    }

    /** What the write path will do with the memory as it is now. */
    function WritePlan(mem: Ram.Ram): Result<string, Errors>
      reads this, mem, mem.ram
      requires mem.Valid() && pos_men != Ram.Unbacked
    {
      WriteTransfer(mem.ReadMemory(pos_men), cil_acceder, pista_acceder, sector_acceder)
    }

    /** The effect of a finished read path that followed `plan`. */
    twostate predicate ReadDone(plan: Result<Palabra, Errors>, mem: Ram.Ram, ext: ExternalInterrup, new r: ResultOp)
      reads this, mem, mem.ram, ext
    {
      && r == (if plan.Ok? then Ok(()) else Err(plan.error))
      && mem.ram[..] == (if plan.Ok? && 0 <= pos_men < mem.ram.Length
                         then old(mem.ram[..])[pos_men := plan.value] else old(mem.ram[..]))
      && ext.int_io == (old(ext.int_io) || plan.Ok?)
      && estado == (if plan.Ok? then old(estado) else Error)
    }

    /** The effect of a finished write path that followed `plan`. */
    twostate predicate WriteDone(plan: Result<string, Errors>, disk: Disk.Disk, ext: ExternalInterrup, new r: ResultOp)
      reads this, disk, disk.disk, ext
    {
      && r == (if plan.Ok? then Ok(()) else Err(plan.error))
      && disk.Valid()
      && (plan.Ok? ==> Disk.InGeometry(cil_acceder, pista_acceder, sector_acceder)
                       && disk.disk[cil_acceder, pista_acceder, sector_acceder] == plan.value)
      && (forall c, p, s :: 0 <= c < Disk.Cylinders && 0 <= p < Disk.Tracks && 0 <= s < Disk.Sectors ==>
            (plan.Ok? && c == cil_acceder && p == pista_acceder && s == sector_acceder)
            || disk.disk[c, p, s] == old(disk.disk[c, p, s]))
      && ext.int_io == (old(ext.int_io) || plan.Ok?)
      && estado == (if plan.Ok? then old(estado) else Error)
    }

    /** `read_disk`: reads the sector, parses its eight digits as a word,
        stores the word at `pos_men` and raises the I/O flag. Storing at
        position 2000 would index past memory, so a transfer that gets that
        far must not target it. */
    method ReadDisk(disk: Disk.Disk, mem: Ram.Ram, externalInterrup: ExternalInterrup) returns (r: ResultOp)
      requires disk.Valid() && mem.Valid()
      requires ReadPlan(disk).Ok? ==> pos_men != Ram.Unbacked
      modifies this`estado, mem.ram, externalInterrup`int_io
      ensures mem.Valid()
      ensures ReadDone(old(ReadPlan(disk)), mem, externalInterrup, r)
    {
      var result := disk.Read(cil_acceder, pista_acceder, sector_acceder);
      if result.Err? {
        estado := Error;
        return Err(result.error);
      }
      var newPal := ConvertOptionResult(New(result.value), ParseMessage, InstInv);
      if newPal.Err? {
        estado := Error;
        return Err(newPal.error);
      }
      var resultWriteMem := mem.WriteMemory(pos_men, newPal.value);
      if resultWriteMem.Err? {
        estado := Error;
        return Err(resultWriteMem.error);
      }
      externalInterrup.int_io := true;
      return Ok(());
    }

    /** `write_disk`: reads the word at `pos_men`, renders it in disk form,
        writes it to the sector and raises the I/O flag. */
    method WriteDisk(disk: Disk.Disk, mem: Ram.Ram, externalInterrup: ExternalInterrup) returns (r: ResultOp)
      requires disk.Valid() && mem.Valid()
      requires pos_men != Ram.Unbacked
      modifies this`estado, disk.disk, externalInterrup`int_io
      ensures disk.Valid()
      ensures WriteDone(old(WritePlan(mem)), disk, externalInterrup, r)
    {
      var palReadMem := mem.ReadMemory(pos_men);
      if palReadMem.Err? {
        estado := Error;
        return Err(palReadMem.error);
      }
      var palDisk := ConvertToStringDisk(palReadMem.value);
      var resultWrite := disk.Write(palDisk, cil_acceder, pista_acceder, sector_acceder);
      if resultWrite.Err? {
        estado := Error;
        return Err(resultWrite.error);
      }
      externalInterrup.int_io := true;
      return Ok(());
    }

    /** `execute`: mode 0 reads from disk, mode 1 writes to disk, and any
        other mode does nothing and succeeds. */
    method Execute(disk: Disk.Disk, mem: Ram.Ram, externalInterrup: ExternalInterrup) returns (r: ResultOp)
      requires disk.Valid() && mem.Valid()
      requires modo == 0 ==> (ReadPlan(disk).Ok? ==> pos_men != Ram.Unbacked)
      requires modo == 1 ==> pos_men != Ram.Unbacked
      modifies this`estado, disk.disk, mem.ram, externalInterrup`int_io
      ensures disk.Valid() && mem.Valid()
      ensures modo == 0 ==> ReadDone(old(ReadPlan(disk)), mem, externalInterrup, r) && unchanged(disk.disk)
      ensures modo == 1 ==> WriteDone(old(WritePlan(mem)), disk, externalInterrup, r) && unchanged(mem.ram)
      ensures modo != 0 && modo != 1 ==>
                r == Ok(()) && unchanged(this, disk.disk, mem.ram, externalInterrup)
    {
      var modo := this.modo;
      if modo == 0 {
        r := ReadDisk(disk, mem, externalInterrup);
        if r.Err? { return r; }
      } else if modo == 1 {
        r := WriteDisk(disk, mem, externalInterrup);
        if r.Err? { return r; }
      }
      return Ok(());
    }
  }

  /** A write transfer from cell `a` followed by a read transfer of the same
      sector into cell `b` leaves in `b` the word that was in `a`. */
  method WriteThenRead(dma: Dma, disk: Disk.Disk, mem: Ram.Ram, externalInterrup: ExternalInterrup, a: I32, b: I32)
    returns (written: ResultOp, read: ResultOp)
    requires disk.Valid() && mem.Valid()
    requires 0 <= a < Ram.Size && 0 <= b < Ram.Size
    requires Disk.InGeometry(dma.cil_acceder, dma.pista_acceder, dma.sector_acceder)
    requires mem.ram[a].palabra < Pow10(8)
    modifies dma, disk.disk, mem.ram, externalInterrup
    ensures written == Ok(()) && read == Ok(())
    ensures mem.ram[b] == old(mem.ram[a])
    ensures externalInterrup.int_io && dma.estado == old(dma.estado)
  {
    var pal := mem.ram[a];
    dma.pos_men, dma.modo := a, 1;
    written := dma.Execute(disk, mem, externalInterrup);
    TransferRoundTrip(pal, dma.cil_acceder, dma.pista_acceder, dma.sector_acceder, b);
    dma.pos_men, dma.modo := b, 0;
    read := dma.Execute(disk, mem, externalInterrup);
  }
}
