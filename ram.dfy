/** Main memory: a fixed array of 2000 words. Both accessors reject a
    position outside [0, 2000] with an invalid-address error, so position
    2000 passes the check although the array has no cell 2000; there the
    source indexes past the end and panics. The model makes that position
    a precondition of the accessors rather than inventing a cell for it. */
module Ram {
  import opened Numerics
  import opened Outcomes
  import opened Architecture

  /** Number of cells. */
  const Size: nat := 2000

  /** The position the guard admits although no cell backs it. */
  const Unbacked: int := 2000

  const InvalidMessage: string := "Dirección a leer invalida"

  /** The guard both accessors apply: `pos > 2000 || pos < 0` is rejected. */
  predicate GuardAdmits(pos: int) {
    !(pos > 2000 || pos < 0)
  }

  /** The guard lets through exactly one position the array does not have. */
  lemma GuardAdmitsUnbackedCell(pos: int)
    ensures (GuardAdmits(pos) && !(pos < Size)) <==> pos == Unbacked
  {
  }

  /** What an access at `pos` yields before touching a cell. */
  function Access(pos: int): (r: ResultOp)
    ensures r.Ok? <==> 0 <= pos <= 2000
    ensures r.Err? ==> r.error == Errors(InvalidMessage, DirInv)
  {
    if pos > 2000 || pos < 0 then Err(Errors(InvalidMessage, DirInv)) else Ok(())
  }

  class Ram {
    const ram: array<Palabra>

    ghost predicate Valid()
      reads this
    {
      ram.Length == Size
    }

    /** `Ram::new`: every cell holds the zero word. */
    constructor ()
      ensures Valid() && fresh(ram)
      ensures forall i :: 0 <= i < Size ==> ram[i] == Zero()
    {
      ram := new Palabra[Size](_ => Zero());
    }

    /** `readMemory`: the word at `pos`, or an invalid-address error. */
    function ReadMemory(pos: I32): (r: Result<Palabra, Errors>)
      reads this, ram
      requires Valid()
      requires pos != Unbacked
      ensures r.Err? <==> Access(pos).Err?
      ensures r.Err? ==> r.error == Errors(InvalidMessage, DirInv)
      ensures r.Ok? ==> 0 <= pos < Size && r.value == ram[pos]
    {
      if pos > 2000 || pos < 0 then Err(Errors(InvalidMessage, DirInv)) else Ok(ram[pos])
    }

    /** `writeMemory`: stores `pal` at `pos`, or reports an invalid address
        and changes nothing. */
    method WriteMemory(pos: I32, pal: Palabra) returns (r: ResultOp)
      requires Valid()
      requires pos != Unbacked
      modifies ram
      ensures Valid()
      ensures r == Access(pos)
      ensures ram[..] == if r.Ok? then old(ram[..])[pos := pal] else old(ram[..])
      ensures r.Ok? ==> ReadMemory(pos) == Ok(pal)
    {
      if pos > 2000 || pos < 0 {
        return Err(Errors(InvalidMessage, DirInv));
      }
      ram[pos] := pal;
      return Ok(());
    }
  }
}
