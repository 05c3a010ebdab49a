/** The disk: 11 cylinders by 11 tracks by 101 sectors, each sector nine
    bytes. Bytes are modelled as the ASCII characters they encode. */
module Disk {
  import opened Numerics
  import opened Outcomes

  const Cylinders: nat := 11
  const Tracks: nat := 11
  const Sectors: nat := 101
  const SectorSize: nat := 9

  /** A fresh sector: nine ASCII '0' bytes (byte value 48). */
  const BlankSector: string := "000000000"

  /** The geometry check of `read` and `write`. */
  predicate InGeometry(cil: int, pista: int, sec: int) {
    !((cil > 10 || cil < 0) || (pista > 10 || pista < 0) || (sec > 100 || sec < 0))
  }

  /** What `write` yields before it touches the disk: the geometry must be
      valid and the data exactly one sector long. */
  function WriteOutcome(data: string, cil: int, pista: int, sec: int): (r: ResultOp)
    ensures r.Ok? <==> 0 <= cil < Cylinders && 0 <= pista < Tracks && 0 <= sec < Sectors && |data| == SectorSize
    ensures r.Err? ==> r.error == Errors("Error al escribir del disco", EndIO)
  {
    if !InGeometry(cil, pista, sec) then Err(Errors("Error al escribir del disco", EndIO))
    else if |data| != 9 then Err(Errors("Error al escribir del disco", EndIO))
    else Ok(())
  }

  class Disk {
    const disk: array3<string>

    ghost predicate Valid()
      reads this, disk
    {
      disk.Length0 == Cylinders && disk.Length1 == Tracks && disk.Length2 == Sectors
      && forall c, p, s :: 0 <= c < Cylinders && 0 <= p < Tracks && 0 <= s < Sectors ==>
           |disk[c, p, s]| == SectorSize
    }

    /** `Disk::new`: every sector is blank, so every read yields "00000000". */
    constructor ()
      ensures Valid() && fresh(disk)
      ensures forall c, p, s :: 0 <= c < Cylinders && 0 <= p < Tracks && 0 <= s < Sectors ==>
                disk[c, p, s] == BlankSector && Read(c, p, s) == Ok("00000000")
    {
      disk := new string[Cylinders, Tracks, Sectors]((c, p, s) => BlankSector);
      assert BlankSector[..8] == "00000000";
    }

    /** `read`: the first eight bytes of the addressed sector, or an
        end-of-I/O error for an address outside the geometry. */
    function Read(cil: I8, pista: I8, sec: I8): (r: Result<string, Errors>)
      reads this, disk
      requires Valid()
      ensures r.Ok? <==> 0 <= cil < Cylinders && 0 <= pista < Tracks && 0 <= sec < Sectors
      ensures r.Err? ==> r.error == Errors("Error al leer del disco", EndIO)
      ensures r.Ok? ==> |r.value| == 8 && r.value == disk[cil, pista, sec][..8]
    {
      if !InGeometry(cil, pista, sec) then Err(Errors("Error al leer del disco", EndIO))
      else Ok(disk[cil, pista, sec][0..8])
    }

    /** `write`: copies the nine bytes of `data` into a block and stores the
        block in the addressed sector. On a bad address or a length other
        than nine nothing changes. */
    method Write(data: string, cil: I8, pista: I8, sec: I8) returns (r: ResultOp)
      requires Valid()
      modifies disk
      ensures Valid()
      ensures r == WriteOutcome(data, cil, pista, sec)
      ensures r.Ok? ==> disk[cil, pista, sec] == data && Read(cil, pista, sec) == Ok(data[..8])
      ensures forall c, p, s :: 0 <= c < Cylinders && 0 <= p < Tracks && 0 <= s < Sectors ==>
                (r.Ok? && c == cil && p == pista && s == sec) || disk[c, p, s] == old(disk[c, p, s])
    {
      if !InGeometry(cil, pista, sec) {
        return Err(Errors("Error al escribir del disco", EndIO));
      }
      if |data| != 9 {
        return Err(Errors("Error al escribir del disco", EndIO));
      }
      var bloque := new char[SectorSize](_ => '0');
      for i := 0 to |data|
        modifies bloque
        invariant bloque[..i] == data[..i]
      {
        bloque[i] := data[i];
      }
      assert bloque[..] == data;
      disk[cil, pista, sec] := bloque[..];
      return Ok(());
    }
  }
}
