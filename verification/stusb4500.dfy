/** The STUSB4500 driver: register framing over I2C and the sequences that read, erase and program
    the non-volatile memory. Every bus transaction can fail; the driver then stops where it is, so
    a failure stands for an interruption at any register access. Nothing else makes it fail. */
module Stusb4500 {
  import opened Bytes
  import opened Options
  import opened Results
  import opened NvmChip

  const MAX_TRANSACTION_SIZE: nat := 9

  /** The I2C bus with the chip on it. The transaction numbered `failsAt` and all later ones fail.
      `delays` and `wrecks` fix how long requests take and what aborted ones leave behind. */
  class Bus {
    var chip: Chip
    var accesses: nat
    var failsAt: nat
    const delays: nat -> nat
    const wrecks: nat -> Sectors

    constructor (chip: Chip, failsAt: nat, delays: nat -> nat, wrecks: nat -> Sectors)
      ensures this.chip == chip && this.failsAt == failsAt
    {
      this.chip, this.accesses, this.failsAt := chip, 0, failsAt;
      this.delays, this.wrecks := delays, wrecks;
    }

    method Write(frame: seq<Byte>) returns (r: Result<()>)
      requires |frame| >= 2
      modifies this`chip, this`accesses
      ensures r.Success? <==> old(accesses) < failsAt
      ensures accesses == old(accesses) + 1
      ensures chip == if r.Success? then AfterWrite(old(chip), frame, delays(old(accesses)), wrecks(old(accesses)))
                      else old(chip)
    {
      if accesses < failsAt {
        chip := AfterWrite(chip, frame, delays(accesses), wrecks(accesses));
        r := Success(());
      } else {
        r := Failure;
      }
      accesses := accesses + 1;
    }

    /** Only CTRL0, the buffer and the number of power data objects matter here; other registers read as
        zeros. */
    method WriteRead(address: Byte, n: nat) returns (r: Result<seq<Byte>>)
      modifies this`chip, this`accesses
      ensures r.Success? <==> old(accesses) < failsAt
      ensures accesses == old(accesses) + 1
      ensures chip == if r.Success? && address == NVM_CTRL_0 then AfterPoll(old(chip)) else old(chip)
      ensures r.Success? ==> |r.value| == n
      ensures r.Success? && n == 1 && address == NVM_CTRL_0 ==> r.value == [PolledCtrl0(old(chip))]
      ensures r.Success? && n == 8 && address == RW_BUFFER ==> r.value == chip.rw
      ensures r.Success? && n == 1 && address == DPM_PDO_NUMB ==> r.value == [chip.pd.pdoNumber]
    {
      if accesses < failsAt {
        if address == NVM_CTRL_0 {
          var value := PolledCtrl0(chip);
          r := Success(seq(n, _ => value));
          chip := AfterPoll(chip);
        } else if address == RW_BUFFER && n == 8 {
          r := Success(chip.rw);
        } else if address == DPM_PDO_NUMB {
          var value := chip.pd.pdoNumber;
          r := Success(seq(n, _ => value));
        } else {
          r := Success(seq(n, _ => 0));
        }
      } else {
        r := Failure;
      }
      accesses := accesses + 1;
    }
  }

  /** Unlocked and idle. */
  ghost predicate Ready(c: Chip) {
    c.password == UNLOCK && c.pending.None?
  }

  /** No request in progress will change the memory. */
  ghost predicate Harmless(c: Chip) {
    c.pending.Some? ==> !c.pending.value.Writes()
  }

  /** Memory and wear are as before, and stay so. */
  ghost predicate Quiet(c: Chip, c': Chip) {
    c'.flash == c.flash && c'.erases == c.erases && c'.programs == c.programs && Harmless(c')
  }

  /** The byte that requests an operation on a sector. */
  function RequestByte(sector: nat): Byte
    requires sector < NUM_SECTORS
  {
    Ctrl0(SectorCode(sector), true, true, true)
  }

  function Issued(c: Chip, sector: nat, op: Op): Chip
    requires sector < NUM_SECTORS
  {
    Requested(c.(ctrl0 := RequestByte(sector)), op, 0)
  }

  function Completed(c: Chip, sector: nat, op: Op): Chip
    requires sector < NUM_SECTORS
  {
    Apply(Issued(c, sector, op), op).(pending := None)
  }

  /** A ready chip accepts a request. */
  lemma RequestAccepted(c: Chip, sector: nat, op: Op, delay: nat, wreck: Sectors)
    requires sector < NUM_SECTORS && Ready(c) && Decode(RequestByte(sector), c.ctrl1) == Some(op)
    ensures AfterWrite(c, [NVM_CTRL_0] + [RequestByte(sector)], delay, wreck) == Issued(c, sector, op).(busy := delay)
  {
    ControlBytesDecode(sector, true, true, true, false);
  }

  /** The number of power data objects is the low three bits of its register. */
  function WithNumber(register: Byte, number: Byte): (r: Byte)
    requires number < 8
    ensures r & 0x07 == number && r & 0xF8 == register & 0xF8
  {
    (register & 0xF8) | number
  }

  class Driver {
    const bus: Bus

    constructor (bus: Bus)
      ensures this.bus == bus
    {
      this.bus := bus;
    }

    /** `write_register`: address and data in one frame, cut to size. */
    method WriteRegister(address: Byte, data: seq<Byte>) returns (r: Result<()>)
      requires 0 < |data| < MAX_TRANSACTION_SIZE
      modifies bus`chip, bus`accesses
      ensures r.Failure? ==> bus.failsAt < bus.accesses
      ensures bus.chip == if r.Success?
                          then AfterWrite(old(bus.chip), [address] + data,
                                          bus.delays(old(bus.accesses)), bus.wrecks(old(bus.accesses)))
                          else old(bus.chip)
    {
      var buf := new Byte[MAX_TRANSACTION_SIZE](_ => 0);
      buf[0] := address;
      forall k | 0 <= k < |data| {
        buf[k + 1] := data[k];
      }
      var frame := buf[..|data| + 1];
      assert frame == [address] + data;
      r := bus.Write(frame);
    }

    /** `write` on the buffer: always a full frame, padded with zeros. */
    method WriteBuffer(address: Byte, data: seq<Byte>) returns (r: Result<()>)
      requires |data| < MAX_TRANSACTION_SIZE
      modifies bus`chip, bus`accesses
      ensures r.Failure? ==> bus.failsAt < bus.accesses
      ensures bus.chip == if r.Success?
                          then AfterWrite(old(bus.chip), [address] + data + seq(8 - |data|, _ => 0),
                                          bus.delays(old(bus.accesses)), bus.wrecks(old(bus.accesses)))
                          else old(bus.chip)
    {
      var buf := new Byte[MAX_TRANSACTION_SIZE](_ => 0);
      buf[0] := address;
      forall k | 0 <= k < |data| {
        buf[k + 1] := data[k];
      }
      assert buf[..] == [address] + data + seq(8 - |data|, _ => 0);
      r := bus.Write(buf[..]);
    }

    /** `unlock_nvm`. Writing zero to CTRL0 cuts short whatever the chip was doing. */
    method UnlockNvm() returns (r: Result<()>)
      modifies bus`chip, bus`accesses
      ensures r.Failure? ==> bus.failsAt < bus.accesses
      ensures r.Success? ==> Ready(bus.chip) && PowerBit(bus.chip.ctrl0) && EnableBit(bus.chip.ctrl0)
      ensures old(Harmless(bus.chip)) ==> Quiet(old(bus.chip), bus.chip)
    {
      var _ :- WriteRegister(NVM_PASSWORD, [UNLOCK]);
      var _ :- WriteRegister(NVM_CTRL_0, [0x00]);
      assert old(Harmless(bus.chip)) ==> bus.chip.flash == old(bus.chip.flash);
      var _ :- WriteRegister(NVM_CTRL_0, [Ctrl0(0, false, true, true)]);
      r := Success(());
    }

    /** `lock_nvm`: also takes the memory's power away and forgets the operation. */
    method LockNvm() returns (r: Result<()>)
      requires Ready(bus.chip)
      modifies bus`chip, bus`accesses
      ensures r.Failure? ==> bus.failsAt < bus.accesses
      ensures r.Success? ==>
                && bus.chip.password == 0 && bus.chip.pending.None? && bus.chip.ctrl1 == 0
                && !PowerBit(bus.chip.ctrl0) && !RequestBit(bus.chip.ctrl0) && EnableBit(bus.chip.ctrl0)
      ensures Quiet(old(bus.chip), bus.chip)
    {
      var _ :- WriteRegister(NVM_CTRL_0, [Ctrl0(0, false, true, false)]);
      var _ :- WriteRegister(NVM_CTRL_1, [0x00]);
      var _ :- WriteRegister(NVM_PASSWORD, [0x00]);
      r := Success(());
    }

    /** `gpio_set_level`: the register bit is the inverted level. Nothing else changes. */
    method GpioSetLevel(level: bool) returns (r: Result<()>)
      modifies bus`chip, bus`accesses
      ensures r.Failure? ==> bus.failsAt < bus.accesses
      ensures bus.chip == if r.Success? then old(bus.chip).(pd := old(bus.chip).pd.(gpio := if level then 0 else 1)) else old(bus.chip)
    {
      r := WriteRegister(GPIO_SW_GPIO, [Flag(!level, 0x01)]);
    }

    /** `set_pdo` on the second channel. */
    method SetPdo2(pdo: Pdo) returns (r: Result<()>)
      modifies bus`chip, bus`accesses
      ensures r.Failure? ==> bus.failsAt < bus.accesses
      ensures bus.chip == if r.Success? then old(bus.chip).(pd := old(bus.chip).pd.(pdo2 := pdo)) else old(bus.chip)
    {
      r := WriteRegister(DPM_SNK_PDO_2, pdo);
    }

    /** `set_pdo_num`: the other bits of the register stay. */
    method SetPdoNumber(number: Byte) returns (r: Result<()>)
      requires number < 8
      modifies bus`chip, bus`accesses
      ensures r.Failure? ==> bus.failsAt < bus.accesses
      ensures bus.chip == old(bus.chip).(pd := old(bus.chip).pd.(pdoNumber := bus.chip.pd.pdoNumber))
      ensures bus.chip.pd.pdoNumber ==
              if r.Success? then WithNumber(old(bus.chip).pd.pdoNumber, number) else old(bus.chip).pd.pdoNumber
    {
      var read :- bus.WriteRead(DPM_PDO_NUMB, 1);
      r := WriteRegister(DPM_PDO_NUMB, [WithNumber(read[0], number)]);
    }

    /** `issue_pd_reset`: the chip announces what it has been told so far. */
    method IssuePdReset() returns (r: Result<()>)
      modifies bus`chip, bus`accesses
      ensures r.Failure? ==> bus.failsAt < bus.accesses
      ensures bus.chip == old(bus.chip).(pd := bus.chip.pd)
      ensures r.Success? ==> bus.chip.pd == old(bus.chip).pd.(header := SOFT_RESET,
                announced := Some((old(bus.chip).pd.pdoNumber & 0x07, old(bus.chip).pd.pdo2)))
    {
      var _ :- WriteRegister(TX_HEADER, [0x0D]);
      r := WriteRegister(PD_COMMAND_CTRL, [0x26]);
    }

    /** `issue_request_with_sector`: request the operation that CTRL1 selects and poll until it has
        been carried out. */
    method IssueRequestWithSector(sector: nat, ghost op: Op) returns (r: Result<()>)
      requires sector < NUM_SECTORS && Ready(bus.chip)
      requires Decode(RequestByte(sector), bus.chip.ctrl1) == Some(op)
      modifies bus`chip, bus`accesses
      ensures r.Failure? ==> bus.failsAt < bus.accesses
      ensures r.Success? ==> bus.chip == Completed(old(bus.chip), sector, op)
      ensures r.Failure? ==> bus.chip == old(bus.chip) || bus.chip.(busy := 0) == Issued(old(bus.chip), sector, op)
    {
      ghost var issued := Issued(bus.chip, sector, op);
      RequestAccepted(bus.chip, sector, op, bus.delays(bus.accesses), bus.wrecks(bus.accesses));
      var _ :- WriteRegister(NVM_CTRL_0, [RequestByte(sector)]);
      while true
        invariant bus.chip.(busy := 0) == issued
        decreases bus.chip.busy
      {
        PollTells(bus.chip);
        var value :- bus.WriteRead(NVM_CTRL_0, 1);
        if !RequestBit(value[0]) {
          break;
        }
      }
      r := Success(());
    }

    /** `erase_sectors`: latch all five sectors in the erase register, then erase. */
    method EraseSectors() returns (r: Result<()>)
      requires Ready(bus.chip)
      modifies bus`chip, bus`accesses
      ensures r.Failure? ==> bus.failsAt < bus.accesses
      ensures r.Success? ==> Ready(bus.chip) && bus.chip.flash == [BLANK, BLANK, BLANK, BLANK, BLANK]
    {
      var _ :- WriteRegister(NVM_CTRL_1, [Ctrl1(0x02, true)]);
      ControlBytesDecode(0, true, true, true, true);
      var _ :- IssueRequestWithSector(0, LoadSer([true, true, true, true, true]));
      var _ :- WriteRegister(NVM_CTRL_1, [Ctrl1(0x05, false)]);
      var _ :- IssueRequestWithSector(0, Op.EraseSectors);
      assert forall i | 0 <= i < NUM_SECTORS :: bus.chip.flash[i] == BLANK;
      r := Success(());
    }

    /** `read_sector`. */
    method ReadSector(sector: nat) returns (r: Result<Sector>)
      requires sector < NUM_SECTORS && Ready(bus.chip)
      modifies bus`chip, bus`accesses
      ensures r.Failure? ==> bus.failsAt < bus.accesses
      ensures r.Success? ==> Ready(bus.chip) && r.value == old(bus.chip).flash[sector]
      ensures Quiet(old(bus.chip), bus.chip)
    {
      ControlBytesDecode(sector, true, true, true, false);
      var _ :- WriteRegister(NVM_CTRL_1, [Ctrl1(0x00, false)]);
      var _ :- IssueRequestWithSector(sector, Op.ReadSector(sector));
      var buf :- bus.WriteRead(RW_BUFFER, 8);
      r := Success(buf);
    }

    /** First half of `write_sector`: the data goes through the buffer to the program-load register. */
    method LoadPlr(data: Sector) returns (r: Result<()>)
      requires Ready(bus.chip)
      modifies bus`chip, bus`accesses
      ensures r.Failure? ==> bus.failsAt < bus.accesses
      ensures r.Success? ==> Ready(bus.chip) && bus.chip.plr == data && bus.chip.flash == old(bus.chip).flash
    {
      var _ :- WriteBuffer(RW_BUFFER, data);
      assert bus.chip.rw == data;
      var _ :- WriteRegister(NVM_CTRL_1, [Ctrl1(0x01, false)]);
      var _ :- IssueRequestWithSector(0, Op.LoadPlr);
      r := Success(());
    }

    /** `write_sector`: buffer to program-load register, program-load register to the sector. The
        other sectors stay as they are. Without an erase before it, the sector holds the data
        exactly if it had no bit set that the data has clear. */
    method WriteSector(sector: nat, data: Sector) returns (r: Result<()>)
      requires sector < NUM_SECTORS && Ready(bus.chip)
      modifies bus`chip, bus`accesses
      ensures r.Failure? ==> bus.failsAt < bus.accesses
      ensures r.Success? ==>
                var flash := old(bus.chip).flash;
                && Ready(bus.chip) && bus.chip.flash == flash[sector := Programmed(flash[sector], data)]
                && (bus.chip.flash[sector] == data <==> Writable(flash[sector], data))
    {
      ControlBytesDecode(sector, true, true, true, false);
      var _ :- LoadPlr(data);
      var _ :- WriteRegister(NVM_CTRL_1, [Ctrl1(0x06, false)]);
      var _ :- IssueRequestWithSector(sector, Op.WriteSector(sector));
      ProgramYieldsDataIff(old(bus.chip).flash[sector], data);
      r := Success(());
    }

    /** `read_sectors`. */
    method ReadSectors() returns (r: Result<Sectors>)
      requires Ready(bus.chip)
      modifies bus`chip, bus`accesses
      ensures r.Failure? ==> bus.failsAt < bus.accesses
      ensures r.Success? ==> Ready(bus.chip) && r.value == old(bus.chip).flash
      ensures Quiet(old(bus.chip), bus.chip)
    {
      var res := new Sector[NUM_SECTORS](_ => BLANK);
      for i := 0 to NUM_SECTORS
        invariant Ready(bus.chip) && Quiet(old(bus.chip), bus.chip)
        invariant res[..i] == old(bus.chip).flash[..i]
      {
        var sector :- ReadSector(i);
        res[i] := sector;
      }
      r := Success(res[..]);
    }

    /** `write_sectors`: erase everything, then program sector by sector. Whatever the memory held
        before, it ends up equal to the buffer. */
    method WriteSectors(buf: Sectors) returns (r: Result<()>)
      requires Ready(bus.chip)
      modifies bus`chip, bus`accesses
      ensures r.Failure? ==> bus.failsAt < bus.accesses
      ensures r.Success? ==> Ready(bus.chip) && bus.chip.flash == buf
    {
      var _ :- EraseSectors();
      for i := 0 to NUM_SECTORS
        invariant Ready(bus.chip)
        invariant bus.chip.flash[..i] == buf[..i]
        invariant forall k | i <= k < NUM_SECTORS :: bus.chip.flash[k] == BLANK
      {
        ghost var flash := bus.chip.flash;
        var _ :- WriteSector(i, buf[i]);
        ProgramYieldsDataIff(flash[i], buf[i]);
        assert bus.chip.flash[..i + 1] == buf[..i] + [buf[i]];
      }
      r := Success(());
    }

    /** Writing five sectors and reading them back gives what was written, from any content. */
    method WriteAndReadBack(buf: Sectors) returns (r: Result<Sectors>)
      requires Ready(bus.chip)
      modifies bus`chip, bus`accesses
      ensures r.Failure? ==> bus.failsAt < bus.accesses
      ensures r.Success? ==> r.value == buf && bus.chip.flash == buf
    {
      var _ :- WriteSectors(buf);
      r := ReadSectors();
    }
  }
}
