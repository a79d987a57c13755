/** A register-level model of the STUSB4500's non-volatile memory: password, two control
    registers, a read/write buffer, a program-load register, a latched sector-erase register and
    five sectors of eight bytes. The opcodes are the driver's; the device behaviour is the model's.

    Erasing clears the latched sectors and programming can only set bits. A request occupies the
    chip for a number of polls and takes effect when it completes. Dropping the enable bit, or
    losing power, aborts it and leaves the sectors it was working on with any content. */
module NvmChip {
  import opened Bytes
  import opened Options

  type Sector = s: seq<Byte> | |s| == 8 witness [0, 0, 0, 0, 0, 0, 0, 0]
  type Sectors = s: seq<Sector> | |s| == 5 witness [BLANK, BLANK, BLANK, BLANK, BLANK]
  type Mask = s: seq<bool> | |s| == 5 witness [false, false, false, false, false]

  const NUM_SECTORS: nat := 5

  // Register addresses.
  const PD_COMMAND_CTRL: Byte := 0x1A
  const GPIO_SW_GPIO: Byte := 0x2D
  const TX_HEADER: Byte := 0x51
  const RW_BUFFER: Byte := 0x53
  const DPM_PDO_NUMB: Byte := 0x70
  const DPM_SNK_PDO_2: Byte := 0x89
  const NVM_PASSWORD: Byte := 0x95
  const NVM_CTRL_0: Byte := 0x96
  const NVM_CTRL_1: Byte := 0x97

  const UNLOCK: Byte := 0x47

  // The message and the command that make up a soft reset of the protocol.
  const SOFT_RESET: Byte := 0x0D
  const SEND_MESSAGE: Byte := 0x26

  datatype Op =
    | ReadSector(sector: nat)
    | LoadPlr
    | LoadSer(mask: Mask)
    | EraseSectors
    | WriteSector(sector: nat)
  {
    predicate Writes() {
      EraseSectors? || WriteSector?
    }
  }

  /** A power data object, least significant byte first. */
  type Pdo = s: seq<Byte> | |s| == 4 witness [0, 0, 0, 0]

  /** The registers that do not concern the memory. `announced` is what the last soft reset made the
      chip ask for: how many objects, and the second of them. */
  datatype Pd = Pd(gpio: Byte, pdo2: Pdo, pdoNumber: Byte, header: Byte, announced: Option<(Byte, Pdo)>)

  /** `erases` and `programs` count accepted requests: the wear. */
  datatype Chip = Chip(
    pd: Pd, password: Byte, ctrl0: Byte, ctrl1: Byte, rw: Sector, plr: Sector, ser: Mask, flash: Sectors,
    pending: Option<Op>, busy: nat, erases: nat, programs: nat)

  // ----- Control register layout -----

  function Flag(b: bool, bit: Byte): Byte {
    if b then bit else 0
  }

  function SectorCode(i: nat): Byte
    requires i < NUM_SECTORS
  {
    match i case 0 => 0 case 1 => 1 case 2 => 2 case 3 => 3 case _ => 4
  }

  /** The sector field, bits 0 to 3; the number of sectors stands for any other code. */
  function SectorOf(ctrl0: Byte): nat {
    var code := ctrl0 & 0x0F;
    if code == 0 then 0 else if code == 1 then 1 else if code == 2 then 2 else if code == 3 then 3
    else if code == 4 then 4 else NUM_SECTORS
  }

  function Ctrl0(sector: Byte, request: bool, enable: bool, power: bool): Byte {
    sector | Flag(request, 0x10) | Flag(enable, 0x40) | Flag(power, 0x80)
  }

  predicate RequestBit(ctrl0: Byte) {
    ctrl0 & 0x10 != 0
  }

  predicate EnableBit(ctrl0: Byte) {
    ctrl0 & 0x40 != 0
  }

  predicate PowerBit(ctrl0: Byte) {
    ctrl0 & 0x80 != 0
  }

  function Ctrl1(opCode: Byte, erase: bool): Byte {
    opCode | Flag(erase, 0x08) | Flag(erase, 0x10) | Flag(erase, 0x20) | Flag(erase, 0x40) | Flag(erase, 0x80)
  }

  function EraseBits(ctrl1: Byte): Mask {
    [ctrl1 & 0x08 != 0, ctrl1 & 0x10 != 0, ctrl1 & 0x20 != 0, ctrl1 & 0x40 != 0, ctrl1 & 0x80 != 0]
  }

  function Decode(ctrl0: Byte, ctrl1: Byte): Option<Op> {
    var code := ctrl1 & 0x07;
    if code == 0x00 then Some(ReadSector(SectorOf(ctrl0)))
    else if code == 0x01 then Some(LoadPlr)
    else if code == 0x02 then Some(LoadSer(EraseBits(ctrl1)))
    else if code == 0x05 then Some(EraseSectors)
    else if code == 0x06 then Some(WriteSector(SectorOf(ctrl0)))
    else None
  }

  /** The bytes the driver writes mean what it intends: CTRL0's sector and flags, and the operation,
      with CTRL1's erase bits, that the two select. */
  lemma ControlBytesDecode(i: nat, request: bool, enable: bool, power: bool, erase: bool)
    requires i < NUM_SECTORS
    ensures var b := Ctrl0(SectorCode(i), request, enable, power);
            && SectorOf(b) == i && RequestBit(b) == request && EnableBit(b) == enable && PowerBit(b) == power
            && Decode(b, Ctrl1(0x00, erase)) == Some(ReadSector(i))
            && Decode(b, Ctrl1(0x01, erase)) == Some(LoadPlr)
            && Decode(b, Ctrl1(0x02, erase)) == Some(LoadSer([erase, erase, erase, erase, erase]))
            && Decode(b, Ctrl1(0x05, erase)) == Some(EraseSectors)
            && Decode(b, Ctrl1(0x06, erase)) == Some(WriteSector(i))
  {
    Ctrl0Decodes(i, request, enable, power);
    forall opCode: Byte | opCode <= 7
      ensures Ctrl1(opCode, erase) & 0x07 == opCode
    {
      Ctrl1Decodes(opCode, erase);
    }
    Ctrl1Decodes(0x02, erase);
  }

  lemma Ctrl0Decodes(i: nat, request: bool, enable: bool, power: bool)
    requires i < NUM_SECTORS
    ensures var b := Ctrl0(SectorCode(i), request, enable, power);
            SectorOf(b) == i && RequestBit(b) == request && EnableBit(b) == enable && PowerBit(b) == power
  {
  }

  lemma Ctrl1Decodes(opCode: Byte, erase: bool)
    requires opCode <= 7
    ensures Ctrl1(opCode, erase) & 0x07 == opCode
    ensures EraseBits(Ctrl1(opCode, erase)) == [erase, erase, erase, erase, erase]
  {
  }

  // ----- Memory -----

  const BLANK: Sector := [0, 0, 0, 0, 0, 0, 0, 0]

  /** Programming sets the bits of `data` and cannot clear any. */
  function Programmed(cells: Sector, data: Sector): Sector {
    seq(8, k requires 0 <= k < 8 => (cells[k] | data[k]))
  }

  function Erased(flash: Sectors, mask: Mask): Sectors {
    seq(NUM_SECTORS, i requires 0 <= i < NUM_SECTORS => if mask[i] then BLANK else flash[i])
  }

  /** The sectors a request works on. */
  predicate Touches(c: Chip, op: Op, i: nat)
    requires i < NUM_SECTORS
  {
    match op
    case EraseSectors => c.ser[i]
    case WriteSector(sector) => sector == i
    case _ => false
  }

  function Apply(c: Chip, op: Op): Chip {
    match op
    case ReadSector(i) => if i < NUM_SECTORS then c.(rw := c.flash[i]) else c
    case LoadPlr => c.(plr := c.rw)
    case LoadSer(mask) => c.(ser := mask)
    case EraseSectors => c.(flash := Erased(c.flash, c.ser))
    case WriteSector(i) => if i < NUM_SECTORS then c.(flash := c.flash[i := Programmed(c.flash[i], c.plr)]) else c
  }

  function Requested(c: Chip, op: Op, delay: nat): Chip {
    c.(pending := Some(op), busy := delay,
       erases := c.erases + if op.EraseSectors? then 1 else 0,
       programs := c.programs + if op.WriteSector? then 1 else 0)
  }

  /** A request that was cut short: the sectors it worked on are left as `wreck` has them. */
  function Aborted(c: Chip, wreck: Sectors): Chip {
    if c.pending.None? then c
    else
      c.(pending := None, busy := 0,
         flash := seq(NUM_SECTORS, i requires 0 <= i < NUM_SECTORS =>
                        if Touches(c, c.pending.value, i) then wreck[i] else c.flash[i]))
  }

  // ----- Bus transactions -----

  /** A write transaction: register address, then data. `delay` is how many polls a request will
      take, `wreck` what an aborted one leaves behind. */
  function AfterWrite(c: Chip, frame: seq<Byte>, delay: nat, wreck: Sectors): Chip
    requires |frame| >= 2
  {
    var address, value := frame[0], frame[1];
    if address == NVM_PASSWORD then c.(password := value)
    else if address == NVM_CTRL_1 then c.(ctrl1 := value)
    else if address == RW_BUFFER then if |frame| == 9 then c.(rw := frame[1..]) else c
    else if address == NVM_CTRL_0 then
      var c' := c.(ctrl0 := value);
      if !EnableBit(value) then Aborted(c', wreck)
      else if RequestBit(value) && PowerBit(value) && c.password == UNLOCK && c.pending.None?
              && Decode(value, c.ctrl1).Some? then
        Requested(c', Decode(value, c.ctrl1).value, delay)
      else c'
    else c.(pd := AfterPdWrite(c.pd, frame))
  }

  function AfterPdWrite(p: Pd, frame: seq<Byte>): Pd
    requires |frame| >= 2
  {
    var address, value := frame[0], frame[1];
    if address == GPIO_SW_GPIO then p.(gpio := value)
    else if address == DPM_SNK_PDO_2 then if |frame| == 5 then p.(pdo2 := frame[1..]) else p
    else if address == DPM_PDO_NUMB then p.(pdoNumber := value)
    else if address == TX_HEADER then p.(header := value)
    else if address == PD_COMMAND_CTRL && value == SEND_MESSAGE && p.header == SOFT_RESET then
      p.(announced := Some((p.pdoNumber & 0x07, p.pdo2)))
    else p
  }

  // ----- Power data objects -----

  /** `FixedPdo::new`: voltage in units of 50 mV in bits 10 to 19, current in units of 10 mA in bits 0
      to 9, both cut to ten bits. */
  function FixedPdo(voltage: bv16, current: bv16): Pdo {
    [(current & 0xFF) as Byte,
     (((current >> 8) & 0x03) | ((voltage << 2) & 0xFC)) as Byte,
     ((voltage >> 6) & 0x0F) as Byte,
     0]
  }

  function Voltage(pdo: Pdo): bv16 {
    ((pdo[2] & 0x0F) as bv16 << 6) | (pdo[1] >> 2) as bv16
  }

  function Current(pdo: Pdo): bv16 {
    ((pdo[1] & 0x03) as bv16 << 8) | pdo[0] as bv16
  }

  /** An object built for a voltage and a current asks for them, and has no other bit set. */
  lemma FixedPdoMeans(voltage: bv16, current: bv16)
    requires voltage < 1024 && current < 1024
    ensures var pdo := FixedPdo(voltage, current);
            Voltage(pdo) == voltage && Current(pdo) == current && pdo[2] & 0xF0 == 0 && pdo[3] == 0
  {
  }

  /** Reading CTRL0 polls the request in progress: the request bit stays up until it completes. */
  function AfterPoll(c: Chip): Chip {
    if c.pending.None? then c
    else if c.busy > 0 then c.(busy := c.busy - 1)
    else Apply(c, c.pending.value).(pending := None)
  }

  function PolledCtrl0(c: Chip): Byte {
    if AfterPoll(c).pending.Some? then c.ctrl0 | 0x10 else c.ctrl0 & 0xEF
  }

  /** The request bit tells whether the request is still in progress. */
  lemma PollTells(c: Chip)
    ensures RequestBit(PolledCtrl0(c)) <==> AfterPoll(c).pending.Some?
  {
  }

  /** What happens to the chip when the microcontroller resets: nothing, or it loses power too. Then
      its registers come up with any content and a request in progress is cut short. */
  datatype Fate = Unaffected | PowerLost(registers: Chip, wreck: Sectors)

  function AfterReset(c: Chip, fate: Fate): Chip {
    match fate
    case Unaffected => c
    case PowerLost(r, wreck) =>
      r.(flash := Aborted(c, wreck).flash, pending := None, erases := c.erases, programs := c.programs)
  }

  // ----- Properties of the device model that the driver relies on -----

  /** The sector has no bit set that the data has clear. */
  predicate Writable(cells: Sector, data: Sector) {
    forall k | 0 <= k < 8 :: cells[k] & !data[k] == 0
  }

  /** Programming a sector yields the data exactly if the sector is writable with it; hence the erase
      before a write. */
  lemma ProgramYieldsDataIff(cells: Sector, data: Sector)
    ensures Programmed(cells, data) == data <==> Writable(cells, data)
    ensures Writable(BLANK, data)
  {
    forall k | 0 <= k < 8
      ensures (cells[k] | data[k]) == data[k] <==> cells[k] & !data[k] == 0
      ensures BLANK[k] & !data[k] == 0
    {
      BitSubset(cells[k], data[k]);
    }
    if Programmed(cells, data) == data {
      assert forall k | 0 <= k < 8 :: Programmed(cells, data)[k] == cells[k] | data[k];
    }
  }

  lemma BitSubset(a: Byte, b: Byte)
    ensures (a | b) == b <==> a & !b == 0
    ensures 0 & !b == 0
  {
  }

  /** An erase blanks the memory exactly if every sector that is not blank has been latched; hence the
      load of the erase register before it. */
  lemma EraseBlanksIff(c: Chip)
    ensures Apply(c, EraseSectors).flash == [BLANK, BLANK, BLANK, BLANK, BLANK] <==>
            forall i | 0 <= i < NUM_SECTORS :: c.flash[i] == BLANK || c.ser[i]
  {
    var blank := [BLANK, BLANK, BLANK, BLANK, BLANK];
    assert forall i | 0 <= i < NUM_SECTORS :: blank[i] == BLANK;
    var after := Apply(c, EraseSectors).flash;
    assert forall i | 0 <= i < NUM_SECTORS :: after[i] == if c.ser[i] then BLANK else c.flash[i];
    if forall i | 0 <= i < NUM_SECTORS :: c.flash[i] == BLANK || c.ser[i] {
      assert after == blank;
    }
  }

  /** What else can happen on the bus: a write, or a poll. Other reads do not concern the chip. */
  datatype Transaction =
    | Write(frame: seq<Byte>, delay: nat, wreck: Sectors)
    | Poll
  {
    predicate WellFormed() {
      Write? ==> |frame| >= 2
    }

    predicate Unlocks() {
      Write? && |frame| >= 2 && frame[0] == NVM_PASSWORD
    }
  }

  function AfterTransaction(c: Chip, t: Transaction): Chip
    requires t.WellFormed()
  {
    match t case Write(frame, delay, wreck) => AfterWrite(c, frame, delay, wreck) case Poll => AfterPoll(c)
  }

  function AfterTransactions(c: Chip, ts: seq<Transaction>): Chip
    requires forall k | 0 <= k < |ts| :: ts[k].WellFormed()
  {
    if ts == [] then c else AfterTransaction(AfterTransactions(c, ts[..|ts| - 1]), ts[|ts| - 1])
  }

  /** Locked and idle. */
  predicate Locked(c: Chip) {
    c.password != UNLOCK && c.pending.None?
  }

  /** From a locked idle chip, whatever traffic follows, aimed at the control registers included: as
      long as none of it addresses the password, the memory is neither changed nor worn. */
  lemma {:induction false} LockedKeepsMemory(c: Chip, ts: seq<Transaction>)
    requires Locked(c) && forall k | 0 <= k < |ts| :: ts[k].WellFormed() && !ts[k].Unlocks()
    ensures var c' := AfterTransactions(c, ts);
            && c'.password == c.password && c'.pending == c.pending
            && c'.flash == c.flash && c'.erases == c.erases && c'.programs == c.programs
  {
    if ts != [] {
      LockedKeepsMemory(c, ts[..|ts| - 1]);
    }
  }
}
