/** USB-PD boot: compare the controller's memory with the wanted content and rewrite it if it
    differs. Boots may be interrupted at any register access, with or without loss of power. */
module UsbPd {
  import opened NvmChip
  import opened Options
  import opened Results
  import opened Stusb4500

  const NVM_DATA: Sectors := [
    [0x00, 0x00, 0xB0, 0xAB, 0x00, 0x45, 0x00, 0x00],
    [0x00, 0x40, 0x9C, 0x1C, 0xFF, 0x01, 0x3C, 0xDF],
    [0x02, 0x40, 0x0F, 0x00, 0x32, 0x00, 0xFC, 0xF1],
    [0x00, 0x19, 0x50, 0xAF, 0xF5, 0x35, 0x5F, 0x00],
    [0x00, 0x4B, 0x90, 0x21, 0x43, 0x00, 0x40, 0xFB]
  ]

  /** The memory is as wanted and nothing in progress will change it. */
  ghost predicate Clean(c: Chip) {
    c.flash == NVM_DATA && Harmless(c)
  }

  /** The last soft reset made the chip ask for two objects, the second of them 20 V and 1 A. */
  predicate Announced(c: Chip) {
    match c.pd.announced
    case None => false
    case Some((number, pdo)) =>
      number == 2 && pdo == [0x64, 0x40, 0x06, 0x00] && 50 * Voltage(pdo) == 20_000 && 10 * Current(pdo) == 1000
  }

  /** `Usbpd::init`, from any state of the chip. If it completes, the memory holds the wanted
      content and is locked; if the memory already did, the boot neither changes nor wears it,
      whether it completes or not. */
  method Init(bus: Bus) returns (r: Result<()>)
    modifies bus`chip, bus`accesses
    ensures r.Failure? ==> bus.failsAt < bus.accesses
    ensures r.Success? ==>
              && bus.chip.flash == NVM_DATA && bus.chip.password != UNLOCK && bus.chip.pending.None?
              && !PowerBit(bus.chip.ctrl0) && Announced(bus.chip)
    ensures old(Clean(bus.chip)) ==> Clean(bus.chip) && Quiet(old(bus.chip), bus.chip)
  {
    var driver := new Driver(bus);
    var _ :- driver.UnlockNvm();
    var data :- driver.ReadSectors();
    if data != NVM_DATA {
      var _ :- driver.WriteSectors(NVM_DATA);
    }
    var _ :- driver.LockNvm();

    var _ :- AnnouncePdos(driver);
    r := Success(());
  }

  /** 20 V and 1 A as second power data object, two objects, then a reset of the protocol, which
      announces them. Nothing the memory depends on changes. */
  method AnnouncePdos(driver: Driver) returns (r: Result<()>)
    modifies driver.bus`chip, driver.bus`accesses
    ensures r.Failure? ==> driver.bus.failsAt < driver.bus.accesses
    ensures driver.bus.chip == old(driver.bus.chip).(pd := driver.bus.chip.pd)
    ensures r.Success? ==> Announced(driver.bus.chip)
  {
    FixedPdoMeans(20000 / 50, 1000 / 10);
    var _ :- driver.SetPdo2(FixedPdo(20000 / 50, 1000 / 10));
    var _ :- driver.SetPdoNumber(2);
    r := driver.IssuePdReset();
  }

  /** A boot: how many transactions it gets through before it is interrupted, if it takes more; the
      traffic that the running firmware then sends, if it is not; and what the reset that follows
      does to the chip. The firmware does not touch the password once it is up. */
  datatype RawAttempt = Attempt(failsAt: nat, traffic: seq<Transaction>, fate: Fate)

  type Attempt = a: RawAttempt |
    forall k | 0 <= k < |a.traffic| :: a.traffic[k].WellFormed() && !a.traffic[k].Unlocks()
    witness Attempt(0, [], Unaffected)

  /** What a boot, the traffic and the reset after it do to the chip. */
  ghost predicate BootStep(c: Chip, completed: bool, c': Chip) {
    && (completed ==> Clean(c'))
    && (Clean(c) ==> Quiet(c, c'))
  }

  /** After a loss of power, all but the memory and its wear is as the registers come up. */
  ghost predicate Restarted(c: Chip, fate: Fate) {
    fate.PowerLost? ==>
      c == fate.registers.(flash := c.flash, pending := None, erases := c.erases, programs := c.programs)
  }

  /** Any sequence of boots, each followed by traffic if it completes and then by a reset, on a chip
      in any state. The history has the chip before the first boot and after each. */
  method Boots(bus: Bus, attempts: seq<Attempt>) returns (completed: seq<bool>, ghost history: seq<Chip>)
    modifies bus
    ensures |completed| == |attempts| == |history| - 1
    ensures history[0] == old(bus.chip) && history[|attempts|] == bus.chip
    ensures forall k | 0 <= k < |attempts| :: BootStep(history[k], completed[k], history[k + 1])
    ensures forall k | 0 <= k < |attempts| :: Restarted(history[k + 1], attempts[k].fate)
    ensures true in completed ==> bus.chip.flash == NVM_DATA
  {
    completed, history := [], [bus.chip];
    for k := 0 to |attempts|
      invariant |completed| == k == |history| - 1
      invariant history[0] == old(bus.chip) && history[k] == bus.chip
      invariant forall j | 0 <= j < k :: BootStep(history[j], completed[j], history[j + 1])
      invariant forall j | 0 <= j < k :: Restarted(history[j + 1], attempts[j].fate)
    {
      bus.failsAt := bus.accesses + attempts[k].failsAt;
      var r := Init(bus);
      completed := completed + [r.Success?];
      if r.Success? {
        LockedKeepsMemory(bus.chip, attempts[k].traffic);
        bus.chip := AfterTransactions(bus.chip, attempts[k].traffic);
      }
      bus.chip := AfterReset(bus.chip, attempts[k].fate);
      history := history + [bus.chip];
    }
    if true in completed {
      var k :| 0 <= k < |completed| && completed[k];
      SelfRepairing(history, completed, k, |attempts|);
    }
  }

  /** Self-repairing and then wear-free: from the first completed boot on, the memory holds the
      wanted content and is never erased or programmed again, however the later boots end. */
  lemma {:induction false} SelfRepairing(history: seq<Chip>, completed: seq<bool>, k: nat, n: nat)
    requires |history| == |completed| + 1 && k < n <= |completed| && completed[k]
    requires forall j | 0 <= j < |completed| :: BootStep(history[j], completed[j], history[j + 1])
    ensures Clean(history[n])
    ensures history[n].erases == history[k + 1].erases && history[n].programs == history[k + 1].programs
  {
    if k + 1 < n {
      SelfRepairing(history, completed, k, n - 1);
      assert BootStep(history[n - 1], completed[n - 1], history[n]);
    }
  }
}
