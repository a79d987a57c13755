/** The watchdog multiplexer: one hardware watchdog shared by up to sixteen tickets.

    The hardware is fed only when every registered ticket has fed since the previous hardware
    feed. The module models the barrier on values (`Step`), proves what it promises over whole runs,
    and ties the object that updates a bit mask in place (`Multiplexer`) to it. */
module Watchdog {
  import opened Time

  /** Bits in the mask, hence the largest number of tickets. */
  const CAPACITY: nat := 16

  /** Time without a hardware feed after which the hardware resets the chip. */
  const WATCHDOG_DURATION: nat := Secs(30)

  /** The interval that tasks are told to keep to. */
  const WATCHDOG_DEADLINE: nat := Secs(30 - 1)

  /** One critical section under the watchdog's lock: `ticket()` or `WatchdogTicket::feed()`. */
  datatype Event =
    | Register(at: nat)
    | Feed(index: nat, at: nat)

  /** `hardware` lists the times at which the peripheral's counter was restarted; enabling it at
      time 0 counts as the first. */
  datatype RawBarrier = Barrier(mask: seq<bool>, count: nat, hardware: seq<nat>)

  type Barrier = b: RawBarrier | |b.mask| == CAPACITY && b.count <= CAPACITY && |b.hardware| > 0
    witness Enabled()

  function NoBits(): (mask: seq<bool>)
    ensures |mask| == CAPACITY && forall i | 0 <= i < CAPACITY :: !mask[i]
  {
    seq(CAPACITY, _ => false)
  }

  function Enabled(): RawBarrier {
    Barrier(NoBits(), 0, [0])
  }

  function LastHardware(b: Barrier): nat {
    b.hardware[|b.hardware| - 1]
  }

  predicate AllSet(mask: seq<bool>, count: nat)
    requires count <= |mask|
  {
    forall i | 0 <= i < count :: mask[i]
  }

  /** `Inner::feed`: set one bit; a full round clears the mask and feeds the hardware. */
  function FeedBit(b: Barrier, index: nat, now: nat): Barrier
    requires index < CAPACITY
  {
    var mask := b.mask[index := true];
    if AllSet(mask, b.count) then
      b.(mask := NoBits(), hardware := b.hardware + [now])
    else
      b.(mask := mask)
  }

  /** At most sixteen tickets, and only registered tickets feed. */
  predicate CanStep(b: Barrier, e: Event) {
    match e case Register(_) => b.count < CAPACITY case Feed(index, _) => index < b.count
  }

  /** The ticket that an event feeds; registering a ticket feeds it. */
  function FedBy(b: Barrier, e: Event): nat {
    match e case Register(_) => b.count case Feed(index, _) => index
  }

  function Step(b: Barrier, e: Event): Barrier
    requires CanStep(b, e)
  {
    match e
    case Register(at) => FeedBit(b.(count := b.count + 1), b.count, at)
    case Feed(index, at) => FeedBit(b, index, at)
  }

  // ----- Runs -----

  /** Events, and the states before the first and after each. */
  datatype Run = Run(events: seq<Event>, states: seq<Barrier>)

  ghost predicate Legal(r: Run) {
    && |r.states| == |r.events| + 1
    && r.states[0] == Enabled()
    && (forall n {:trigger CanStep(r.states[n], r.events[n])} | 0 <= n < |r.events| ::
          CanStep(r.states[n], r.events[n]) && r.states[n + 1] == Step(r.states[n], r.events[n]))
    && (forall m, n | 0 <= m <= n < |r.events| :: r.events[m].at <= r.events[n].at)
  }

  /** Time of the most recent feed of ticket `i` among the first `n` events. */
  function LastFeed(r: Run, n: nat, i: nat): nat
    requires n <= |r.events| == |r.states| - 1
  {
    if n == 0 then 0
    else if FedBy(r.states[n - 1], r.events[n - 1]) == i then r.events[n - 1].at
    else LastFeed(r, n - 1, i)
  }

  /** Number of feeds of ticket `i` among the first `n` events. */
  function Feeds(r: Run, n: nat, i: nat): nat
    requires n <= |r.events| == |r.states| - 1
  {
    if n == 0 then 0
    else Feeds(r, n - 1, i) + if FedBy(r.states[n - 1], r.events[n - 1]) == i then 1 else 0
  }

  /** The hardware counter has not run out at any event of the run. */
  ghost predicate Survives(r: Run)
    requires |r.states| == |r.events| + 1
  {
    forall n | 0 <= n < |r.events| :: r.events[n].at < LastHardware(r.states[n]) + WATCHDOG_DURATION
  }

  /** Whenever anything happens, ticket `i` has fed within the last `gap` ticks. */
  ghost predicate Punctual(r: Run, i: nat, gap: nat)
    requires |r.states| == |r.events| + 1
  {
    forall n {:trigger LastFeed(r, n, i)} | 0 <= n < |r.events| && i < r.states[n].count ::
      r.events[n].at <= LastFeed(r, n, i) + gap
  }

  /** Feeding ticket `j` at time `now` either completes a round or sets one bit. */
  ghost predicate Moves(b: Barrier, j: nat, now: nat, b': Barrier) {
    && j < b'.count && b.count <= b'.count && (j == b.count || b'.count == b.count)
    && if b'.hardware == b.hardware then
         b'.mask == b.mask[j := true]
       else
         && b'.hardware == b.hardware + [now]
         && b'.mask == NoBits()
         && (forall i | 0 <= i < b'.count && i != j :: b.mask[i])
  }

  lemma StepMoves(r: Run, n: nat)
    requires Legal(r) && n < |r.events|
    ensures Moves(r.states[n], FedBy(r.states[n], r.events[n]), r.events[n].at, r.states[n + 1])
    ensures r.states[n + 1].count == r.states[n].count + if r.events[n].Register? then 1 else 0
  {
    var b, e := r.states[n], r.events[n];
    assert CanStep(b, e);
    var b' := Step(b, e);
    assert r.states[n + 1] == b';
    var mask := b.mask[FedBy(b, e) := true];
    if AllSet(mask, b'.count) {
      forall i | 0 <= i < b'.count && i != FedBy(b, e)
        ensures b.mask[i]
      {
        assert mask[i];
      }
    }
  }

  lemma {:induction false} CountGrows(r: Run, m: nat, n: nat)
    requires Legal(r) && m <= n <= |r.events|
    ensures r.states[m].count <= r.states[n].count
  {
    if m < n {
      CountGrows(r, m, n - 1);
      StepMoves(r, n - 1);
    }
  }

  /** Bits of unregistered tickets are clear, and some registered ticket always still has to feed. */
  ghost predicate RoundOpen(b: Barrier) {
    && (forall i | b.count <= i < CAPACITY :: !b.mask[i])
    && (b.count > 0 ==> exists i :: 0 <= i < b.count && !b.mask[i])
  }

  lemma StepKeepsRoundOpen(b: Barrier, e: Event)
    requires CanStep(b, e) && RoundOpen(b)
    ensures RoundOpen(Step(b, e))
  {
    var b' := Step(b, e);
    if b'.mask == NoBits() {
      assert !b'.mask[0];
    }
  }

  lemma {:induction false} RoundNeverLeftFull(r: Run, n: nat)
    requires Legal(r) && n <= |r.events|
    ensures RoundOpen(r.states[n])
  {
    if n > 0 {
      RoundNeverLeftFull(r, n - 1);
      var m := n - 1;
      assert CanStep(r.states[m], r.events[m]);
      assert r.states[m + 1] == Step(r.states[m], r.events[m]);
      StepKeepsRoundOpen(r.states[m], r.events[m]);
    }
  }

  /** Nothing that happened before event `n` happened after it. */
  lemma {:induction false} NotInTheFuture(r: Run, n: nat, i: nat)
    requires Legal(r) && n < |r.events|
    ensures LastFeed(r, n, i) <= r.events[n].at && LastHardware(r.states[n]) <= r.events[n].at
  {
    if n > 0 {
      NotInTheFuture(r, n - 1, i);
      StepMoves(r, n - 1);
    }
  }

  /** A clear bit means no feed since the last hardware feed; a set bit means one since then. */
  ghost predicate BitTellsOrder(b: Barrier, i: nat, lastFeed: nat)
    requires i < CAPACITY
  {
    if b.mask[i] then LastHardware(b) <= lastFeed else lastFeed <= LastHardware(b)
  }

  lemma {:induction false} BitOrder(r: Run, n: nat, i: nat)
    requires Legal(r) && n <= |r.events| && i < r.states[n].count
    ensures BitTellsOrder(r.states[n], i, LastFeed(r, n, i))
  {
    if n > 0 {
      StepMoves(r, n - 1);
      NotInTheFuture(r, n - 1, i);
      if i != FedBy(r.states[n - 1], r.events[n - 1]) {
        BitOrder(r, n - 1, i);
      }
    }
  }

  /** No false reset: if all tickets are punctual with a gap below 30 s, then at every event the
      hardware was fed within that gap, even while new tickets register. */
  lemma NoFalseReset(r: Run, gap: nat)
    requires Legal(r)
    requires |r.events| > 0 ==> r.events[0].at <= gap
    requires forall i | 0 <= i < r.states[|r.events|].count :: Punctual(r, i, gap)
    ensures forall n | 0 <= n < |r.events| :: r.events[n].at <= LastHardware(r.states[n]) + gap
    ensures gap < Secs(30) ==> Survives(r)
  {
    forall n | 0 <= n < |r.events|
      ensures r.events[n].at <= LastHardware(r.states[n]) + gap
    {
      if n > 0 {
        StepMoves(r, 0);
        CountGrows(r, 1, n);
        RoundNeverLeftFull(r, n);
        var i :| 0 <= i < r.states[n].count && !r.states[n].mask[i];
        CountGrows(r, n, |r.events|);
        BitOrder(r, n, i);
        assert Punctual(r, i, gap);
      }
    }
  }

  /** Consecutive hardware feeds are in order and at most `gap` apart. */
  ghost predicate Spaced(hardware: seq<nat>, gap: nat) {
    forall k | 0 < k < |hardware| :: hardware[k - 1] <= hardware[k] <= hardware[k - 1] + gap
  }

  lemma Extend(hardware: seq<nat>, now: nat, gap: nat)
    requires |hardware| > 0 && Spaced(hardware, gap)
    requires hardware[|hardware| - 1] <= now <= hardware[|hardware| - 1] + gap
    ensures Spaced(hardware + [now], gap)
  {
  }

  /** The same guarantee read off the hardware's own log. */
  lemma {:induction false} HardwareGaps(r: Run, n: nat, gap: nat)
    requires Legal(r) && n <= |r.events|
    requires forall m | 0 <= m < n :: r.events[m].at <= LastHardware(r.states[m]) + gap
    ensures Spaced(r.states[n].hardware, gap)
  {
    if n > 0 {
      HardwareGaps(r, n - 1, gap);
      NotInTheFuture(r, n - 1, 0);
      StepMoves(r, n - 1);
      Extend(r.states[n - 1].hardware, r.events[n - 1].at, gap);
    }
  }

  function Bit(b: Barrier, i: nat): nat
    requires i < CAPACITY
  {
    if b.mask[i] then 1 else 0
  }

  /** Accounting of rounds: over any stretch of a run, hardware feeds plus the change of a
      ticket's pending bit never exceed that ticket's own feeds. */
  lemma {:induction false} OneFeedPerRound(r: Run, m: nat, n: nat, i: nat)
    requires Legal(r) && m <= n <= |r.events| && i < r.states[m].count
    ensures |r.states[n].hardware| - |r.states[m].hardware| + Bit(r.states[n], i)
         <= Feeds(r, n, i) - Feeds(r, m, i) + Bit(r.states[m], i)
  {
    if m < n {
      OneFeedPerRound(r, m, n - 1, i);
      CountGrows(r, m, n - 1);
      StepMoves(r, n - 1);
    }
  }

  /** Detection: after a ticket stops feeding the hardware is fed at most once more, and not at
      all if the ticket's bit was clear. */
  lemma StoppedTicketStarvesHardware(r: Run, m: nat, n: nat, i: nat)
    requires Legal(r) && m <= n <= |r.events| && i < r.states[m].count
    requires forall k | m <= k < n :: FedBy(r.states[k], r.events[k]) != i
    ensures |r.states[n].hardware| <= |r.states[m].hardware| + Bit(r.states[m], i)
  {
    OneFeedPerRound(r, m, n, i);
    NoFeedsCounted(r, m, n, i);
  }

  lemma {:induction false} NoFeedsCounted(r: Run, m: nat, n: nat, i: nat)
    requires Legal(r) && m <= n <= |r.events|
    requires forall k | m <= k < n :: FedBy(r.states[k], r.events[k]) != i
    ensures Feeds(r, n, i) == Feeds(r, m, i)
  {
    if m < n {
      NoFeedsCounted(r, m, n - 1, i);
    }
  }

  /** Only a ticket whose bit was clear completes a round, and then all other bits were set. */
  lemma RoundCompletedBy(r: Run, n: nat, i: nat)
    requires Legal(r) && n < |r.events| && i < r.states[n + 1].count
    requires r.states[n + 1].hardware != r.states[n].hardware
    requires FedBy(r.states[n], r.events[n]) != i
    ensures i < r.states[n].count && r.states[n].mask[i]
    ensures r.events[n].Feed? && r.events[n].index < r.states[n].count && !r.states[n].mask[r.events[n].index]
  {
    RoundNeverLeftFull(r, n);
    StepMoves(r, n);
    var b, j := r.states[n], FedBy(r.states[n], r.events[n]);
    assert b.mask[i];
    var clear :| 0 <= clear < b.count && !b.mask[clear];
    assert clear == j;
  }

  /** Registering a ticket restarts the hardware counter exactly if it is the first ticket. */
  lemma RegistrationFeedsIff(r: Run, n: nat)
    requires Legal(r) && n < |r.events| && r.events[n].Register?
    ensures r.states[n + 1].hardware != r.states[n].hardware <==> r.states[n].count == 0
  {
    var b := r.states[n];
    StepMoves(r, n);
    if b.count > 0 {
      if r.states[n + 1].hardware != b.hardware {
        RoundCompletedBy(r, n, 0);
      }
    } else {
      RoundNeverLeftFull(r, n + 1);
      assert !r.states[n + 1].mask[0];
    }
  }

  /** So a registration does not put off an expiry that is near: one tick before it a second ticket
      registers, and when the first one feeds on time for the 30 s, it is too late. */
  lemma RegistrationDoesNotSave() returns (r: Run)
    ensures Legal(r) && r.events == [Register(0), Register(WATCHDOG_DURATION - 1), Feed(0, WATCHDOG_DURATION)]
    ensures forall n | 0 <= n < 2 :: r.events[n].at < LastHardware(r.states[n]) + WATCHDOG_DURATION
    ensures !Survives(r)
  {
    var events := [Register(0), Register(WATCHDOG_DURATION - 1), Feed(0, WATCHDOG_DURATION)];
    var b1 := Step(Enabled(), events[0]);
    assert b1.count == 1 && LastHardware(b1) == 0 && b1.mask == NoBits();
    assert !b1.mask[1 := true][0];
    var b2 := Step(b1, events[1]);
    r := Run(events, [Enabled(), b1, b2, Step(b2, events[2])]);
    assert r.events[2].at == LastHardware(r.states[2]) + WATCHDOG_DURATION;
  }

  /** Bounded detection, unconditionally: in a run that has not been reset, every ticket fed less
      than two watchdog periods ago. A task that hangs is reset within 60 s. */
  lemma HungTicketIsReset(r: Run, n: nat, i: nat)
    requires Legal(r) && Survives(r) && n < |r.events| && i < r.states[n].count
    ensures r.events[n].at < LastFeed(r, n, i) + Secs(60)
  {
    LastRoundIsRecent(r, n, i);
  }

  lemma {:induction false} LastRoundIsRecent(r: Run, n: nat, i: nat)
    requires Legal(r) && Survives(r) && n <= |r.events| && i < r.states[n].count
    ensures LastHardware(r.states[n]) < LastFeed(r, n, i) + WATCHDOG_DURATION
  {
    if n > 0 {
      StepMoves(r, n - 1);
      if FedBy(r.states[n - 1], r.events[n - 1]) == i {
        NotInTheFuture(r, n - 1, i);
      } else if r.states[n].hardware != r.states[n - 1].hardware {
        RoundCompletedBy(r, n - 1, i);
        BitOrder(r, n - 1, i);
        assert r.events[n - 1].at < LastHardware(r.states[n - 1]) + WATCHDOG_DURATION;
      } else {
        LastRoundIsRecent(r, n - 1, i);
      }
    }
  }

  /** Bounded detection when only one task hangs: if all other tickets are punctual, the last
      hardware feed is at most `gap` after the hung ticket's last feed, so the reset comes at most
      `gap` plus 30 s after it. */
  lemma LoneHungTicket(r: Run, n: nat, i: nat, gap: nat)
    requires Legal(r) && Survives(r) && n < |r.events| && i < r.states[n].count
    requires forall j | 0 <= j < r.states[|r.events|].count && j != i :: Punctual(r, j, gap)
    ensures r.events[n].at < LastFeed(r, n, i) + gap + Secs(30)
  {
    LastRoundWithinGap(r, n, i, gap);
  }

  lemma {:induction false} LastRoundWithinGap(r: Run, n: nat, i: nat, gap: nat)
    requires Legal(r) && n <= |r.events| && i < r.states[n].count
    requires forall j | 0 <= j < r.states[|r.events|].count && j != i :: Punctual(r, j, gap)
    ensures LastHardware(r.states[n]) <= LastFeed(r, n, i) + gap
  {
    if n > 0 {
      StepMoves(r, n - 1);
      if FedBy(r.states[n - 1], r.events[n - 1]) == i {
        NotInTheFuture(r, n - 1, i);
      } else if r.states[n].hardware != r.states[n - 1].hardware {
        RoundCompletedBy(r, n - 1, i);
        var j := r.events[n - 1].index;
        BitOrder(r, n - 1, i);
        BitOrder(r, n - 1, j);
        CountGrows(r, n - 1, |r.events|);
        assert Punctual(r, j, gap);
        assert r.events[n - 1].at <= LastFeed(r, n - 1, j) + gap;
      } else {
        LastRoundWithinGap(r, n - 1, i, gap);
      }
    }
  }

  // ----- The object -----

  /** The state behind the watchdog's lock, updated in place. */
  class Multiplexer {
    const mask: array<bool>
    var count: nat
    var hardware: seq<nat>

    ghost predicate Valid()
      reads this
    {
      mask.Length == CAPACITY && count <= CAPACITY && |hardware| > 0
    }

    ghost function State(): Barrier
      requires Valid()
      reads this, mask
    {
      Barrier(mask[..], count, hardware)
    }

    /** `Watchdog::init`: enable the peripheral with an empty mask. */
    constructor ()
      ensures Valid() && fresh(mask) && State() == Enabled()
      ensures mask.Length == 16 && count == 0 && hardware == [0]
    {
      mask := new bool[CAPACITY](_ => false);
      count := 0;
      hardware := [0];
      new;
      assert mask[..] == NoBits();
    }

    /** `Watchdog::ticket`: hand out the next index and feed it at once. */
    method Ticket(now: nat) returns (index: nat)
      requires Valid() && count < CAPACITY
      modifies this, mask
      ensures Valid()
      ensures index == old(count)
      ensures State() == Step(old(State()), Register(now))
    {
      index := count;
      count := count + 1;
      FeedIndex(index, now);
    }

    /** `WatchdogTicket::feed`. */
    method FeedTicket(index: nat, now: nat)
      requires Valid() && index < count
      modifies this, mask
      ensures Valid()
      ensures State() == Step(old(State()), Feed(index, now))
    {
      FeedIndex(index, now);
    }

    /** `Inner::feed`. */
    method FeedIndex(index: nat, now: nat)
      requires Valid() && index < CAPACITY
      modifies this, mask
      ensures Valid()
      ensures State() == FeedBit(old(State()), index, now)
    {
      mask[index] := true;
      ghost var marked := mask[..];
      assert marked == old(mask[..])[index := true];
      var all := true;
      var i := 0;
      while i < count && all
        invariant 0 <= i <= count
        invariant all == forall k | 0 <= k < i :: marked[k]
      {
        all := mask[i];
        i := i + 1;
      }
      if all {
        forall k | 0 <= k < mask.Length {
          mask[k] := false;
        }
        hardware := hardware + [now];
        assert mask[..] == NoBits();
      }
    }
  }
}
