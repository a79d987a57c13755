/** Output supervisor: the fault, back-off and stabilise machine of `monitor_task`, with
    `config_task` rewriting the back-off duration under the same lock.

    `Next` is a four-state machine; `PowerExt` is the encoding that the firmware uses (a bool,
    three optional instants, a published state, two converter bits and a LED pin), proved to
    simulate it. Whole runs of the four-state machine are the subject of `SupervisorRuns`. */
module PowerSupervisor {
  import opened Time
  import opened Options
  import Config
  import Tps55289
  import Watchdog

  const STABILIZATION_DURATION: nat := Millis(100)

  /** The longest sleep between two iterations. */
  const MAX_DURATION: nat := Watchdog.WATCHDOG_DEADLINE

  /** The state that is published to other systems. */
  datatype State = Disabled | Enabled | Enabling | Ocp

  /** The fault bits of the converter's status register. */
  datatype Status = Status(ovp: bool, ocp: bool, scp: bool)
  {
    predicate Fault() {
      ocp || scp
    }
  }

  /** The clock during one iteration, in program order: at the status read, at the watchdog feed,
      at the first and second `Instant::now()` of the branch taken, and before sleeping. */
  datatype Reads = Reads(status: nat, feed: nat, first: nat, second: nat, sleep: nat)
  {
    predicate Ordered() {
      status <= feed <= first <= second <= sleep
    }
  }

  /** One critical section under the supervisor's lock. */
  datatype Input =
    | Iteration(status: Status, r: Reads)
    | Persist(settings: Config.Settings)

  // ----- The four-state machine -----

  datatype Phase =
    | Idle
    | Backoff(until: nat, since: nat)
    | Starting(at: nat, origin: Option<nat>)
    | Stable
  {
    predicate On() {
      Starting? || Stable?
    }

    /** When the overcurrent episode in progress began. */
    function Since(): Option<nat> {
      match this
      case Idle => None
      case Backoff(_, since) => Some(since)
      case Starting(_, origin) => origin
      case Stable => None
    }

    function Published(): State {
      match this
      case Idle => Disabled
      case Backoff(_, _) => Ocp
      case Starting(_, _) => Enabling
      case Stable => Enabled
    }
  }

  /** `feeds` holds the clock reads at which the watchdog ticket was fed, `logged` the durations handed
      to the record, `clock` the last clock read and `wakeAt` the deadline of the sleep after the last
      of `iterations` iterations. */
  datatype RawMachine = Machine(
    phase: Phase, backoff: nat, feeds: seq<nat>, logged: seq<nat>, clock: nat, wakeAt: nat, iterations: nat)

  /** No episode began in the future. */
  type Machine = m: RawMachine | m.phase.Since().Some? ==> m.phase.Since().value <= m.clock
    witness Machine(Idle, 0, [], [], 0, 0, 0)

  /** The back-off duration is a placeholder until the settings are first persisted. */
  const INITIAL: Machine := Machine(Idle, 0, [], [], 0, 0, 0)

  function NextPhase(p: Phase, fault: bool, backoff: nat, r: Reads): Phase {
    if fault then
      Backoff(r.first + backoff, match p.Since() case Some(s) => s case None => r.second)
    else
      match p
      case Idle => Starting(r.second + STABILIZATION_DURATION, None)
      case Backoff(until, since) =>
        if until < r.first then Starting(r.second + STABILIZATION_DURATION, Some(since)) else p
      case Starting(at, _) => if at < r.first then Stable else p
      case Stable => p
  }

  /** The durations logged by a transition: an episode ends when the output has stabilised. */
  function Logs(p: Phase, p': Phase, r: Reads): seq<nat>
    requires p.Since().Some? ==> p.Since().value <= r.second
  {
    if p'.Stable? && p.Since().Some? then [AsSecs(r.second - p.Since().value)] else []
  }

  function Min(a: nat, b: nat): nat {
    if a <= b then a else b
  }

  /** Deadline of the sleep: the pending event, but never later than the watchdog allows. */
  function WakeAt(p: Phase, now: nat): nat {
    match p
    case Backoff(until, _) => Min(now + MAX_DURATION, until)
    case Starting(at, _) => Min(now + MAX_DURATION, at)
    case _ => now + MAX_DURATION
  }

  /** The clock does not run back. */
  predicate Admissible(s: Machine, i: Input) {
    i.Iteration? ==> i.r.Ordered() && s.clock <= i.r.status
  }

  function Next(s: Machine, i: Input): Machine
    requires Admissible(s, i)
  {
    match i
    case Persist(settings) => s.(backoff := Millis(settings.backoffMs))
    case Iteration(status, r) =>
      var phase := NextPhase(s.phase, status.Fault(), s.backoff, r);
      Machine(phase, s.backoff, s.feeds + [r.feed], s.logged + Logs(s.phase, phase, r), r.sleep,
              WakeAt(phase, r.sleep), s.iterations + 1)
  }

  // ----- The firmware's encoding -----

  /** `earliest_deadline`: the least of the deadlines that are set. */
  method EarliestDeadline(deadlines: seq<Option<nat>>) returns (res: Option<nat>)
    ensures res.None? <==> forall k | 0 <= k < |deadlines| :: deadlines[k].None?
    ensures res.Some? ==> res in deadlines
    ensures forall k | 0 <= k < |deadlines| && deadlines[k].Some? :: res.Some? && res.value <= deadlines[k].value
  {
    res := None;
    for k := 0 to |deadlines|
      invariant res.None? <==> forall j | 0 <= j < k :: deadlines[j].None?
      invariant res.Some? ==> res in deadlines[..k]
      invariant forall j | 0 <= j < k && deadlines[j].Some? :: res.Some? && res.value <= deadlines[j].value
    {
      if deadlines[k].Some? {
        var d := deadlines[k].value;
        if res.Some? {
          if res.value > d {
            res := Some(d);
          }
        } else {
          res := Some(d);
        }
      }
    }
  }

  class PowerExt {
    // Behind the lock.
    var backoffDuration: nat
    var state: State
    // The converter's registers.
    var oe: bool
    var dischg: bool
    var vref: nat
    var limit: nat
    // The LED pin, once commanded, the feeds of the watchdog ticket and the durations handed to the
    // record.
    var pin: Option<bool>
    var feeds: seq<nat>
    var logged: seq<nat>
    // Locals of the monitor task.
    var enabled: bool
    var backoffUntil: Option<nat>
    var stabilizedAt: Option<nat>
    var ocpSince: Option<nat>
    // The run so far.
    var clock: nat
    var wakeAt: nat
    var iterations: nat

    /** The four-state machine's view of the variables. */
    ghost function Phase(): Phase
      reads this
    {
      if !enabled then
        match (backoffUntil, ocpSince)
        case (Some(until), Some(since)) => Backoff(until, since)
        case _ => Idle
      else
        match stabilizedAt
        case Some(at) => Starting(at, ocpSince)
        case None => Stable
    }

    ghost function Model(): Machine
      requires Valid()
      reads this
    {
      Machine(Phase(), backoffDuration, feeds, logged, clock, wakeAt, iterations)
    }

    /** Exactly the right options are set in each state, and the published state, the converter's
        output and discharge bits and the pin agree with it. */
    ghost predicate Valid()
      reads this
    {
      && state == Phase().Published()
      && oe == enabled
      && dischg == !enabled
      && pin == (if Phase().Idle? then None else Some(enabled))
      && (match Phase()
          case Idle => backoffUntil.None? && stabilizedAt.None? && ocpSince.None?
          case Backoff(_, _) => stabilizedAt.None?
          case Starting(_, _) => backoffUntil.None?
          case Stable => backoffUntil.None? && ocpSince.None?)
      && (ocpSince.Some? ==> ocpSince.value <= clock)
    }

    /** `PowerExt::init`: output off and discharging, then the stored settings are persisted. */
    constructor (settings: Config.Settings)
      ensures Valid()
      ensures Model() == Next(INITIAL, Persist(settings))
      ensures vref == Tps55289.FromFeedback(settings.voutMv, Tps55289.Ratio0_0564) % Tps55289.VREF_CODES
      ensures limit == Tps55289.LimitValue(settings.ioutMa) % Tps55289.LIMIT_CODES
    {
      backoffDuration, state := 0, Disabled;
      oe, dischg, vref, limit := false, true, 0, 0;
      pin, feeds, logged := None, [], [];
      enabled, backoffUntil, stabilizedAt, ocpSince := false, None, None, None;
      clock, wakeAt, iterations := 0, 0, 0;
      new;
      PersistSettings(settings);
    }

    /** `persist`: everything but the converter's output voltage, its current limit and the
        back-off duration stays as it is, in particular a back-off in progress. Values too wide
        for their register fields are cut to them. */
    method PersistSettings(settings: Config.Settings)
      requires Valid()
      modifies this`backoffDuration, this`vref, this`limit
      ensures Valid() && backoffDuration == 1000 * settings.backoffMs
      ensures Model() == Next(old(Model()), Persist(settings))
      ensures vref == Tps55289.FromFeedback(settings.voutMv, Tps55289.Ratio0_0564) % Tps55289.VREF_CODES
      ensures limit == Tps55289.LimitValue(settings.ioutMa) % Tps55289.LIMIT_CODES
      ensures 798 <= settings.voutMv <= 21312 ==> Tps55289.Within28Millivolts(vref, settings.voutMv)
      ensures limit == settings.ioutMa / 25 % 128
      ensures settings.ioutMa <= 3199 ==> limit * 25 <= settings.ioutMa < limit * 25 + 25
    {
      Tps55289.FieldsMean(settings.voutMv, settings.ioutMa);
      var limitUv := settings.ioutMa * 20;
      var limitValue := limitUv / 500 % 256;
      backoffDuration := Millis(settings.backoffMs);
      vref := Tps55289.FromFeedback(settings.voutMv, Tps55289.Ratio0_0564) % Tps55289.VREF_CODES;
      limit := limitValue % Tps55289.LIMIT_CODES;
    }

    /** One round of `monitor_task`, up to the sleep whose deadline is returned. */
    method Monitor(status: Status, r: Reads) returns (deadline: nat)
      requires Valid()
      requires r.Ordered() && clock <= r.status
      modifies this
      ensures Valid()
      ensures Model() == Next(old(Model()), Iteration(status, r))
      ensures deadline == wakeAt
      ensures vref == old(vref) && limit == old(limit)
      ensures oe <==> state == Enabling || state == Enabled
      ensures dischg == !oe && pin == Some(oe)
      ensures status.ocp || status.scp ==> !oe && state == Ocp
      ensures !status.ocp && !status.scp && old(oe) ==> oe
    {
      React(status, r);
      deadline := SleepDeadline(r.sleep);
      RecordSleep(r.sleep, deadline);
    }

    method RecordSleep(now: nat, deadline: nat)
      requires Valid() && clock <= now
      modifies this`clock, this`wakeAt, this`iterations
      ensures Valid()
      ensures Model() == old(Model()).(clock := now, wakeAt := deadline, iterations := old(iterations) + 1)
    {
      clock, wakeAt, iterations := now, deadline, iterations + 1;
    }

    /** The critical section of a round. */
    method React(status: Status, r: Reads)
      requires Valid()
      requires r.Ordered() && clock <= r.status
      modifies this`state, this`oe, this`dischg, this`pin, this`logged, this`enabled
      modifies this`backoffUntil, this`stabilizedAt, this`ocpSince, this`clock, this`feeds
      ensures Valid() && clock == r.second
      ensures feeds == old(feeds) + [r.feed]
      ensures Phase() == NextPhase(old(Phase()), status.Fault(), backoffDuration, r)
      ensures logged == old(logged) + Logs(old(Phase()), Phase(), r)
      ensures oe <==> state == Enabling || state == Enabled
      ensures dischg == !oe && pin == Some(oe)
      ensures status.ocp || status.scp ==> !oe && state == Ocp
      ensures !status.ocp && !status.scp && old(oe) ==> oe
    {
      feeds := feeds + [r.feed];
      clock := r.second;
      if status.ocp || status.scp {
        SwitchOff(r);
      } else if !enabled {
        var activate := true;
        if backoffUntil.Some? {
          activate := backoffUntil.value < r.first;
        }
        if activate {
          SwitchOn(r);
        }
      } else if stabilizedAt.Some? {
        if stabilizedAt.value < r.first {
          Stabilize(r);
        }
      }
    }

    /** A fault was read. */
    method SwitchOff(r: Reads)
      requires Valid() && r.first <= r.second == clock
      modifies this`state, this`oe, this`dischg, this`pin, this`enabled
      modifies this`backoffUntil, this`stabilizedAt, this`ocpSince
      ensures Valid()
      ensures Phase() == NextPhase(old(Phase()), true, backoffDuration, r)
      ensures !oe && dischg && state == Ocp && pin == Some(false)
    {
      state := Ocp;
      dischg, oe := true, false;
      enabled := false;
      backoffUntil := Some(r.first + backoffDuration);
      stabilizedAt := None;
      if ocpSince.None? {
        ocpSince := Some(r.second);
      }
      pin := Some(false);
    }

    /** No fault was read, the output is off and no back-off is pending. */
    method SwitchOn(r: Reads)
      requires Valid() && !enabled
      requires backoffUntil.Some? ==> backoffUntil.value < r.first
      modifies this`state, this`oe, this`dischg, this`pin, this`enabled
      modifies this`backoffUntil, this`stabilizedAt
      ensures Valid()
      ensures Phase() == NextPhase(old(Phase()), false, backoffDuration, r) && Phase().Starting?
      ensures oe && !dischg && state == Enabling && pin == Some(true)
    {
      state := Enabling;
      dischg, oe := false, true;
      enabled := true;
      backoffUntil := None;
      pin := Some(true);
      stabilizedAt := Some(r.second + STABILIZATION_DURATION);
    }

    /** No fault was read for long enough since the output was switched on. */
    method Stabilize(r: Reads)
      requires Valid() && enabled && stabilizedAt.Some? && stabilizedAt.value < r.first
      requires clock == r.second
      modifies this`state, this`stabilizedAt, this`ocpSince, this`logged
      ensures Valid()
      ensures Phase() == NextPhase(old(Phase()), false, backoffDuration, r)
      ensures logged == old(logged) + Logs(old(Phase()), Phase(), r)
      ensures state == Enabled
    {
      state := Enabled;
      stabilizedAt := None;
      if ocpSince.Some? {
        logged := logged + [AsSecs(r.second - ocpSince.value)];
        ocpSince := None;
      }
    }

    /** The sleep ends when something is due, or else after exactly 29 s. */
    method SleepDeadline(now: nat) returns (deadline: nat)
      requires Valid()
      ensures deadline == WakeAt(Phase(), now) <= now + Secs(29)
      ensures backoffUntil.Some? ==> deadline <= backoffUntil.value
      ensures stabilizedAt.Some? ==> deadline <= stabilizedAt.value
      ensures deadline == now + Secs(29) || Some(deadline) == backoffUntil || Some(deadline) == stabilizedAt
    {
      var awakenAnywayAt := now + MAX_DURATION;
      var deadlines := [Some(awakenAnywayAt), backoffUntil, stabilizedAt];
      var earliest := EarliestDeadline(deadlines);
      assert deadlines[0].Some? && deadlines[1] == backoffUntil && deadlines[2] == stabilizedAt;
      deadline := earliest.value;
    }
  }
}
