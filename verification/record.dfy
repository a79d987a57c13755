/** Write-behind record of overcurrent events. Loggers update counters in RAM under a lock and ask
    `sync_task`, through a one-slot channel, to write them to flash some time later.

    The protocol is modelled as interleaved steps: the logger's steps while it holds the lock, the
    sync task's steps between its awaits, and a restart at any point. `Recorder` is the object whose
    methods take those steps in place. */
module Record {
  import opened Time
  import opened Options

  /** Shortest time between two writes of the record. */
  const SYNC_PERIOD: nat := Secs(10)

  datatype Data = Data(count: nat, secs: nat)
  {
    ghost predicate AtMost(other: Data) {
      count <= other.count && secs <= other.secs
    }
  }

  const EMPTY: Data := Data(0, 0)

  /** The lock: free, or held by a logger that has updated the counters, or by one that has set
      `sync_at` and is about to send the token. The sync task's own critical sections contain no
      await, so they are single steps. */
  datatype Lock = Free | Updated | Sending

  /** Where the sync task is: waiting for the token; holding it, before reading `sync_at`; asleep;
      awake, before clearing `sync_at`; writing its copy to flash. */
  datatype Task =
    | Waiting
    | Notified
    | Asleep(until: nat)
    | Due
    | Writing(copy: Data)
  {
    /** The token has been received and `sync_at` not yet cleared. */
    predicate Busy() {
      Notified? || Asleep? || Due?
    }
  }

  /** `base` is the value found at boot and `log` the durations logged since. `taken` and `stored`
      count how many of them the task's copies and the flash include. `bootedAt`, `lastTake` and
      `takes` describe the copies taken; a restart does not reset `takes`. */
  datatype World = World(
    data: Data, syncAt: Option<nat>, lock: Lock, token: bool, task: Task, flash: Option<Data>,
    clock: nat,
    base: Data, log: seq<nat>, taken: nat, stored: nat,
    bootedAt: nat, takes: seq<nat>)

  /** `fetch().unwrap_or_default()`. */
  function Fetched(flash: Option<Data>): Data {
    match flash case None => EMPTY case Some(d) => d
  }

  function Boot(flash: Option<Data>, now: nat, takes: seq<nat>): World {
    World(Fetched(flash), None, Free, false, Waiting, flash, now, Fetched(flash), [], 0, 0, now, takes)
  }

  datatype Step =
    | LogUpdate(secs: nat)   // lock, count the event
    | LogSchedule            // set sync_at unless it is set; otherwise unlock
    | LogSend                // send the token, unlock
    | Receive                // take the token out of the channel
    | ReadDeadline           // lock, sync_at.unwrap(), unlock
    | Wake                   // the timer fires
    | Take                   // lock, clear sync_at, copy the counters, unlock
    | Store                  // the copy is in flash
    | Tick(ticks: nat)       // time passes
    | Restart                // power cycle or watchdog reset

  /** The step is the next one of its task and the task is not blocked. */
  predicate Enabled(w: World, s: Step) {
    match s
    case LogUpdate(_) => w.lock.Free?
    case LogSchedule => w.lock.Updated?
    case LogSend => w.lock.Sending? && !w.token
    case Receive => w.task.Waiting? && w.token
    case ReadDeadline => w.task.Notified? && w.lock.Free? && w.syncAt.Some?
    case Wake => w.task.Asleep? && w.task.until <= w.clock
    case Take => w.task.Due? && w.lock.Free?
    case Store => w.task.Writing?
    case Tick(_) => true
    case Restart => true
  }

  function Next(w: World, s: Step): World
    requires Enabled(w, s)
  {
    match s
    case LogUpdate(secs) =>
      w.(data := Data(w.data.count + 1, w.data.secs + secs), lock := Updated, log := w.log + [secs])
    case LogSchedule =>
      if w.syncAt.None? then w.(syncAt := Some(w.clock + SYNC_PERIOD), lock := Sending) else w.(lock := Free)
    case LogSend => w.(token := true, lock := Free)
    case Receive => w.(token := false, task := Notified)
    case ReadDeadline => w.(task := Asleep(w.syncAt.value))
    case Wake => w.(task := Due)
    case Take =>
      w.(syncAt := None, task := Writing(w.data), taken := |w.log|, takes := w.takes + [w.clock])
    case Store => w.(flash := Some(w.task.copy), task := Waiting, stored := w.taken)
    case Tick(ticks) => w.(clock := w.clock + ticks)
    case Restart => Boot(w.flash, w.clock, w.takes)
  }

  // ----- Runs -----

  ghost predicate Run(t: seq<Step>, ws: seq<World>) {
    && |ws| == |t| + 1
    && (exists flash: Option<Data> :: ws[0] == Boot(flash, 0, []))
    && forall k | 0 <= k < |t| :: Enabled(ws[k], t[k]) && ws[k + 1] == Next(ws[k], t[k])
  }

  /** The counters after logging `log` on top of `base`. */
  function Total(base: Data, log: seq<nat>): Data {
    if log == [] then base
    else
      var before := Total(base, log[..|log| - 1]);
      Data(before.count + 1, before.secs + log[|log| - 1])
  }

  /** Token protocol: `sync_at` is set exactly while the token is in the channel or the task holds
      it, never both; while a logger is sending, neither. */
  ghost predicate TokenProtocol(w: World) {
    if w.lock.Sending? then
      w.syncAt.Some? && !w.token && !w.task.Busy()
    else
      && (w.syncAt.Some? <==> w.token || w.task.Busy())
      && !(w.token && w.task.Busy())
  }

  /** Nothing is lost: RAM, the copy in flight and flash are all sums over prefixes of one log, and
      whatever is not yet copied has a sync pending. */
  ghost predicate NothingLost(w: World) {
    && w.stored <= w.taken <= |w.log|
    && w.data == Total(w.base, w.log)
    && Fetched(w.flash) == Total(w.base, w.log[..w.stored])
    && (if w.task.Writing? then w.task.copy == Total(w.base, w.log[..w.taken]) else w.stored == w.taken)
    && (w.taken < |w.log| ==> w.syncAt.Some? || w.lock.Updated?)
  }

  /** Writes are rationed: copies are at least a sync period apart, and the next one is at least a
      sync period after the last one and after the last boot; it is never put off further. */
  ghost predicate Rationed(w: World) {
    && w.bootedAt <= w.clock
    && (w.takes != [] ==> w.takes[|w.takes| - 1] <= w.clock)
    && SpacedOut(w.takes)
    && (w.syncAt.Some? ==> NotBefore(w) <= w.syncAt.value <= w.clock + SYNC_PERIOD)
    && (w.task.Asleep? ==> w.syncAt == Some(w.task.until))
    && (w.task.Due? ==> w.syncAt.Some? && w.syncAt.value <= w.clock)
  }

  ghost predicate SpacedOut(takes: seq<nat>) {
    && (takes != [] ==> SYNC_PERIOD <= takes[0])
    && forall k | 0 < k < |takes| :: takes[k - 1] + SYNC_PERIOD <= takes[k]
  }

  /** Earliest time of the next copy as far as the past goes. */
  function NotBefore(w: World): nat {
    SYNC_PERIOD + if w.takes == [] || w.takes[|w.takes| - 1] < w.bootedAt then w.bootedAt else w.takes[|w.takes| - 1]
  }

  ghost predicate Inv(w: World) {
    TokenProtocol(w) && NothingLost(w) && Rationed(w)
  }

  lemma TotalAppend(base: Data, log: seq<nat>, secs: nat)
    ensures Total(base, log + [secs]) == Data(Total(base, log).count + 1, Total(base, log).secs + secs)
  {
  }

  lemma BootInv(flash: Option<Data>, now: nat, takes: seq<nat>)
    requires SpacedOut(takes) && (takes != [] ==> takes[|takes| - 1] <= now)
    ensures Inv(Boot(flash, now, takes))
  {
  }

  lemma StepKeepsToken(w: World, s: Step)
    requires TokenProtocol(w) && Enabled(w, s)
    ensures TokenProtocol(Next(w, s))
  {
  }

  lemma StepLosesNothing(w: World, s: Step)
    requires TokenProtocol(w) && NothingLost(w) && Enabled(w, s)
    ensures NothingLost(Next(w, s))
  {
    var w' := Next(w, s);
    match s
    case LogUpdate(secs) =>
      TotalAppend(w.base, w.log, secs);
      assert w'.log[..w.stored] == w.log[..w.stored];
      assert w'.log[..w.taken] == w.log[..w.taken];
    case Take =>
      assert w.log[..|w.log|] == w.log;
    case _ =>
  }

  lemma StepKeepsRation(w: World, s: Step)
    requires Rationed(w) && Enabled(w, s)
    ensures Rationed(Next(w, s))
  {
  }

  /** Every step of every task, and a restart between any two, keeps the three invariants. */
  lemma StepInv(w: World, s: Step)
    requires Inv(w) && Enabled(w, s)
    ensures Inv(Next(w, s))
  {
    StepKeepsToken(w, s);
    StepLosesNothing(w, s);
    StepKeepsRation(w, s);
  }

  lemma {:induction false} RunInv(t: seq<Step>, ws: seq<World>, k: nat)
    requires Run(t, ws) && k <= |t|
    ensures Inv(ws[k])
  {
    if k == 0 {
      var flash: Option<Data> :| ws[0] == Boot(flash, 0, []);
      BootInv(flash, 0, []);
    } else {
      RunInv(t, ws, k - 1);
      StepInv(ws[k - 1], t[k - 1]);
    }
  }

  // ----- What the invariants are for -----

  /** A logger never waits for the channel while it holds the lock, and the sync task never unwraps
      a `None`: both steps are enabled whenever they are next. */
  lemma NeverBlocksNeverPanics(t: seq<Step>, ws: seq<World>, k: nat)
    requires Run(t, ws) && k <= |t|
    ensures ws[k].lock.Sending? ==> Enabled(ws[k], LogSend)
    ensures ws[k].task.Notified? && ws[k].lock.Free? ==> Enabled(ws[k], ReadDeadline)
  {
    RunInv(t, ws, k);
  }

  /** No lost update: if flash differs from RAM, a sync is pending or the copy in flight is RAM. */
  lemma NoLostUpdate(t: seq<Step>, ws: seq<World>, k: nat)
    requires Run(t, ws) && k <= |t|
    ensures var w := ws[k];
            Fetched(w.flash) != w.data ==> w.syncAt.Some? || w.lock.Updated? || w.task == Writing(w.data)
  {
    RunInv(t, ws, k);
    var w := ws[k];
    if w.taken == |w.log| {
      assert w.log[..w.taken] == w.log;
    }
  }

  lemma {:induction false} TotalGrows(base: Data, log: seq<nat>, n: nat)
    requires n <= |log|
    ensures base.AtMost(Total(base, log[..n])) && Total(base, log[..n]).AtMost(Total(base, log))
    ensures Total(base, log).count == base.count + |log|
  {
    if n < |log| {
      assert log[..|log| - 1][..n] == log[..n];
      TotalGrows(base, log[..|log| - 1], n);
    } else {
      assert log[..n] == log;
      if n > 0 {
        TotalGrows(base, log[..n - 1], n - 1);
        assert log[..n - 1][..n - 1] == log[..n - 1];
      }
    }
  }

  /** Flash is never ahead of RAM, and no step, restarts included, makes it go back. */
  lemma FlashMonotone(w: World, s: Step)
    requires Inv(w) && Enabled(w, s)
    ensures Fetched(w.flash).AtMost(w.data)
    ensures Fetched(w.flash).AtMost(Fetched(Next(w, s).flash))
  {
    TotalGrows(w.base, w.log, w.stored);
    TotalGrows(w.base, w.log[..w.taken], w.stored);
    assert w.log[..w.taken][..w.stored] == w.log[..w.stored];
  }

  /** Crash consistency: what flash holds, and so what a restart resumes from, is a value that RAM
      really had earlier in the run. */
  lemma {:induction false} FlashHoldsPastValue(t: seq<Step>, ws: seq<World>, n: nat)
    requires Run(t, ws) && n <= |t|
    ensures exists k :: 0 <= k <= n && ws[k].data == Fetched(ws[n].flash)
    ensures ws[n].task.Writing? ==> exists k :: 0 <= k <= n && ws[k].data == ws[n].task.copy
  {
    if n == 0 {
      assert ws[0].data == Fetched(ws[0].flash);
    } else {
      FlashHoldsPastValue(t, ws, n - 1);
      var k :| 0 <= k <= n - 1 && ws[k].data == Fetched(ws[n - 1].flash);
      assert ws[n] == Next(ws[n - 1], t[n - 1]);
      if ws[n - 1].task.Writing? {
        var c :| 0 <= c <= n - 1 && ws[c].data == ws[n - 1].task.copy;
      } else if t[n - 1].Take? {
        assert ws[n - 1].data == ws[n].task.copy;
      }
    }
  }

  // ----- Nothing waits for ever -----

  /** Steps left for the sync task before it is idle with an empty channel. */
  function Rank(w: World): nat {
    (if w.token then 6 else 0) +
    match w.task
    case Waiting => 0
    case Writing(_) => 1
    case Due => 2
    case Asleep(until) => if w.clock < until then 4 else 3
    case Notified => 5
  }

  /** What the sync task does next when nothing is logged; asleep, it waits for its timer. */
  function SyncStep(w: World): (s: Step)
    requires TokenProtocol(w) && w.lock.Free? && Rank(w) > 0
    ensures Enabled(w, s)
  {
    match w.task
    case Waiting => Receive
    case Notified => ReadDeadline
    case Asleep(until) => if w.clock < until then Tick(until - w.clock) else Wake
    case Due => Take
    case Writing(_) => Store
  }

  /** Let the sync task run on. */
  function Settled(w: World): World
    requires Inv(w) && w.lock.Free?
    decreases Rank(w)
  {
    if Rank(w) == 0 then w
    else
      StepInv(w, SyncStep(w));
      Settled(Next(w, SyncStep(w)))
  }

  /** When flash is up to date again if nothing more is logged. */
  function DueTime(w: World): nat {
    if w.syncAt.Some? && w.clock < w.syncAt.value then w.syncAt.value else w.clock
  }

  lemma SyncStepApproaches(w: World)
    requires Inv(w) && w.lock.Free? && Rank(w) > 0
    ensures var w' := Next(w, SyncStep(w));
            Rank(w') < Rank(w) && DueTime(w') == DueTime(w) && w'.data == w.data && w'.lock.Free?
  {
  }

  /** Left alone, the sync task brings flash up to date with RAM: when the pending sync is due, or at
      once, and so within one sync period. */
  lemma {:induction false} SettlesWithinPeriod(w: World)
    requires Inv(w) && w.lock.Free?
    ensures Settled(w).data == w.data && Fetched(Settled(w).flash) == w.data
    ensures Settled(w).clock == DueTime(w) <= w.clock + Secs(10)
    decreases Rank(w)
  {
    if Rank(w) == 0 {
      assert w.log[..|w.log|] == w.log;
    } else {
      SyncStepApproaches(w);
      StepInv(w, SyncStep(w));
      SettlesWithinPeriod(Next(w, SyncStep(w)));
    }
  }

  // ----- Wear -----

  /** Writes to flash within the first `n` steps. */
  function Stores(t: seq<Step>, n: nat): nat
    requires n <= |t|
  {
    if n == 0 then 0 else Stores(t, n - 1) + if t[n - 1].Store? then 1 else 0
  }

  /** No sync falls due within the next 10 s. */
  predicate Rested(w: World) {
    w.syncAt.None? || w.clock + SYNC_PERIOD <= w.syncAt.value
  }

  /** Since `w0` at most one copy per 10 s has been taken, and the next one keeps to that too. */
  ghost predicate WithinRation(w0: World, w: World) {
    && |w0.takes| <= |w.takes|
    && var spent := w0.clock + (|w.takes| - |w0.takes|) * SYNC_PERIOD;
       spent <= w.clock && (w.syncAt.Some? ==> spent + SYNC_PERIOD <= w.syncAt.value)
  }

  lemma StepWithinRation(w0: World, w: World, s: Step)
    requires Inv(w) && WithinRation(w0, w) && Enabled(w, s)
    ensures WithinRation(w0, Next(w, s))
  {
  }

  /** Copies from a rested state on: at most the elapsed time over 10 s, whatever is logged and however
      often the device restarts. */
  lemma CopiesFrom(t: seq<Step>, ws: seq<World>, m: nat, n: nat)
    requires Run(t, ws) && m <= n <= |t| && Rested(ws[m])
    ensures (|ws[n].takes| - |ws[m].takes|) * SYNC_PERIOD <= ws[n].clock - ws[m].clock
  {
    StaysWithinRation(t, ws, m, n);
  }

  lemma {:induction false} StaysWithinRation(t: seq<Step>, ws: seq<World>, m: nat, n: nat)
    requires Run(t, ws) && m <= n <= |t| && Rested(ws[m])
    ensures WithinRation(ws[m], ws[n])
  {
    if m < n {
      StaysWithinRation(t, ws, m, n - 1);
      RunInv(t, ws, n - 1);
      StepWithinRation(ws[m], ws[n - 1], t[n - 1]);
    }
  }

  function InFlight(w: World): nat {
    if w.task.Writing? then 1 else 0
  }

  lemma {:induction false} StoresFollowCopies(t: seq<Step>, ws: seq<World>, m: nat, n: nat)
    requires Run(t, ws) && m <= n <= |t|
    ensures Stores(t, n) - Stores(t, m) + InFlight(ws[n]) <= |ws[n].takes| - |ws[m].takes| + InFlight(ws[m])
  {
    if m < n {
      StoresFollowCopies(t, ws, m, n - 1);
      assert ws[n] == Next(ws[n - 1], t[n - 1]);
    }
  }

  /** Flash wear: whatever is logged and however often the device restarts, from power-up to any
      time T the record is written at most T / 10 s times. */
  lemma WearBound(t: seq<Step>, ws: seq<World>, n: nat)
    requires Run(t, ws) && n <= |t|
    ensures Stores(t, n) * Secs(10) <= ws[n].clock
  {
    CopiesFrom(t, ws, 0, n);
    StoresFollowCopies(t, ws, 0, n);
  }

  /** Conversely, a sync that falls due sooner is carried out sooner: left alone, a state that is not
      rested is followed by a copy in less than 10 s. */
  lemma {:induction false} DueSoonCopiesSoon(w: World)
    requires Inv(w) && w.lock.Free? && !Rested(w)
    ensures |Settled(w).takes| > |w.takes| && Settled(w).clock < w.clock + SYNC_PERIOD
  {
    SettlesWithinPeriod(w);
    SettledCopies(w);
  }

  lemma {:induction false} SettledCopies(w: World)
    requires Inv(w) && w.lock.Free?
    ensures |Settled(w).takes| >= |w.takes| + if w.syncAt.Some? then 1 else 0
    ensures !Settled(w).task.Writing?
    decreases Rank(w)
  {
    if Rank(w) > 0 {
      SyncStepApproaches(w);
      StepInv(w, SyncStep(w));
      SettledCopies(Next(w, SyncStep(w)));
    }
  }

  ghost predicate Extends(t: seq<Step>, ws: seq<World>, t': seq<Step>, ws': seq<World>) {
    Run(t, ws) && Run(t', ws') && t <= t' && ws <= ws'
  }

  /** The flash writes that the longer run adds are at most one per 10 s that it adds. */
  ghost predicate WritesRationed(t: seq<Step>, ws: seq<World>, t': seq<Step>, ws': seq<World>)
    requires Extends(t, ws, t', ws')
  {
    (Stores(t', |t'|) - Stores(t, |t|)) * SYNC_PERIOD <= ws'[|t'|].clock - ws[|t|].clock
  }

  /** Flash wear from any point on: the bound holds for everything that may follow if and only if at
      that point no copy is being written and no sync falls due within the next 10 s. */
  lemma WearFromIff(t: seq<Step>, ws: seq<World>)
    requires Run(t, ws)
    ensures (forall t', ws' | Extends(t, ws, t', ws') :: WritesRationed(t, ws, t', ws'))
       <==> !ws[|t|].task.Writing? && Rested(ws[|t|])
  {
    var w := ws[|t|];
    if !w.task.Writing? && Rested(w) {
      forall t', ws' | Extends(t, ws, t', ws')
        ensures WritesRationed(t, ws, t', ws')
      {
        StoresOfPrefix(t, t', |t|);
        StoresFollowCopies(t', ws', |t|, |t'|);
        CopiesFrom(t', ws', |t|, |t'|);
      }
    } else {
      var t', ws' := WearsSoon(t, ws);
      assert !WritesRationed(t, ws, t', ws');
    }
  }

  /** Otherwise the run can go on with a write in less than 10 s. */
  lemma WearsSoon(t: seq<Step>, ws: seq<World>) returns (t': seq<Step>, ws': seq<World>)
    requires Run(t, ws) && (ws[|t|].task.Writing? || !Rested(ws[|t|]))
    ensures Extends(t, ws, t', ws')
    ensures Stores(t', |t'|) > Stores(t, |t|) && ws'[|t'|].clock < ws[|t|].clock + SYNC_PERIOD
  {
    if ws[|t|].task.Writing? {
      t', ws' := Extended(t, ws, Store);
    } else {
      var t1, ws1 := Unlocked(t, ws);
      RunInv(t1, ws1, |t1|);
      DueSoonCopiesSoon(ws1[|t1|]);
      SettledCopies(ws1[|t1|]);
      t', ws' := RunSettled(t1, ws1);
    }
  }

  /** A logger that finds a sync pending, or has set one, needs one more step. */
  lemma Unlocked(t: seq<Step>, ws: seq<World>) returns (t': seq<Step>, ws': seq<World>)
    requires Run(t, ws) && ws[|t|].syncAt.Some?
    ensures Extends(t, ws, t', ws') && Stores(t', |t'|) == Stores(t, |t|)
    ensures ws'[|t'|].lock.Free? && ws'[|t'|].syncAt == ws[|t|].syncAt && ws'[|t'|].clock == ws[|t|].clock
  {
    RunInv(t, ws, |t|);
    match ws[|t|].lock
    case Free => t', ws' := t, ws;
    case Updated => t', ws' := Extended(t, ws, LogSchedule);
    case Sending => t', ws' := Extended(t, ws, LogSend);
  }

  /** Letting the sync task run on is a run. */
  lemma {:induction false} RunSettled(t: seq<Step>, ws: seq<World>) returns (t': seq<Step>, ws': seq<World>)
    requires Run(t, ws) && Inv(ws[|t|]) && ws[|t|].lock.Free?
    ensures Extends(t, ws, t', ws') && ws'[|t'|] == Settled(ws[|t|])
    ensures Stores(t', |t'|) - Stores(t, |t|) + InFlight(Settled(ws[|t|]))
         == |Settled(ws[|t|]).takes| - |ws[|t|].takes| + InFlight(ws[|t|])
    decreases Rank(ws[|t|])
  {
    var w := ws[|t|];
    t', ws' := t, ws;
    if Rank(w) > 0 {
      SyncStepApproaches(w);
      StepInv(w, SyncStep(w));
      t', ws' := Extended(t, ws, SyncStep(w));
      t', ws' := RunSettled(t', ws');
    }
  }

  lemma {:induction false} StoresOfPrefix(t: seq<Step>, t': seq<Step>, n: nat)
    requires t <= t' && n <= |t|
    ensures Stores(t', n) == Stores(t, n)
  {
    if n > 0 {
      StoresOfPrefix(t, t', n - 1);
    }
  }

  lemma Extended(t: seq<Step>, ws: seq<World>, s: Step) returns (t': seq<Step>, ws': seq<World>)
    requires Run(t, ws) && Enabled(ws[|t|], s)
    ensures Extends(t, ws, t', ws') && |t'| == |t| + 1 && ws'[|t'|] == Next(ws[|t|], s)
    ensures Stores(t', |t'|) == Stores(t, |t|) + if s.Store? then 1 else 0
  {
    t', ws' := t + [s], ws + [Next(ws[|t|], s)];
    StoresOfPrefix(t, t', |t|);
  }

  /** So the bound that holds from power-up does not hold from everywhere: whatever is logged first,
      the record is written within one tick of a state in which the sync is due in one tick. */
  lemma WriteInOneTick(flash: Option<Data>, secs: nat)
    returns (t: seq<Step>, ws: seq<World>, t': seq<Step>, ws': seq<World>)
    ensures Extends(t, ws, t', ws') && !ws[|t|].task.Writing? && ws[|t|].syncAt == Some(ws[|t|].clock + 1)
    ensures Stores(t', |t'|) == Stores(t, |t|) + 1 && ws'[|t'|].clock == ws[|t|].clock + 1
  {
    t, ws := AsleepAtFirst(flash, secs);
    t, ws := Extended(t, ws, Tick(SYNC_PERIOD - 1));
    t', ws' := Extended(t, ws, Tick(1));
    t', ws' := Extended(t', ws', Wake);
    t', ws' := Extended(t', ws', Take);
    t', ws' := Extended(t', ws', Store);
  }

  lemma AsleepAtFirst(flash: Option<Data>, secs: nat) returns (t: seq<Step>, ws: seq<World>)
    ensures Run(t, ws) && ws[|t|].lock.Free? && ws[|t|].task == Asleep(SYNC_PERIOD)
    ensures ws[|t|].clock == 0 && ws[|t|].syncAt == Some(SYNC_PERIOD)
  {
    t, ws := [], [Boot(flash, 0, [])];
    t, ws := Extended(t, ws, LogUpdate(secs));
    t, ws := Extended(t, ws, LogSchedule);
    t, ws := Extended(t, ws, LogSend);
    t, ws := Extended(t, ws, Receive);
    t, ws := Extended(t, ws, ReadDeadline);
  }

  lemma {:induction false} TakesApart(takes: seq<nat>, a: nat, b: nat)
    requires SpacedOut(takes) && a <= b < |takes|
    ensures takes[a] + (b - a) * SYNC_PERIOD <= takes[b]
    ensures (a + 1) * SYNC_PERIOD <= takes[a]
  {
    if a < b {
      TakesApart(takes, a, b - 1);
    } else if a > 0 {
      TakesApart(takes, a - 1, a - 1);
    }
  }

  /** In a window that does not begin at power-up one more copy fits: all copies but one number at
      most its length over 10 s. */
  lemma WearInWindow(t: seq<Step>, ws: seq<World>, n: nat, a: nat, b: nat, from: nat, to: nat)
    requires Run(t, ws) && n <= |t| && a <= b < |ws[n].takes|
    requires from <= ws[n].takes[a] && ws[n].takes[b] <= to
    ensures (b - a) * SYNC_PERIOD <= to - from
  {
    RunInv(t, ws, n);
    TakesApart(ws[n].takes, a, b);
  }

  // ----- The object -----

  /** All of `log_overcurrent`: one critical section, since sending the token never blocks. */
  function Logged(w: World, secs: nat): World
    requires TokenProtocol(w) && w.lock.Free?
  {
    var w1 := Next(w, LogUpdate(secs));
    var w2 := Next(w1, LogSchedule);
    if w2.lock.Sending? then Next(w2, LogSend) else w2
  }

  lemma LoggedInv(w: World, secs: nat)
    requires Inv(w) && w.lock.Free?
    ensures Inv(Logged(w, secs))
  {
    StepInv(w, LogUpdate(secs));
    var w1 := Next(w, LogUpdate(secs));
    StepInv(w1, LogSchedule);
    var w2 := Next(w1, LogSchedule);
    if w2.lock.Sending? {
      StepInv(w2, LogSend);
    }
  }

  lemma LoggedEffect(w: World, secs: nat)
    requires TokenProtocol(w) && w.lock.Free?
    ensures Logged(w, secs) == w.(
              data := Data(w.data.count + 1, w.data.secs + secs), log := w.log + [secs],
              syncAt := if w.syncAt.None? then Some(w.clock + SYNC_PERIOD) else w.syncAt,
              token := w.token || w.syncAt.None?)
  {
  }

  lemma TakeEffect(w: World)
    requires Inv(w) && Enabled(w, Wake) && w.lock.Free?
    ensures Enabled(Next(w, Wake), Take) && Inv(Next(Next(w, Wake), Take))
    ensures Next(Next(w, Wake), Take) == w.(
              syncAt := None, task := Writing(w.data), taken := |w.log|, takes := w.takes + [w.clock])
  {
    StepInv(w, Wake);
    StepInv(Next(w, Wake), Take);
  }

  class Recorder {
    // Behind the lock.
    var data: Data
    var syncAt: Option<nat>
    // The one-slot channel, the sync task's position and the flash entry.
    var token: bool
    var task: Task
    var flash: Option<Data>
    var clock: nat
    // The history that the invariants speak about.
    ghost var base: Data
    ghost var log: seq<nat>
    ghost var taken: nat
    ghost var stored: nat
    ghost var bootedAt: nat
    ghost var takes: seq<nat>

    ghost function State(): World
      reads this
    {
      World(data, syncAt, Free, token, task, flash, clock, base, log, taken, stored, bootedAt, takes)
    }

    ghost predicate Valid()
      reads this
    {
      Inv(State())
    }

    /** `Record::init`. */
    constructor (flash: Option<Data>, now: nat, ghost earlier: seq<nat>)
      requires SpacedOut(earlier) && (earlier != [] ==> earlier[|earlier| - 1] <= now)
      ensures Valid() && State() == Boot(flash, now, earlier)
      ensures data == match flash case Some(d) => d case None => Data(0, 0)
    {
      data := Fetched(flash);
      syncAt, token, task := None, false, Waiting;
      this.flash, clock := flash, now;
      base, log, taken, stored, bootedAt, takes := Fetched(flash), [], 0, 0, now, earlier;
      new;
      BootInv(flash, now, earlier);
    }

    /** Time passes, so that a sleeping sync task's timer fires eventually. */
    method Elapse(ticks: nat)
      requires Valid()
      modifies this`clock
      ensures Valid()
      ensures State() == Next(old(State()), Step.Tick(ticks))
    {
      StepInv(State(), Step.Tick(ticks));
      clock := clock + ticks;
      assert State() == Next(old(State()), Step.Tick(ticks));
    }

    /** `log_overcurrent`, with `schedule_sync` inlined. */
    method LogOvercurrent(durationSecs: nat)
      requires Valid()
      modifies this`data, this`syncAt, this`token, this`log
      ensures Valid()
      ensures State() == Logged(old(State()), durationSecs)
      ensures data == Data(old(data).count + 1, old(data).secs + durationSecs)
    {
      LoggedInv(State(), durationSecs);
      LoggedEffect(State(), durationSecs);
      data := Data(data.count + 1, data.secs + durationSecs);
      log := log + [durationSecs];
      if syncAt.None? {
        syncAt := Some(clock + SYNC_PERIOD);
        token := true;
      }
      assert State() == Logged(old(State()), durationSecs);
    }

    /** `sync_task` up to its sleep. */
    method AwaitToken()
      requires Valid() && Enabled(State(), Receive)
      modifies this`token, this`task
      ensures Valid()
      ensures State() == Next(Next(old(State()), Receive), ReadDeadline)
    {
      StepInv(State(), Receive);
      token := false;
      task := Notified;
      StepInv(State(), ReadDeadline);
      var until := syncAt.value;
      task := Asleep(until);
    }

    /** `sync_task` after its sleep: take the copy, then store it outside the lock. */
    method TakeCopy()
      requires Valid() && Enabled(State(), Wake)
      modifies this`syncAt, this`task, this`taken, this`takes
      ensures Valid()
      ensures State() == Next(Next(old(State()), Wake), Take)
    {
      TakeEffect(State());
      syncAt := None;
      task := Writing(data);
      taken, takes := |log|, takes + [clock];
    }

    method StoreCopy()
      requires Valid() && Enabled(State(), Step.Store)
      modifies this`flash, this`task, this`stored
      ensures Valid()
      ensures State() == Next(old(State()), Step.Store)
    {
      StepInv(State(), Step.Store);
      flash := Some(task.copy);
      task := Waiting;
      stored := taken;
    }
  }
}
