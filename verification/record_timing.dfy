/** How much a restart can lose while logging goes on: what a sync task and loggers that are never
    held up for long keep to. Whatever is logged, and whenever, each event is in flash one sync period
    and a few delays later. */
module RecordTiming {
  import opened Time
  import opened Record

  /** History that a run determines: when the sync task's next step became possible, when the lock was
      last taken by a logger, and when each event in the log was logged. */
  datatype Clocks = Clocks(ready: nat, locked: nat, loggedAt: seq<nat>)

  /** The sync task has something to do now, but for the lock. */
  predicate Ready(w: World) {
    match w.task
    case Waiting => w.token
    case Asleep(until) => until <= w.clock
    case _ => true
  }

  function Tracked(c: Clocks, w: World, s: Step): Clocks
    requires Enabled(w, s)
  {
    var w' := Next(w, s);
    Clocks(
      if Ready(w) && w'.task == w.task then c.ready
      else if w'.task.Asleep? then Max(w.clock, w'.task.until) else w.clock,
      if s.LogUpdate? then w.clock else c.locked,
      match s case LogUpdate(_) => c.loggedAt + [w.clock] case Restart => [] case _ => c.loggedAt)
  }

  ghost predicate Tracks(t: seq<Step>, ws: seq<World>, cs: seq<Clocks>)
    requires Run(t, ws)
  {
    && |cs| == |ws|
    && cs[0] == Clocks(0, 0, [])
    && forall k {:trigger Enabled(ws[k], t[k])} | 0 <= k < |t| :: cs[k + 1] == Tracked(cs[k], ws[k], t[k])
  }

  /** No step of the sync task is more than `delay` late, be it for the lock, the flash or the other
      tasks, and no logger holds the lock for longer. */
  predicate OnTime(w: World, c: Clocks, delay: nat) {
    && (Ready(w) ==> w.clock <= c.ready + delay)
    && (!w.lock.Free? ==> w.clock <= c.locked + delay)
  }

  /** From the scheduling of a sync, the time after which the sync task can wake up at the latest. */
  function Sleep(delay: nat): nat {
    Max(SYNC_PERIOD, 3 * delay)
  }

  // ----- Invariants -----

  ghost predicate HistoryFits(w: World, c: Clocks) {
    && |c.loggedAt| == |w.log|
    && (Ready(w) ==> c.ready <= w.clock)
    && c.locked <= w.clock
    && (w.lock.Updated? ==> w.log != [] && c.loggedAt[|w.log| - 1] == c.locked)
    && (w.syncAt.None? && w.taken < |w.log| ==> w.lock.Updated? && w.taken + 1 == |w.log|)
  }

  /** When a sync is scheduled, each stage of the sync task has begun in time. */
  ghost predicate StagesInTime(w: World, c: Clocks, delay: nat) {
    w.syncAt.Some? ==>
      var scheduled := w.syncAt.value - SYNC_PERIOD;
      && scheduled >= 0
      && (w.lock.Sending? ==> c.locked <= scheduled)
      && match w.task
         case Waiting => w.token ==> c.ready <= scheduled + delay
         case Notified => c.ready <= scheduled + 2 * delay
         case Asleep(_) => c.ready <= scheduled + Sleep(delay)
         case Due => c.ready <= scheduled + Sleep(delay) + delay
         case Writing(_) => c.ready <= scheduled
  }

  /** Events not copied yet have a sync scheduled soon after them; those in the copy in flight were
      copied in time. */
  ghost predicate EventsInTime(w: World, c: Clocks, delay: nat)
    requires |c.loggedAt| == |w.log|
  {
    && (w.syncAt.Some? ==>
          forall j | w.taken <= j < |w.log| :: w.syncAt.value - SYNC_PERIOD <= c.loggedAt[j] + delay)
    && (w.task.Writing? ==>
          forall j | w.stored <= j < w.taken && j < |w.log| :: c.ready <= c.loggedAt[j] + Sleep(delay) + 3 * delay)
  }

  ghost predicate Timely(w: World, c: Clocks, delay: nat) {
    HistoryFits(w, c) && StagesInTime(w, c, delay) && EventsInTime(w, c, delay)
  }

  lemma StepFits(w: World, c: Clocks, s: Step)
    requires Inv(w) && HistoryFits(w, c) && Enabled(w, s)
    ensures HistoryFits(Next(w, s), Tracked(c, w, s))
  {
  }

  lemma StepStagesInTime(w: World, c: Clocks, delay: nat, s: Step)
    requires Inv(w) && Timely(w, c, delay) && OnTime(w, c, delay) && Enabled(w, s)
    ensures StagesInTime(Next(w, s), Tracked(c, w, s), delay)
  {
  }

  lemma StepEventsInTime(w: World, c: Clocks, delay: nat, s: Step)
    requires Inv(w) && Timely(w, c, delay) && OnTime(w, c, delay) && Enabled(w, s)
    ensures |Tracked(c, w, s).loggedAt| == |Next(w, s).log|
    ensures EventsInTime(Next(w, s), Tracked(c, w, s), delay)
  {
  }

  lemma {:induction false} StaysTimely(t: seq<Step>, ws: seq<World>, cs: seq<Clocks>, n: nat, delay: nat)
    requires Run(t, ws) && Tracks(t, ws, cs) && n <= |t|
    requires forall k | 0 <= k < n :: OnTime(ws[k], cs[k], delay)
    ensures Timely(ws[n], cs[n], delay)
  {
    if n > 0 {
      var w, c, s := ws[n - 1], cs[n - 1], t[n - 1];
      StaysTimely(t, ws, cs, n - 1, delay);
      RunInv(t, ws, n - 1);
      assert Enabled(w, s) && OnTime(w, c, delay);
      StepFits(w, c, s);
      StepStagesInTime(w, c, delay, s);
      StepEventsInTime(w, c, delay, s);
    }
  }

  /** Bounded loss: however the logging goes on, a restart at any moment comes up with all events of
      the log but the ones from some point on, and each of those was logged at most a sync period and
      four delays ago, or seven delays if three are longer than the period. */
  lemma BoundedLoss(t: seq<Step>, ws: seq<World>, cs: seq<Clocks>, n: nat, delay: nat)
    requires Run(t, ws) && Tracks(t, ws, cs) && n <= |t|
    requires forall k | 0 <= k <= n :: OnTime(ws[k], cs[k], delay)
    ensures var w := ws[n];
            && w.stored <= |w.log| == |cs[n].loggedAt|
            && Next(w, Restart).data == Total(w.base, w.log[..w.stored])
            && forall j | w.stored <= j < |w.log| :: w.clock <= cs[n].loggedAt[j] + Sleep(delay) + 4 * delay
  {
    RunInv(t, ws, n);
    StaysTimely(t, ws, cs, n, delay);
    UnstoredIsRecent(ws[n], cs[n], delay);
  }

  lemma UnstoredIsRecent(w: World, c: Clocks, delay: nat)
    requires Inv(w) && Timely(w, c, delay) && OnTime(w, c, delay)
    ensures forall j | w.stored <= j < |w.log| :: w.clock <= c.loggedAt[j] + Sleep(delay) + 4 * delay
  {
  }
}
