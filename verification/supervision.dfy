/** The output supervisor as one of the watchdog's clients and as the record's source of events:
    its sleep never outlasts the watchdog, and its log adds up. */
module Supervision {
  import opened Time
  import opened Options
  import opened Watchdog
  import PowerSupervisor
  import Supervisor = SupervisorRuns
  import Record

  /** Times at which ticket `i` is fed by the first `n` watchdog events, its registration included. */
  function FeedTimes(w: Run, n: nat, i: nat): seq<nat>
    requires n <= |w.events| == |w.states| - 1
  {
    if n == 0 then []
    else FeedTimes(w, n - 1, i) + if FedBy(w.states[n - 1], w.events[n - 1]) == i then [w.events[n - 1].at] else []
  }

  /** Times at which the monitor's first `n` inputs feed its ticket. */
  function MonitorFeeds(s: Supervisor.Run, n: nat): seq<nat>
    requires n <= |s.inputs|
  {
    if n == 0 then []
    else MonitorFeeds(s, n - 1) + if s.inputs[n - 1].Iteration? then [s.inputs[n - 1].r.feed] else []
  }

  /** They are the feeds that the monitor itself carried out. */
  lemma {:induction false} MonitorFeedsTaken(s: Supervisor.Run, n: nat)
    requires Supervisor.Legal(s) && n <= |s.inputs|
    ensures s.states[n].feeds == MonitorFeeds(s, n)
  {
    if n > 0 {
      MonitorFeedsTaken(s, n - 1);
      Supervisor.StepOf(s, n - 1);
    }
  }

  /** The gap between feeds that the monitor keeps to. */
  function Gap(busy: nat, late: nat): nat {
    PowerSupervisor.MAX_DURATION + 2 * busy + late
  }

  function LastIteration(s: Supervisor.Run, n: nat): (o: Option<nat>)
    requires n <= |s.inputs|
    ensures o.Some? ==> o.value < n && s.inputs[o.value].Iteration?
    ensures o.Some? ==> forall k | o.value < k < n :: s.inputs[k].Persist?
    ensures o == None ==> MonitorFeeds(s, n) == []
    ensures o.Some? ==> var f := MonitorFeeds(s, n); |f| > 0 && f[|f| - 1] == s.inputs[o.value].r.feed
  {
    if n == 0 then None else if s.inputs[n - 1].Iteration? then Some(n - 1) else LastIteration(s, n - 1)
  }

  lemma {:induction false} MonitorFeedsSpaced(s: Supervisor.Run, n: nat, busy: nat, late: nat)
    requires Supervisor.Legal(s) && Supervisor.Prompt(s, busy, late) && n <= |s.inputs|
    ensures Spaced(MonitorFeeds(s, n), Gap(busy, late))
  {
    if n > 0 {
      MonitorFeedsSpaced(s, n - 1, busy, late);
      var last := LastIteration(s, n - 1);
      if s.inputs[n - 1].Iteration? && last.Some? {
        Supervisor.FeedGap(s, last.value, n - 1, busy, late);
        Extend(MonitorFeeds(s, n - 1), s.inputs[n - 1].r.feed, Gap(busy, late));
      }
    }
  }

  lemma {:induction false} LastFeedIsLast(w: Run, n: nat, i: nat)
    requires Legal(w) && n <= |w.events|
    ensures i < w.states[n].count ==> |FeedTimes(w, n, i)| > 0
    ensures var f := FeedTimes(w, n, i); |f| > 0 ==> f[|f| - 1] == LastFeed(w, n, i)
  {
    if n > 0 {
      LastFeedIsLast(w, n - 1, i);
      StepMoves(w, n - 1);
    }
  }

  lemma {:induction false} FeedTimesGrow(w: Run, m: nat, n: nat, i: nat)
    requires m <= n <= |w.events| == |w.states| - 1
    ensures |FeedTimes(w, m, i)| <= |FeedTimes(w, n, i)|
    ensures FeedTimes(w, n, i)[..|FeedTimes(w, m, i)|] == FeedTimes(w, m, i)
    ensures |FeedTimes(w, n, i)| > |FeedTimes(w, m, i)| ==>
              exists k :: m <= k < n && FeedTimes(w, n, i)[|FeedTimes(w, m, i)|] == w.events[k].at
  {
    if m < n {
      FeedTimesGrow(w, m, n - 1, i);
      var before, now, after := FeedTimes(w, m, i), FeedTimes(w, n - 1, i), FeedTimes(w, n, i);
      if |now| > |before| {
        assert after[|before|] == now[|before|];
      } else if |after| > |now| {
        assert after[|before|] == w.events[n - 1].at;
      }
    }
  }

  /** Feeds at most `gap` apart, up to the end of the run, are the same as punctuality at every
      event in between. */
  lemma SpacedIsPunctual(w: Run, i: nat, gap: nat)
    requires Legal(w) && |w.events| > 0
    requires Spaced(FeedTimes(w, |w.events|, i), gap)
    requires w.events[|w.events| - 1].at <= LastFeed(w, |w.events|, i) + gap
    ensures Punctual(w, i, gap)
  {
    forall n {:trigger LastFeed(w, n, i)} | 0 <= n < |w.events| && i < w.states[n].count
      ensures w.events[n].at <= LastFeed(w, n, i) + gap
    {
      var before, all := FeedTimes(w, n, i), FeedTimes(w, |w.events|, i);
      LastFeedIsLast(w, n, i);
      LastFeedIsLast(w, |w.events|, i);
      FeedTimesGrow(w, n, |w.events|, i);
      if |before| < |all| {
        assert all[|before| - 1] == before[|before| - 1];
      } else {
        assert all == before;
      }
    }
  }

  /** At time `end` a prompt monitor may still be asleep or at work: the time at which it must have fed
      again has not come. */
  predicate NotOverdue(s: Supervisor.Run, registered: nat, end: nat, busy: nat, late: nat)
    requires Supervisor.Legal(s)
  {
    var m := s.states[|s.inputs|];
    if m.iterations == 0 then end <= registered + Gap(busy, late)
    else end <= Max(m.wakeAt, m.clock) + late + busy
  }

  lemma {:induction false} IterationsCounted(s: Supervisor.Run, n: nat)
    requires Supervisor.Legal(s) && n <= |s.inputs|
    ensures s.states[n].iterations == |MonitorFeeds(s, n)|
  {
    if n > 0 {
      IterationsCounted(s, n - 1);
      Supervisor.StepOf(s, n - 1);
    }
  }

  lemma FedWithinGap(s: Supervisor.Run, registered: nat, end: nat, busy: nat, late: nat)
    requires Supervisor.Legal(s) && Supervisor.Prompt(s, busy, late)
    requires NotOverdue(s, registered, end, busy, late)
    ensures var feeds := [registered] + MonitorFeeds(s, |s.inputs|);
            end <= feeds[|feeds| - 1] + Gap(busy, late)
  {
    IterationsCounted(s, |s.inputs|);
    var last := LastIteration(s, |s.inputs|);
    if last.Some? {
      Supervisor.AsleepSince(s, last.value, |s.inputs|);
      Supervisor.StepOf(s, last.value);
      assert Supervisor.PromptStep(s.states[last.value], s.inputs[last.value], busy, late);
    }
  }

  lemma MonitorPunctual(w: Run, i: nat, registered: nat, s: Supervisor.Run, busy: nat, late: nat)
    requires Legal(w) && |w.events| > 0
    requires Supervisor.Legal(s) && Supervisor.Prompt(s, busy, late)
    requires var feeds := s.states[|s.inputs|].feeds;
             && FeedTimes(w, |w.events|, i) == [registered] + feeds
             && (feeds != [] ==> registered <= feeds[0] <= registered + Gap(busy, late))
    requires NotOverdue(s, registered, w.events[|w.events| - 1].at, busy, late)
    ensures Punctual(w, i, Gap(busy, late))
  {
    MonitorFeedsTaken(s, |s.inputs|);
    MonitorFeedsSpaced(s, |s.inputs|, busy, late);
    FedWithinGap(s, registered, w.events[|w.events| - 1].at, busy, late);
    LastFeedIsLast(w, |w.events|, i);
    SpacedIsPunctual(w, i, Gap(busy, late));
  }

  /** No false reset, composed. Take any run of the watchdog in which ticket `i` belongs to a prompt
      monitor: it is fed when registered and by the feeds of the monitor's run, and by nothing else, and
      at the last event the monitor is not overdue. If all other tickets are punctual, and the monitor's
      processing times and latency stay within the one second of slack, the hardware never resets the
      chip. */
  lemma MonitorNeverCausesReset(w: Run, i: nat, registered: nat, s: Supervisor.Run, busy: nat, late: nat)
    requires Legal(w) && |w.events| > 0 && w.events[0].at <= Gap(busy, late)
    requires Supervisor.Legal(s) && Supervisor.Prompt(s, busy, late)
    requires var feeds := s.states[|s.inputs|].feeds;
             && FeedTimes(w, |w.events|, i) == [registered] + feeds
             && (feeds != [] ==> registered <= feeds[0] <= registered + Gap(busy, late))
    requires NotOverdue(s, registered, w.events[|w.events| - 1].at, busy, late)
    requires forall j | 0 <= j < w.states[|w.events|].count && j != i :: Punctual(w, j, Gap(busy, late))
    requires 2 * busy + late < Secs(1)
    ensures Survives(w)
    ensures Spaced(w.states[|w.events|].hardware, Gap(busy, late))
  {
    var gap := Gap(busy, late);
    MonitorPunctual(w, i, registered, s, busy, late);
    NoFalseReset(w, gap);
    HardwareGaps(w, |w.events|, gap);
  }

  // ----- The record as the supervisor's ledger -----

  function Sum(s: seq<int>): int {
    if s == [] then 0 else Sum(s[..|s| - 1]) + s[|s| - 1]
  }

  /** `total` is `base` plus one event per length: counted exactly, and timed without exceeding the
      true total and with less than one second per event lost. */
  ghost predicate Tallies(base: Record.Data, total: Record.Data, lengths: seq<int>) {
    && total.count == base.count + |lengths|
    && base.secs <= total.secs
    && Secs(total.secs - base.secs) <= Sum(lengths) <= Secs(total.secs - base.secs) + |lengths| * (TICK_HZ - 1)
  }

  lemma {:induction false} LoggingTallies(base: Record.Data, lengths: seq<int>, log: seq<nat>)
    requires |log| == |lengths| && forall k | 0 <= k < |log| :: lengths[k] >= 0 && log[k] == AsSecs(lengths[k])
    ensures Tallies(base, Record.Total(base, log), lengths)
  {
    if log != [] {
      var last := |log| - 1;
      LoggingTallies(base, lengths[..last], log[..last]);
      assert Secs(log[last]) <= lengths[last] <= Secs(log[last]) + TICK_HZ - 1;
    }
  }

  lemma LogTallies(s: Supervisor.Run, n: nat, base: Record.Data)
    requires Supervisor.Legal(s) && n <= |s.inputs|
    ensures Tallies(base, Record.Total(base, s.states[n].logged), Supervisor.Lengths(s, Supervisor.Episodes(s, n)))
  {
    Supervisor.LoggedOncePerEpisode(s, n);
    var es := Supervisor.Episodes(s, n);
    var lengths := Supervisor.Lengths(s, es);
    forall k | 0 <= k < |lengths|
      ensures lengths[k] >= 0 && s.states[n].logged[k] == AsSecs(lengths[k])
    {
      assert Supervisor.Length(s, es[k]) >= 0;
    }
    LoggingTallies(base, lengths, s.states[n].logged);
  }

  /** Overcurrent accounting, from fault reads to flash. At any point of a run of the record at which
      the events logged since boot are those of the supervisor's run, the counters have grown over
      their value at boot by the number of closed episodes, and by at most their total length and less
      than one second per episode below it; and left alone, flash comes to hold those counters. */
  lemma OvercurrentAccounting(
    s: Supervisor.Run, n: nat, t: seq<Record.Step>, ws: seq<Record.World>, k: nat)
    requires Supervisor.Legal(s) && n <= |s.inputs|
    requires Record.Run(t, ws) && k <= |t| && ws[k].log == s.states[n].logged
    ensures Tallies(ws[k].base, ws[k].data, Supervisor.Lengths(s, Supervisor.Episodes(s, n)))
    ensures Record.Inv(ws[k])
    ensures ws[k].lock.Free? ==> Record.Fetched(Record.Settled(ws[k]).flash) == ws[k].data
  {
    Record.RunInv(t, ws, k);
    LogTallies(s, n, ws[k].base);
    if ws[k].lock.Free? {
      Record.SettlesWithinPeriod(ws[k]);
    }
  }
}
