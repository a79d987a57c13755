/** Whole runs of the output supervisor: any interleaving of monitor iterations and persisted
    settings, with a clock that never runs back. */
module SupervisorRuns {
  import opened Time
  import opened Options
  import opened PowerSupervisor
  import Config

  /** Inputs, and the states before the first and after each. */
  datatype Run = Run(inputs: seq<Input>, states: seq<Machine>)

  ghost predicate Legal(r: Run) {
    && |r.states| == |r.inputs| + 1
    && r.states[0] == INITIAL
    && forall n {:trigger Admissible(r.states[n], r.inputs[n])} | 0 <= n < |r.inputs| ::
         Admissible(r.states[n], r.inputs[n]) && r.states[n + 1] == Next(r.states[n], r.inputs[n])
  }

  lemma StepOf(r: Run, n: nat)
    requires Legal(r) && n < |r.inputs|
    ensures Admissible(r.states[n], r.inputs[n])
    ensures r.states[n + 1] == Next(r.states[n], r.inputs[n])
  {
    assert Admissible(r.states[n], r.inputs[n]);
  }

  predicate FaultAt(r: Run, k: nat)
    requires k < |r.inputs|
  {
    r.inputs[k].Iteration? && r.inputs[k].status.Fault()
  }

  ghost predicate NoFault(r: Run, from: nat, to: nat) {
    forall k | from <= k < to && k < |r.inputs| :: !FaultAt(r, k)
  }

  /** Input `k` switches the output on. */
  predicate Enables(r: Run, k: nat)
    requires k < |r.inputs| == |r.states| - 1
  {
    !r.states[k].phase.On() && r.states[k + 1].phase.On()
  }

  /** The back-off duration most recently persisted. */
  function InForce(r: Run, n: nat): nat
    requires n <= |r.inputs|
  {
    if n == 0 then 0
    else if r.inputs[n - 1].Persist? then Millis(r.inputs[n - 1].settings.backoffMs)
    else InForce(r, n - 1)
  }

  /** End of the back-off that a fault read calls for. */
  function Deadline(r: Run, j: nat): nat
    requires j < |r.inputs| && FaultAt(r, j)
  {
    r.inputs[j].r.first + InForce(r, j)
  }

  lemma {:induction false} BackoffInForce(r: Run, n: nat)
    requires Legal(r) && n <= |r.inputs|
    ensures r.states[n].backoff == InForce(r, n)
  {
    if n > 0 {
      BackoffInForce(r, n - 1);
      StepOf(r, n - 1);
    }
  }

  lemma {:induction false} ClockMonotone(r: Run, m: nat, n: nat)
    requires Legal(r) && m <= n <= |r.inputs|
    ensures r.states[m].clock <= r.states[n].clock
  {
    if m < n {
      ClockMonotone(r, m, n - 1);
      StepOf(r, n - 1);
    }
  }

  // ----- Refinement -----

  /** The output starts disabled and is never published as such again once the monitor has run. */
  lemma {:induction false} DisabledOnlyBeforeFirstIteration(r: Run, n: nat)
    requires Legal(r) && n <= |r.inputs|
    ensures r.states[n].phase.Published() == Disabled <==> forall k | 0 <= k < n :: r.inputs[k].Persist?
  {
    if n > 0 {
      DisabledOnlyBeforeFirstIteration(r, n - 1);
      StepOf(r, n - 1);
    }
  }

  /** The output follows the status bits: overcurrent or a short circuit switches it off from any state,
      anything else, over-voltage included, leaves it on, and the first iteration without either switches
      it on. */
  lemma OutputFollowsFaultBits(r: Run, n: nat)
    requires Legal(r) && n < |r.inputs| && r.inputs[n].Iteration?
    ensures var status, before, after := r.inputs[n].status, r.states[n].phase, r.states[n + 1].phase;
            && (status.ocp || status.scp ==> !after.On() && after.Published() == Ocp)
            && (!status.ocp && !status.scp && (before.On() || before.Published() == Disabled) ==> after.On())
  {
    StepOf(r, n);
  }

  /** What is published tells whether the output is on; Ocp means that a fault has been read and the
      output has not been switched on since. */
  lemma {:induction false} PublishedOcpIff(r: Run, n: nat)
    requires Legal(r) && n <= |r.inputs|
    ensures var p := r.states[n].phase;
            && (p.On() <==> p.Published() == Enabling || p.Published() == Enabled)
            && (p.Published() == Ocp <==>
                exists j :: 0 <= j < n && FaultAt(r, j) && forall k | j < k < n :: !Enables(r, k))
  {
    if n > 0 {
      PublishedOcpIff(r, n - 1);
      StepOf(r, n - 1);
      var before, after := r.states[n - 1].phase, r.states[n].phase;
      if after.Published() == Ocp && before.Published() == Ocp {
        var j :| 0 <= j < n - 1 && FaultAt(r, j) && forall k | j < k < n - 1 :: !Enables(r, k);
      } else if after.Published() == Ocp {
        assert FaultAt(r, n - 1);
      } else if j :| 0 <= j < n && FaultAt(r, j) && forall k | j < k < n :: !Enables(r, k) {
        assert before.Published() == Ocp;
        assert Enables(r, n - 1);
      }
    }
  }

  // ----- Sleep -----

  /** The monitor sleeps 29 s unless something is due before: then an iteration without a fault, at any
      read after the deadline, does change the phase. */
  lemma WakesEarlyForAReason(r: Run, n: nat, status: Status, next: Reads)
    requires Legal(r) && n < |r.inputs| && r.inputs[n].Iteration?
    requires Admissible(r.states[n + 1], Iteration(status, next)) && !status.ocp && !status.scp
    ensures var s := r.states[n + 1];
            && s.wakeAt <= s.clock + Secs(29)
            && (s.wakeAt < s.clock + Secs(29) && s.wakeAt < next.first ==>
                  Next(s, Iteration(status, next)).phase != s.phase)
  {
    StepOf(r, n);
  }

  // ----- Back-off -----

  /** After a fault read, and until the next, the machine waits for that fault's deadline or has
      been switched on since. */
  lemma {:induction false} SinceFault(r: Run, j: nat, n: nat)
    requires Legal(r) && j < n <= |r.inputs| && FaultAt(r, j) && NoFault(r, j + 1, n)
    ensures var p := r.states[n].phase;
            || (p.Backoff? && p.until == Deadline(r, j))
            || (p.On() && exists k :: j < k < n && Enables(r, k))
  {
    StepOf(r, n - 1);
    if j + 1 < n {
      SinceFault(r, j, n - 1);
      assert !FaultAt(r, n - 1);
      assert Enables(r, n - 1) <==> !r.states[n - 1].phase.On() && r.states[n].phase.On();
    } else {
      BackoffInForce(r, j);
    }
  }

  /** Back-off safety: after a fault read with a duration in force, the output is not switched on
      until strictly after the two have been added, whatever is persisted meanwhile. A further
      fault read restarts the wait: the rule then applies to that one. */
  lemma BackoffRespected(r: Run, j: nat, k: nat)
    requires Legal(r) && j < k < |r.inputs| && FaultAt(r, j) && NoFault(r, j + 1, k)
    requires Enables(r, k)
    ensures r.inputs[k].Iteration?
    ensures r.inputs[j].r.status + InForce(r, j) <= Deadline(r, j) < r.inputs[k].r.first
  {
    SinceFault(r, j, k);
    StepOf(r, j);
    StepOf(r, k);
  }

  /** The last fault read before input `k`, at or after the one at `j`. */
  function LastFault(r: Run, j: nat, k: nat): (m: nat)
    requires j < k <= |r.inputs| && FaultAt(r, j)
    ensures j <= m < k && FaultAt(r, m) && NoFault(r, m + 1, k)
  {
    if FaultAt(r, k - 1) then k - 1 else LastFault(r, j, k - 1)
  }

  /** What earlier faults of the same outage may still rely on. The next iteration, whenever it
      comes, can switch the output on only after an earlier fault's deadline if and only if the last
      fault's deadline is no earlier, or the clock has already passed it. */
  lemma EarlierDeadlineHoldsIff(r: Run, j: nat, m: nat)
    requires Legal(r) && j <= m < |r.inputs| && FaultAt(r, j) && FaultAt(r, m) && NoFault(r, m + 1, |r.inputs|)
    requires r.states[|r.inputs|].phase.Backoff?
    ensures var s := r.states[|r.inputs|];
            (forall i: Input | Admissible(s, i) && Next(s, i).phase.On() :: i.Iteration? && Deadline(r, j) < i.r.first)
            <==> Deadline(r, j) <= Deadline(r, m) || Deadline(r, j) < s.clock
  {
    SinceFault(r, m, |r.inputs|);
    var s := r.states[|r.inputs|];
    var now := Max(Deadline(r, m) + 1, s.clock);
    var i := Iteration(Status(false, false, false), Reads(now, now, now, now, now));
    assert Admissible(s, i) && Next(s, i).phase.On();
  }

  /** So every fault's deadline is kept, further faults or not, as long as nothing shorter is
      persisted before the output comes back. */
  lemma NoShorterBackoff(r: Run, j: nat, k: nat)
    requires Legal(r) && j < k < |r.inputs| && FaultAt(r, j) && Enables(r, k)
    requires forall i | j < i < k && r.inputs[i].Persist? :: InForce(r, j) <= Millis(r.inputs[i].settings.backoffMs)
    ensures r.inputs[k].Iteration? && Deadline(r, j) < r.inputs[k].r.first
  {
    var m := LastFault(r, j, k);
    InForceAtLeast(r, j, m);
    BackoffRespected(r, m, k);
    StepOf(r, m);
    if j < m {
      StepOf(r, j);
      ClockMonotone(r, j + 1, m);
    }
  }

  lemma {:induction false} InForceAtLeast(r: Run, j: nat, m: nat)
    requires j <= m < |r.inputs| && r.inputs[j].Iteration?
    requires forall i | j < i < m && r.inputs[i].Persist? :: InForce(r, j) <= Millis(r.inputs[i].settings.backoffMs)
    ensures InForce(r, j) <= InForce(r, m)
  {
    if j < m {
      InForceAtLeast(r, j, m - 1);
    }
  }

  /** Without that condition an earlier deadline can be cut short: ten seconds are in force at the
      first fault, zero at the second, and the output is on after 3 ticks. */
  lemma ShortenedBackoff() returns (r: Run)
    ensures Legal(r) && |r.inputs| == 5
    ensures FaultAt(r, 1) && Deadline(r, 1) == Secs(10)
    ensures Enables(r, 4) && r.inputs[4].Iteration? && r.inputs[4].r.second == 3
  {
    var b := Config.Settings(9000, 500, 10_000);
    var fault, clear := Status(false, true, false), Status(false, false, false);
    var inputs := [Persist(b), Iteration(fault, Reads(0, 0, 0, 0, 0)), Persist(b.(backoffMs := 0)),
                   Iteration(fault, Reads(1, 1, 1, 1, 1)), Iteration(clear, Reads(3, 3, 3, 3, 3))];
    var s1 := Next(INITIAL, inputs[0]);
    var s2 := Next(s1, inputs[1]);
    var s3 := Next(s2, inputs[2]);
    var s4 := Next(s3, inputs[3]);
    var s5 := Next(s4, inputs[4]);
    r := Run(inputs, [INITIAL, s1, s2, s3, s4, s5]);
    assert s4.phase == Backoff(1, 0) && s5.phase.Starting?;
    assert InForce(r, 1) == Secs(10);
  }

  // ----- Stabilisation -----

  lemma OnStep(r: Run, n: nat)
    requires Legal(r) && n < |r.inputs| && r.states[n + 1].phase.On()
    ensures var s, s' := r.states[n], r.states[n + 1];
            && !FaultAt(r, n)
            && if Enables(r, n) then
                 && r.inputs[n].Iteration? && s'.phase.Starting?
                 && s'.phase.at == r.inputs[n].r.second + STABILIZATION_DURATION
               else
                 || (s'.phase == s.phase && s.phase.On())
                 || (s.phase.Starting? && s'.phase.Stable? && r.inputs[n].Iteration? && s.phase.at < r.inputs[n].r.first)
  {
    StepOf(r, n);
  }

  /** The input that switched the output on last. */
  function SwitchedOn(r: Run, n: nat): (k: nat)
    requires Legal(r) && n <= |r.inputs| && r.states[n].phase.On()
    ensures k < n && Enables(r, k)
  {
    if Enables(r, n - 1) then n - 1 else SwitchedOn(r, n - 1)
  }

  /** The input that published Enabled last. */
  function PublishedEnabled(r: Run, n: nat): (p: nat)
    requires Legal(r) && n <= |r.inputs| && r.states[n].phase.Published() == Enabled
    ensures p < n && r.states[p].phase.Published() != Enabled && r.states[p + 1].phase.Published() == Enabled
  {
    if r.states[n - 1].phase.Published() != Enabled then n - 1 else PublishedEnabled(r, n - 1)
  }

  /** Enabled is published only when the output has been on for strictly more than 100 ms: from a
      clock read after the converter was commanded to a clock read before the publication, and
      without a fault read since. */
  lemma {:induction false} EnabledMeansStable(r: Run, n: nat)
    requires Legal(r) && n <= |r.inputs| && r.states[n].phase.On()
    ensures var k := SwitchedOn(r, n);
            && r.inputs[k].Iteration? && NoFault(r, k, n)
            && match r.states[n].phase
               case Starting(at, _) => at == r.inputs[k].r.second + Millis(100)
               case Stable =>
                 var p := PublishedEnabled(r, n);
                 && k < p && r.inputs[p].Iteration?
                 && r.inputs[k].r.second + Millis(100) < r.inputs[p].r.first
  {
    OnStep(r, n - 1);
    if !Enables(r, n - 1) {
      EnabledMeansStable(r, n - 1);
    }
  }

  // ----- Promptness -----

  /** Every iteration takes at most `busy` ticks and starts at most `late` ticks after the deadline
      of the sleep before it. An iteration may start early: the fault pin wakes the task too. */
  predicate PromptStep(s: Machine, i: Input, busy: nat, late: nat) {
    i.Iteration? ==>
      && i.r.sleep <= i.r.status + busy
      && (s.iterations > 0 ==> i.r.status <= Max(s.wakeAt, s.clock) + late)
  }

  ghost predicate Prompt(r: Run, busy: nat, late: nat)
    requires Legal(r)
  {
    forall n {:trigger PromptStep(r.states[n], r.inputs[n], busy, late)} | 0 <= n < |r.inputs| ::
      PromptStep(r.states[n], r.inputs[n], busy, late)
  }

  ghost predicate ReenabledBy(r: Run, j: nat, n: nat, limit: nat)
    requires Legal(r) && n <= |r.inputs|
  {
    exists k :: j < k < n && Enables(r, k) && r.inputs[k].Iteration? && r.inputs[k].r.sleep <= limit
  }

  /** The other side of back-off safety: if the faults stop, then by the time the clock has passed
      the deadline by `busy` ticks the output has been switched on, and that happened at most two
      processing times and one wake-up latency after the deadline. */
  lemma ReenabledInTime(r: Run, j: nat, n: nat, busy: nat, late: nat)
    requires Legal(r) && Prompt(r, busy, late)
    requires j < n <= |r.inputs| && FaultAt(r, j) && NoFault(r, j + 1, n)
    requires Deadline(r, j) + busy < r.states[n].clock
    ensures ReenabledBy(r, j, n, Deadline(r, j) + 2 * busy + late)
  {
    WaitingOrReenabled(r, j, n, busy, late);
  }

  /** The machine waits for `deadline`, and its sleep does not outlast it. */
  predicate Waiting(s: Machine, deadline: nat, busy: nat) {
    && s.phase.Backoff? && s.phase.until == deadline && s.iterations > 0
    && s.wakeAt <= deadline && s.clock <= deadline + busy
  }

  lemma WaitingStep(s: Machine, i: Input, deadline: nat, busy: nat, late: nat)
    requires Admissible(s, i) && PromptStep(s, i, busy, late) && Waiting(s, deadline, busy)
    requires i.Iteration? ==> !i.status.Fault()
    ensures || Waiting(Next(s, i), deadline, busy)
            || (Next(s, i).phase.On() && i.Iteration? && i.r.sleep <= deadline + 2 * busy + late)
  {
  }

  lemma {:induction false} WaitingOrReenabled(r: Run, j: nat, n: nat, busy: nat, late: nat)
    requires Legal(r) && Prompt(r, busy, late)
    requires j < n <= |r.inputs| && FaultAt(r, j) && NoFault(r, j + 1, n)
    ensures ReenabledBy(r, j, n, Deadline(r, j) + 2 * busy + late) || Waiting(r.states[n], Deadline(r, j), busy)
  {
    StepOf(r, n - 1);
    assert PromptStep(r.states[n - 1], r.inputs[n - 1], busy, late);
    if j + 1 < n {
      WaitingOrReenabled(r, j, n - 1, busy, late);
      assert !FaultAt(r, n - 1);
      if Waiting(r.states[n - 1], Deadline(r, j), busy) {
        WaitingStep(r.states[n - 1], r.inputs[n - 1], Deadline(r, j), busy, late);
        assert r.states[n].phase.On() ==> Enables(r, n - 1);
      }
    } else {
      BackoffInForce(r, j);
    }
  }

  /** Likewise for stabilisation: without faults, the state is Enabled by the time the clock has
      passed the end of the stabilisation time by `busy` ticks. */
  lemma {:induction false} StabilizedInTime(r: Run, k: nat, n: nat, busy: nat, late: nat)
    requires Legal(r) && Prompt(r, busy, late)
    requires k < n <= |r.inputs| && r.inputs[k].Iteration? && Enables(r, k) && NoFault(r, k, n)
    ensures var s, at := r.states[n], r.inputs[k].r.second + Millis(100);
            && s.phase.On()
            && (s.phase.Starting? ==> s.phase.at == at && s.clock <= at + busy && s.wakeAt <= at)
            && (at + busy < s.clock ==> s.phase.Published() == Enabled)
  {
    StepOf(r, n - 1);
    assert PromptStep(r.states[n - 1], r.inputs[n - 1], busy, late);
    assert !FaultAt(r, n - 1);
    if k + 1 < n {
      StabilizedInTime(r, k, n - 1, busy, late);
    }
  }

  /** The monitor keeps to its watchdog: from one feed to the next at most 29 s pass, plus two
      processing times and one wake-up latency. */
  lemma FeedGap(r: Run, m: nat, n: nat, busy: nat, late: nat)
    requires Legal(r) && Prompt(r, busy, late)
    requires m < n < |r.inputs| && r.inputs[m].Iteration? && r.inputs[n].Iteration?
    requires forall k | m < k < n :: r.inputs[k].Persist?
    ensures r.inputs[m].r.feed <= r.inputs[n].r.feed <= r.inputs[m].r.feed + Secs(29) + 2 * busy + late
  {
    AsleepSince(r, m, n);
    StepOf(r, m);
    StepOf(r, n);
    assert PromptStep(r.states[m], r.inputs[m], busy, late);
    assert PromptStep(r.states[n], r.inputs[n], busy, late);
  }

  lemma {:induction false} AsleepSince(r: Run, m: nat, n: nat)
    requires Legal(r) && m < n <= |r.inputs| && r.inputs[m].Iteration?
    requires forall k | m < k < n :: r.inputs[k].Persist?
    ensures var s := r.states[n];
            s.clock == r.inputs[m].r.sleep && s.wakeAt <= r.inputs[m].r.sleep + MAX_DURATION && s.iterations > 0
  {
    StepOf(r, n - 1);
    if m + 1 < n {
      AsleepSince(r, m, n - 1);
    }
  }

  // ----- Overcurrent accounting -----

  /** An episode lasts from its first fault read to the iteration that finds the output stable. */
  datatype Episode = Episode(first: nat, last: nat)

  /** The first fault read since the output was last found stable. */
  function OpenAt(r: Run, n: nat): (o: Option<nat>)
    requires Legal(r) && n <= |r.inputs|
    ensures o.Some? ==> o.value < n && FaultAt(r, o.value)
  {
    if n == 0 then None
    else if FaultAt(r, n - 1) && OpenAt(r, n - 1).None? then Some(n - 1)
    else if r.states[n].phase.Published() == Enabled then None
    else OpenAt(r, n - 1)
  }

  ghost predicate WellFormed(r: Run, e: Episode) {
    e.first < e.last < |r.inputs| && FaultAt(r, e.first) && r.inputs[e.last].Iteration?
  }

  /** The episodes that ended within the first `n` inputs. */
  function Episodes(r: Run, n: nat): (es: seq<Episode>)
    requires Legal(r) && n <= |r.inputs|
    ensures forall k | 0 <= k < |es| :: WellFormed(r, es[k]) && es[k].last < n
  {
    if n == 0 then []
    else
      Episodes(r, n - 1) +
      if r.inputs[n - 1].Iteration? && OpenAt(r, n - 1).Some? && r.states[n].phase.Published() == Enabled
      then [Episode(OpenAt(r, n - 1).value, n - 1)]
      else []
  }

  /** Ticks from the first fault's clock read to the read that ends the episode. */
  function Length(r: Run, e: Episode): int
    requires WellFormed(r, e)
  {
    r.inputs[e.last].r.second - r.inputs[e.first].r.second
  }

  function Lengths(r: Run, es: seq<Episode>): (d: seq<int>)
    requires forall k | 0 <= k < |es| :: WellFormed(r, es[k])
    ensures |d| == |es|
    ensures forall k | 0 <= k < |es| :: d[k] == Length(r, es[k])
  {
    if es == [] then [] else [Length(r, es[0])] + Lengths(r, es[1..])
  }

  lemma {:induction false} OpenSince(r: Run, n: nat)
    requires Legal(r) && n <= |r.inputs|
    ensures r.states[n].phase.Since() ==
            match OpenAt(r, n) case None => None case Some(o) => Some(r.inputs[o].r.second)
  {
    if n > 0 {
      OpenSince(r, n - 1);
      StepOf(r, n - 1);
    }
  }

  /** What an input does to the episodes and to the log: it closes the open episode and logs its
      length in seconds, or opens one, or changes neither. */
  lemma EpisodeStep(r: Run, n: nat)
    requires Legal(r) && n < |r.inputs|
    ensures var es, es', o, o' := Episodes(r, n), Episodes(r, n + 1), OpenAt(r, n), OpenAt(r, n + 1);
            var log, log' := r.states[n].logged, r.states[n + 1].logged;
            if es' != es then
              && o.Some? && r.inputs[n].Iteration? && !FaultAt(r, n)
              && es' == es + [Episode(o.value, n)] && o' == None
              && Length(r, Episode(o.value, n)) >= 0
              && log' == log + [AsSecs(Length(r, Episode(o.value, n)))]
            else
              && log' == log
              && o' == if FaultAt(r, n) && o.None? then Some(n) else o
  {
    OpenSince(r, n);
    OpenSince(r, n + 1);
    StepOf(r, n);
  }

  /** Each closed episode is logged exactly once, in order, with its length in whole seconds, and
      nothing else is logged. */
  lemma {:induction false} LoggedOncePerEpisode(r: Run, n: nat)
    requires Legal(r) && n <= |r.inputs|
    ensures |r.states[n].logged| == |Episodes(r, n)|
    ensures forall k | 0 <= k < |Episodes(r, n)| ::
              Length(r, Episodes(r, n)[k]) >= 0 && r.states[n].logged[k] == AsSecs(Length(r, Episodes(r, n)[k]))
  {
    if n > 0 {
      LoggedOncePerEpisode(r, n - 1);
      EpisodeStep(r, n - 1);
    }
  }

  /** Episodes are disjoint and in order, and the open one, if any, comes after all of them. */
  lemma {:induction false} EpisodesDisjoint(r: Run, n: nat)
    requires Legal(r) && n <= |r.inputs|
    ensures var es := Episodes(r, n);
            && (forall a, b | 0 <= a < b < |es| :: es[a].last < es[b].first)
            && (OpenAt(r, n).Some? ==> forall a | 0 <= a < |es| :: es[a].last < OpenAt(r, n).value)
  {
    if n > 0 {
      EpisodesDisjoint(r, n - 1);
      EpisodeStep(r, n - 1);
    }
  }

  ghost predicate Covered(es: seq<Episode>, open: Option<nat>, k: nat) {
    || (exists a :: 0 <= a < |es| && es[a].first <= k < es[a].last)
    || (open.Some? && open.value <= k)
  }

  lemma CoveredByMore(es: seq<Episode>, open: Option<nat>, k: nat, es': seq<Episode>, open': Option<nat>, n: nat)
    requires Covered(es, open, k) && k < n
    requires if es' != es then open.Some? && es' == es + [Episode(open.value, n)] else open.Some? ==> open' == open
    ensures Covered(es', open', k)
  {
    if a :| 0 <= a < |es| && es[a].first <= k < es[a].last {
      assert es'[a] == es[a];
    } else if es' != es {
      assert es'[|es|] == Episode(open.value, n);
    }
  }

  /** Every fault read belongs to an episode: a closed one or the open one. */
  lemma {:induction false} EveryFaultCounted(r: Run, n: nat, k: nat)
    requires Legal(r) && k < n <= |r.inputs| && FaultAt(r, k)
    ensures Covered(Episodes(r, n), OpenAt(r, n), k)
  {
    EpisodeStep(r, n - 1);
    if k < n - 1 {
      EveryFaultCounted(r, n - 1, k);
      CoveredByMore(Episodes(r, n - 1), OpenAt(r, n - 1), k, Episodes(r, n), OpenAt(r, n), n - 1);
    }
  }
}
