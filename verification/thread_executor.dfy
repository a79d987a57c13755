/** The thread-mode executor: `run` alternates between polling tasks and sleeping until an
    interrupt, guided by a signal flag that wakers set.

    First part: every interleaving of the executor's own steps, wakes from running tasks and
    interrupts, down to the two halves of a wake (enqueue, then pend). Second part: the accounting
    of sleep. The run queue is embassy's: a wake enqueues a task and pends the executor if the
    queue was empty; a poll takes the whole queue. */
module ThreadExecutor {
  import opened Options

  type TaskId = nat

  /** Where the executor is: about to take the queue; running the tasks it took, possibly between
      the halves of a wake; past the check of the signal and before the `wfi`, or blocked in it;
      back from it. From `Check` to `Woken` interrupts are masked, so the check is one step. */
  datatype Pc =
    | Dequeue
    | Polling(batch: set<TaskId>, mustPend: bool)
    | Check
    | Wfi
    | Woken

  /** `irq` holds the tasks that interrupts which have been raised but not serviced will wake;
      `raised` tells that there is such an interrupt. */
  datatype Cpu = Cpu(pc: Pc, signal: bool, queue: set<TaskId>, raised: bool, irq: set<TaskId>)

  datatype Step =
    | TakeQueue                  // poll: dequeue all
    | RunTask(task: TaskId)      // poll one of the dequeued tasks
    | Enqueue(task: TaskId)      // a running task wakes a task: first half
    | Pend                       // second half: pend_thread_mode
    | EndPoll
    | CheckSignal                // the branch in wait_impl
    | WakeUp                     // wfi returns: an interrupt is pending
    | LeaveCritical
    | Raise(wakes: set<TaskId>)  // an interrupt is raised
    | Service                    // the handlers run, all wakes included

  predicate Masked(pc: Pc) {
    pc.Wfi? || pc.Woken?
  }

  predicate Enabled(c: Cpu, s: Step) {
    match s
    case TakeQueue => c.pc.Dequeue?
    case RunTask(task) => c.pc.Polling? && !c.pc.mustPend && task in c.pc.batch
    case Enqueue(_) => c.pc.Polling? && !c.pc.mustPend
    case Pend => c.pc.Polling? && c.pc.mustPend
    case EndPoll => c.pc.Polling? && !c.pc.mustPend && c.pc.batch == {}
    case CheckSignal => c.pc.Check?
    case WakeUp => c.pc.Wfi? && c.raised
    case LeaveCritical => c.pc.Woken?
    case Raise(_) => true
    case Service => c.raised && !Masked(c.pc)
  }

  function Next(c: Cpu, s: Step): Cpu
    requires Enabled(c, s)
  {
    match s
    case TakeQueue => c.(pc := Polling(c.queue, false), queue := {})
    case RunTask(task) => c.(pc := c.pc.(batch := c.pc.batch - {task}))
    case Enqueue(task) => c.(queue := c.queue + {task}, pc := c.pc.(mustPend := c.queue == {}))
    case Pend => c.(signal := true, pc := c.pc.(mustPend := false))
    case EndPoll => c.(pc := Check)
    case CheckSignal => if c.signal then c.(signal := false, pc := Dequeue) else c.(pc := Wfi)
    case WakeUp => c.(pc := Woken)
    case LeaveCritical => c.(pc := Dequeue)
    case Raise(wakes) => c.(raised := true, irq := c.irq + wakes)
    case Service =>
      c.(raised := false, irq := {}, queue := c.queue + c.irq, signal := c.signal || (c.queue == {} && c.irq != {}))
  }

  /** The executor starts by polling the tasks spawned by `init`; their wakes have set the signal. */
  ghost predicate Start(c: Cpu) {
    c.pc.Dequeue? && !c.raised && c.irq == {} && c.signal == (c.queue != {})
  }

  ghost predicate Run(t: seq<Step>, cs: seq<Cpu>) {
    && |cs| == |t| + 1
    && Start(cs[0])
    && forall k | 0 <= k < |t| :: Enabled(cs[k], t[k]) && cs[k + 1] == Next(cs[k], t[k])
  }

  /** Whatever is in the queue has been signalled, unless the executor is about to take it anyway
      or a running task is about to signal it. */
  ghost predicate Inv(c: Cpu) {
    && (c.queue != {} ==> c.signal || c.pc.Dequeue? || (c.pc.Polling? && c.pc.mustPend))
    && (c.irq != {} ==> c.raised)
    && (Masked(c.pc) ==> c.queue == {} && !c.signal)
  }

  lemma StartInv(c: Cpu)
    requires Start(c)
    ensures Inv(c)
  {
  }

  lemma StepInv(c: Cpu, s: Step)
    requires Inv(c) && Enabled(c, s)
    ensures Inv(Next(c, s))
  {
  }

  lemma {:induction false} RunInv(t: seq<Step>, cs: seq<Cpu>, k: nat)
    requires Run(t, cs) && k <= |t|
    ensures Inv(cs[k])
  {
    if k > 0 {
      RunInv(t, cs, k - 1);
      StepInv(cs[k - 1], t[k - 1]);
    }
  }

  /** The task has been woken and not run since: it is in the queue, or in the batch being polled, or
      an interrupt that wakes it has been raised. */
  predicate Owed(c: Cpu, task: TaskId) {
    task in c.queue || task in c.irq || (c.pc.Polling? && task in c.pc.batch)
  }

  /** The executor is not blocked: if it is in `wfi`, an interrupt is pending and makes it return. */
  predicate Awake(c: Cpu) {
    c.pc.Wfi? ==> Enabled(c, WakeUp)
  }

  /** A step wakes a task: a running task wakes it, or an interrupt that will is raised. */
  predicate Wakes(s: Step, task: TaskId) {
    s == Enqueue(task) || (s.Raise? && task in s.wakes)
  }

  /** The task was spawned by `init`, or the step that led to state `m` woke it. */
  predicate WokenAt(t: seq<Step>, cs: seq<Cpu>, m: nat, task: TaskId)
    requires m <= |t| == |cs| - 1
  {
    if m == 0 then task in cs[0].queue else Wakes(t[m - 1], task)
  }

  /** A wake, at whatever moment it comes, makes its task owed a run. */
  lemma WakeOwes(t: seq<Step>, cs: seq<Cpu>, m: nat, task: TaskId)
    requires Run(t, cs) && m <= |t| && WokenAt(t, cs, m, task)
    ensures Owed(cs[m], task)
  {
    if m > 0 {
      assert cs[m] == Next(cs[m - 1], t[m - 1]);
    }
  }

  lemma {:induction false} StaysOwed(t: seq<Step>, cs: seq<Cpu>, m: nat, n: nat, task: TaskId)
    requires Run(t, cs) && m <= n <= |t| && Owed(cs[m], task)
    requires forall k | m <= k < n :: t[k] != RunTask(task)
    ensures Owed(cs[n], task) && Awake(cs[n])
  {
    RunInv(t, cs, n);
    if m < n {
      StaysOwed(t, cs, m, n - 1, task);
      assert cs[n] == Next(cs[n - 1], t[n - 1]);
    }
  }

  /** No lost wakeup: from a wake on, whether by a running task or by an interrupt, and at whatever
      moment it comes, the task stays owed a run and the core is never blocked in `wfi`, until the
      task has been run. */
  lemma NoLostWakeup(t: seq<Step>, cs: seq<Cpu>, m: nat, n: nat, task: TaskId)
    requires Run(t, cs) && m <= n <= |t| && WokenAt(t, cs, m, task)
    requires forall k | m <= k < n :: t[k] != RunTask(task)
    ensures Owed(cs[n], task) && Awake(cs[n])
  {
    WakeOwes(t, cs, m, task);
    StaysOwed(t, cs, m, n, task);
  }

  function Batch(c: Cpu): set<TaskId> {
    if c.pc.Polling? then c.pc.batch else {}
  }

  function Count(b: bool): nat {
    if b then 1 else 0
  }

  /** Wakes of a task within the first `n` steps, its spawning included. */
  function WakeCount(t: seq<Step>, cs: seq<Cpu>, n: nat, task: TaskId): nat
    requires n <= |t| == |cs| - 1
  {
    Count(WokenAt(t, cs, n, task)) + if n == 0 then 0 else WakeCount(t, cs, n - 1, task)
  }

  function RunCount(t: seq<Step>, n: nat, task: TaskId): nat
    requires n <= |t|
  {
    if n == 0 then 0 else RunCount(t, n - 1, task) + Count(t[n - 1] == RunTask(task))
  }

  /** How many of its wakes a task is still owed a run for. */
  function Outstanding(c: Cpu, task: TaskId): nat {
    Count(task in c.irq) + Count(task in c.queue) + Count(task in Batch(c))
  }

  /** No spurious runs: a task runs at most as often as it has been woken, less what it is still owed. */
  lemma {:induction false} RunsAreWakes(t: seq<Step>, cs: seq<Cpu>, n: nat, task: TaskId)
    requires Run(t, cs) && n <= |t|
    ensures RunCount(t, n, task) + Outstanding(cs[n], task) <= WakeCount(t, cs, n, task)
  {
    if n > 0 {
      RunsAreWakes(t, cs, n - 1, task);
      assert cs[n] == Next(cs[n - 1], t[n - 1]);
    }
  }

  /** The executor's own next step when nothing more is woken: pending interrupts first. */
  ghost function OwnStep(c: Cpu): (s: Step)
    requires Inv(c) && Awake(c)
    ensures Enabled(c, s) && !s.Enqueue? && !s.Raise?
  {
    if c.raised && !Masked(c.pc) then Service
    else
      match c.pc
      case Dequeue => TakeQueue
      case Polling(batch, mustPend) =>
        if mustPend then Pend else if batch == {} then EndPoll else var task :| task in batch; RunTask(task)
      case Check => CheckSignal
      case Wfi => WakeUp
      case Woken => LeaveCritical
  }

  /** How far the executor is from idling, in one round of its loop. */
  function Distance(c: Cpu): nat {
    match c.pc
    case Wfi => if c.raised then 5 else 0
    case Woken => 4
    case Dequeue => 3
    case Polling(_, _) => 2
    case Check => 1
  }

  predicate MustPend(c: Cpu) {
    c.pc.Polling? && c.pc.mustPend
  }

  lemma ExtendRun(t: seq<Step>, cs: seq<Cpu>, s: Step)
    requires Run(t, cs) && Enabled(cs[|t|], s)
    ensures Run(t + [s], cs + [Next(cs[|t|], s)])
  {
  }

  /** Left alone, the executor comes to rest in `wfi` after finitely many steps of its own. */
  lemma {:induction false} ComesToRest(t: seq<Step>, cs: seq<Cpu>, c: Cpu) returns (t': seq<Step>, cs': seq<Cpu>)
    requires Run(t, cs) && c == cs[|t|]
    ensures Run(t', cs') && t <= t' && cs <= cs' && !Awake(cs'[|t'|])
    ensures forall k | |t| <= k < |t'| :: !t'[k].Enqueue? && !t'[k].Raise?
    decreases c.raised, c.signal || MustPend(c), Distance(c), MustPend(c), |Batch(c)|
  {
    RunInv(t, cs, |t|);
    if Awake(c) {
      var s := OwnStep(c);
      ExtendRun(t, cs, s);
      assert s.RunTask? ==> Batch(Next(c, s)) == Batch(c) - {s.task};
      t', cs' := ComesToRest(t + [s], cs + [Next(c, s)], Next(c, s));
    } else {
      t', cs' := t, cs;
    }
  }

  /** So every woken task is run: by the time the executor comes to rest, each task that was woken has
      been run since. */
  lemma EveryWokenTaskRuns(t: seq<Step>, cs: seq<Cpu>, m: nat, task: TaskId)
    requires Run(t, cs) && m <= |t| && WokenAt(t, cs, m, task) && !Awake(cs[|t|])
    ensures exists k :: m <= k < |t| && t[k] == RunTask(task)
  {
    if forall k | m <= k < |t| :: t[k] != RunTask(task) {
      NoLostWakeup(t, cs, m, |t|, task);
    }
  }

  /** When the core enters `wfi`, nothing is waiting to be polled; and while it is there, only a
      pending interrupt can bring work. */
  lemma SleepsOnlyWhenIdle(t: seq<Step>, cs: seq<Cpu>, k: nat)
    requires Run(t, cs) && k <= |t| && cs[k].pc.Wfi?
    ensures cs[k].queue == {} && !cs[k].signal
    ensures !Enabled(cs[k], Service)
  {
    RunInv(t, cs, k);
  }

  /** The steps of which `pend_thread_mode` is part: the second half of a running task's wake, and
      an interrupt's wakes if they find the queue empty. */
  predicate Pends(c: Cpu, s: Step) {
    s == Pend || (s.Service? && c.queue == {} && c.irq != {})
  }

  /** A pend is never overlooked: whatever happens in between, the next check of the signal goes back
      to polling instead of sleeping. */
  lemma PendForcesPoll(t: seq<Step>, cs: seq<Cpu>, m: nat, n: nat)
    requires Run(t, cs) && m < n < |t| && Pends(cs[m], t[m])
    requires t[n] == CheckSignal && forall k | m < k < n :: t[k] != CheckSignal
    ensures cs[n + 1].pc.Dequeue? && !cs[n + 1].signal
  {
    assert cs[m + 1] == Next(cs[m], t[m]);
    SignalStays(t, cs, m + 1, n);
  }

  lemma {:induction false} SignalStays(t: seq<Step>, cs: seq<Cpu>, m: nat, n: nat)
    requires Run(t, cs) && m <= n <= |t| && cs[m].signal
    requires forall k | m <= k < n :: t[k] != CheckSignal
    ensures cs[n].signal
  {
    if m < n {
      SignalStays(t, cs, m, n - 1);
      assert cs[n] == Next(cs[n - 1], t[n - 1]);
    }
  }

  /** `wait_impl` without other tasks or interrupts in view: the check, and if there is no signal, the
      sleep, in which interrupts that wake `arriving` are raised. */
  function Waited(c: Cpu, arriving: set<TaskId>): Cpu
    requires c.pc.Check?
  {
    var checked := Next(c, CheckSignal);
    if c.signal then checked else Next(Next(Next(checked, Raise(arriving)), WakeUp), LeaveCritical)
  }

  lemma WaitedInv(c: Cpu, arriving: set<TaskId>)
    requires Inv(c) && c.pc.Check?
    ensures var c' := Waited(c, arriving);
            && Inv(c') && c'.pc.Dequeue? && !c'.signal && c'.queue == c.queue
            && c'.irq == c.irq + if c.signal then {} else arriving
  {
    var checked := Next(c, CheckSignal);
    StepInv(c, CheckSignal);
    if !c.signal {
      StepInv(checked, Raise(arriving));
      StepInv(Next(checked, Raise(arriving)), WakeUp);
      StepInv(Next(Next(checked, Raise(arriving)), WakeUp), LeaveCritical);
    }
  }

  // ----- Idle accounting -----

  /** The two statics, and what the run so far has recorded: the windows reported, the time slept
      in all, and the last clock read. */
  datatype RawStats = Stats(sleepTotal: nat, countFrom: nat, windows: seq<Window>, slept: nat, clock: nat)

  type Stats = s: RawStats | s.countFrom <= s.clock witness BOOT

  /** A reported `SleepStats`. */
  datatype Window = Window(sleep: nat, total: nat)

  /** One sleep in `wait_impl`, or one `current_restart` with its two clock reads. Both are critical
      sections, so they do not overlap. */
  datatype Event =
    | Sleep(from: nat, to: nat)
    | Restart(first: nat, second: nat)

  const BOOT: RawStats := Stats(0, 0, [], 0, 0)

  predicate Admissible(s: Stats, e: Event) {
    match e
    case Sleep(from, to) => s.clock <= from <= to
    case Restart(first, second) => s.clock <= first <= second
  }

  function Account(s: Stats, e: Event): Stats
    requires Admissible(s, e)
  {
    match e
    case Sleep(from, to) => s.(sleepTotal := s.sleepTotal + (to - from), slept := s.slept + (to - from), clock := to)
    case Restart(first, second) =>
      s.(sleepTotal := 0, countFrom := first,
         windows := s.windows + [Window(s.sleepTotal, second - s.countFrom)], clock := second)
  }

  function SumSleep(ws: seq<Window>): nat {
    if ws == [] then 0 else SumSleep(ws[..|ws| - 1]) + ws[|ws| - 1].sleep
  }

  function SumTotal(ws: seq<Window>): nat {
    if ws == [] then 0 else SumTotal(ws[..|ws| - 1]) + ws[|ws| - 1].total
  }

  /** No sleep is counted twice or dropped, and no window has more sleep than time. */
  ghost predicate Accounted(s: Stats) {
    && s.countFrom + s.sleepTotal <= s.clock
    && (forall k | 0 <= k < |s.windows| :: s.windows[k].sleep <= s.windows[k].total)
    && SumSleep(s.windows) + s.sleepTotal == s.slept
    && s.countFrom <= SumTotal(s.windows)
  }

  lemma AccountStep(s: Stats, e: Event)
    requires Accounted(s) && Admissible(s, e)
    ensures Accounted(Account(s, e))
  {
    var s' := Account(s, e);
    if e.Restart? {
      assert s'.windows[..|s.windows|] == s.windows;
    }
  }

  /** Events since boot, and the statics before the first and after each. */
  ghost predicate History(es: seq<Event>, ss: seq<Stats>) {
    && |ss| == |es| + 1
    && ss[0] == BOOT
    && forall k {:trigger Admissible(ss[k], es[k])} | 0 <= k < |es| ::
         Admissible(ss[k], es[k]) && ss[k + 1] == Account(ss[k], es[k])
  }

  lemma {:induction false} HistoryAccounted(es: seq<Event>, ss: seq<Stats>, n: nat)
    requires History(es, ss) && n <= |es|
    ensures Accounted(ss[n])
  {
    if n > 0 {
      HistoryAccounted(es, ss, n - 1);
      assert Admissible(ss[n - 1], es[n - 1]);
      AccountStep(ss[n - 1], es[n - 1]);
    }
  }

  /** Time slept within the first `n` events, from the sleeps alone. */
  function TimeSlept(es: seq<Event>, n: nat): int
    requires n <= |es|
  {
    if n == 0 then 0
    else TimeSlept(es, n - 1) + if es[n - 1].Sleep? then es[n - 1].to - es[n - 1].from else 0
  }

  /** `SleepStats::as_permille`, which panics on an empty window. */
  function AsPermille(w: Window): Option<nat> {
    if w.total == 0 then None else Some(w.sleep * 1000 / w.total)
  }

  /** Over any run, windows plus the running counter account for all time slept: none is counted
      twice or dropped. */
  lemma SleepAccounted(es: seq<Event>, ss: seq<Stats>, n: nat)
    requires History(es, ss) && n <= |es|
    ensures SumSleep(ss[n].windows) + ss[n].sleepTotal == TimeSlept(es, n)
  {
    HistoryAccounted(es, ss, n);
    SleptIsTimeSlept(es, ss, n);
  }

  lemma {:induction false} SleptIsTimeSlept(es: seq<Event>, ss: seq<Stats>, n: nat)
    requires History(es, ss) && n <= |es|
    ensures ss[n].slept == TimeSlept(es, n)
  {
    if n > 0 {
      SleptIsTimeSlept(es, ss, n - 1);
      assert Admissible(ss[n - 1], es[n - 1]);
    }
  }

  /** First clock read of the restart just before event `m`, or time 0. */
  function WindowStart(es: seq<Event>, m: nat): nat
    requires m <= |es| && (m > 0 ==> es[m - 1].Restart?)
  {
    if m == 0 then 0 else es[m - 1].first
  }

  /** Each window reports exactly the sleeps since the restart before it, over the time since that
      restart's first clock read; the first window begins at time 0. Its report is the one over the
      other in whole thousandths, and divides by zero exactly if no time has passed. */
  lemma WindowExact(es: seq<Event>, ss: seq<Stats>, m: nat, n: nat)
    requires History(es, ss) && m <= n < |es| && es[n].Restart?
    requires m > 0 ==> es[m - 1].Restart?
    requires forall k | m <= k < n :: es[k].Sleep?
    ensures var from := WindowStart(es, m);
            && from <= es[n].second && TimeSlept(es, m) <= TimeSlept(es, n)
            && var w := Window(TimeSlept(es, n) - TimeSlept(es, m), es[n].second - from);
               && ss[n + 1].windows == ss[n].windows + [w]
               && match AsPermille(w)
                  case None => es[n].second == from
                  case Some(p) =>
                    p * (es[n].second - from) <= 1000 * (TimeSlept(es, n) - TimeSlept(es, m))
                                               < (p + 1) * (es[n].second - from)
  {
    CounterSince(es, ss, m, n);
    assert Admissible(ss[n], es[n]);
    PermilleExact(Window(TimeSlept(es, n) - TimeSlept(es, m), es[n].second - WindowStart(es, m)));
  }

  /** A report is the share of time slept in whole thousandths, rounded down; there is none for an empty
      window. */
  lemma PermilleExact(w: Window)
    ensures match AsPermille(w)
            case None => w.total == 0
            case Some(p) => p * w.total <= 1000 * w.sleep < (p + 1) * w.total
  {
  }

  /** Between restarts the counter is what has been slept since the last one. */
  lemma {:induction false} CounterSince(es: seq<Event>, ss: seq<Stats>, m: nat, n: nat)
    requires History(es, ss) && m <= n <= |es|
    requires m > 0 ==> es[m - 1].Restart?
    requires forall k | m <= k < n :: es[k].Sleep?
    ensures ss[n].countFrom == WindowStart(es, m)
    ensures ss[n].sleepTotal == TimeSlept(es, n) - TimeSlept(es, m)
  {
    if m < n {
      CounterSince(es, ss, m, n - 1);
      assert Admissible(ss[n - 1], es[n - 1]);
    } else if m > 0 {
      assert Admissible(ss[m - 1], es[m - 1]);
    }
  }

  /** Such a run: two reports in one tick, whichever tick that is. */
  lemma SecondReportInTickPanics(es: seq<Event>, ss: seq<Stats>, at: nat)
    requires History(es, ss) && es == [Restart(at, at), Restart(at, at)]
    ensures |ss[2].windows| == 2 && AsPermille(ss[2].windows[1]).None?
    ensures AsPermille(ss[2].windows[0]).None? <==> at == 0
  {
    WindowExact(es, ss, 0, 0);
    WindowExact(es, ss, 1, 1);
  }

  /** No window reports more sleep than time, so no report exceeds 1000 permille. */
  lemma ReportsAtMostThousand(es: seq<Event>, ss: seq<Stats>, n: nat, k: nat)
    requires History(es, ss) && n <= |es| && k < |ss[n].windows|
    ensures match AsPermille(ss[n].windows[k])
            case Some(p) => p <= 1000
            case None => ss[n].windows[k] == Window(0, 0)
  {
    HistoryAccounted(es, ss, n);
    var w := ss[n].windows[k];
    if w.total > 0 {
      QuotientAtMost(w.sleep * 1000, w.total, 1000);
    }
  }

  lemma QuotientAtMost(a: nat, b: nat, q: nat)
    requires b > 0 && a <= q * b
    ensures a / b <= q
  {
  }

  /** The executor's statics and its methods. The ghost fields are the interleaving it takes part in,
      and the history that `Stats` adds to the statics. */
  class Executor {
    var signal: bool
    var sleepTotalTicks: nat
    var sleepCountFrom: nat
    ghost var cpu: Cpu
    ghost var windows: seq<Window>
    ghost var slept: nat
    ghost var clock: nat

    ghost function State(): RawStats
      reads this
    {
      Stats(sleepTotalTicks, sleepCountFrom, windows, slept, clock)
    }

    ghost predicate Valid()
      reads this
    {
      Inv(cpu) && signal == cpu.signal && sleepCountFrom <= clock && Accounted(State())
    }

    /** `new`, and the tasks that `init` spawns. */
    constructor (spawned: set<TaskId>)
      ensures Valid() && Start(cpu) && cpu.queue == spawned
      ensures State() == BOOT
    {
      signal := spawned != {};
      sleepTotalTicks, sleepCountFrom := 0, 0;
      cpu := Cpu(Dequeue, spawned != {}, spawned, false, {});
      windows, slept, clock := [], 0, 0;
      new;
      StartInv(cpu);
    }

    /** `pend_thread_mode`, as part of the step `s` of a running task or of an interrupt. */
    method Pend(ghost s: Step)
      requires Valid() && Enabled(cpu, s) && Pends(cpu, s)
      modifies this`signal, this`cpu
      ensures Valid() && cpu == Next(old(cpu), s)
    {
      StepInv(cpu, s);
      signal := true;
      cpu := Next(cpu, s);
    }

    /** Any step that is not the executor's own and does not pend: the run queue's and the tasks'. */
    ghost method Elsewhere(s: Step)
      requires Valid() && Enabled(cpu, s) && !Pends(cpu, s) && !s.CheckSignal?
      modifies this`cpu
      ensures Valid() && cpu == Next(old(cpu), s)
    {
      StepInv(cpu, s);
      cpu := Next(cpu, s);
    }

    /** `wait_impl`: the clock reads around the `wfi` are used only if there is no signal. Returns
        whether the executor slept. */
    method WaitImpl(start: nat, end: nat, ghost arriving: set<TaskId>) returns (asleep: bool)
      requires Valid() && cpu.pc.Check? && Admissible(State(), Sleep(start, end))
      modifies this`signal, this`cpu, this`sleepTotalTicks, this`slept, this`clock
      ensures Valid() && cpu == Waited(old(cpu), arriving)
      ensures cpu.pc.Dequeue? && !signal && cpu.queue == old(cpu).queue
      ensures cpu.irq == old(cpu).irq + if asleep then arriving else {}
      ensures asleep == !old(signal)
      ensures State() == if asleep then Account(old(State()), Sleep(start, end)) else old(State())
    {
      AccountStep(State(), Sleep(start, end));
      WaitedInv(cpu, arriving);
      cpu := Waited(cpu, arriving);
      if signal {
        signal := false;
        asleep := false;
      } else {
        var duration := end - start;
        sleepTotalTicks := sleepTotalTicks + duration;
        slept, clock := slept + duration, end;
        asleep := true;
      }
    }

    /** `SleepStats::current_restart`. */
    method CurrentRestart(first: nat, second: nat) returns (w: Window)
      requires Valid() && Admissible(State(), Restart(first, second))
      modifies this`sleepTotalTicks, this`sleepCountFrom, this`windows, this`clock
      ensures Valid()
      ensures State() == Account(old(State()), Restart(first, second))
      ensures w == Window(old(sleepTotalTicks), second - old(sleepCountFrom))
      ensures windows == old(windows) + [w] && sleepTotalTicks == 0 && sleepCountFrom == first
    {
      AccountStep(State(), Restart(first, second));
      var sleep := sleepTotalTicks;
      sleepTotalTicks := 0;
      var from := sleepCountFrom;
      sleepCountFrom := first;
      var total := second - from;
      w := Window(sleep, total);
      windows, clock := windows + [w], second;
    }
  }
}
