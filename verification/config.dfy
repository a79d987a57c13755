/** Device configuration: settings in RAM behind a lock, a copy in flash, and partial updates that
    are integrated, stored and published while the lock is held. */
module Config {
  import opened Options

  type UInt16 = n: nat | n < 0x1_0000

  datatype Settings = Settings(voutMv: UInt16, ioutMa: UInt16, backoffMs: UInt16)

  const DEFAULT: Settings := Settings(9000, 500, 500)

  /** A partial update: only the fields that are present change. */
  datatype SettingsBuilder = SettingsBuilder(
    voutMv: Option<UInt16>, ioutMa: Option<UInt16>, backoffMs: Option<UInt16>)

  function GetOr<T>(o: Option<T>, default: T): T {
    match o case Some(v) => v case None => default
  }

  function Integrated(s: Settings, b: SettingsBuilder): Settings {
    Settings(GetOr(b.voutMv, s.voutMv), GetOr(b.ioutMa, s.ioutMa), GetOr(b.backoffMs, s.backoffMs))
  }

  /** `Settings::integrate`: field by field, what is present replaces and what is absent stays. */
  method Integrate(s: Settings, value: SettingsBuilder) returns (r: Settings)
    ensures r == Integrated(s, value)
    ensures if value.voutMv.None? then r.voutMv == s.voutMv else value.voutMv == Some(r.voutMv)
    ensures if value.ioutMa.None? then r.ioutMa == s.ioutMa else value.ioutMa == Some(r.ioutMa)
    ensures if value.backoffMs.None? then r.backoffMs == s.backoffMs else value.backoffMs == Some(r.backoffMs)
  {
    r := s;
    if value.voutMv.Some? {
      r := r.(voutMv := value.voutMv.value);
    }
    if value.ioutMa.Some? {
      r := r.(ioutMa := value.ioutMa.value);
    }
    if value.backoffMs.Some? {
      r := r.(backoffMs := value.backoffMs.value);
    }
  }

  function Fetched(flash: Option<Settings>): Settings {
    GetOr(flash, DEFAULT)
  }

  /** Where the holder of the lock is, if any: settings changed but not stored; stored but not
      published. Publishing waits for subscribers, so the lock can be held for long. */
  datatype Lock = Free | Changed | Stored

  /** `kept` lists the updates since the beginning of time that were not lost in a restart, on top of
      `base`; `stores` counts flash writes. */
  datatype World = World(
    ram: Settings, flash: Option<Settings>, lock: Lock,
    base: Settings, kept: seq<SettingsBuilder>, stores: nat)

  datatype Step =
    | Begin(update: SettingsBuilder)
    | Store
    | Publish
    | Restart

  predicate Enabled(w: World, s: Step) {
    match s
    case Begin(_) => w.lock.Free?
    case Store => w.lock.Changed?
    case Publish => w.lock.Stored?
    case Restart => true
  }

  /** A restart reads the settings back from flash; an update that was not stored yet is lost. */
  function Next(w: World, s: Step): World
    requires Enabled(w, s)
  {
    match s
    case Begin(update) =>
      var ram := Integrated(w.ram, update);
      w.(ram := ram, lock := if ram != w.ram then Changed else Free, kept := w.kept + [update])
    case Store => w.(flash := Some(w.ram), lock := Stored, stores := w.stores + 1)
    case Publish => w.(lock := Free)
    case Restart =>
      w.(ram := Fetched(w.flash), lock := Free,
         kept := if w.lock.Changed? && w.kept != [] then w.kept[..|w.kept| - 1] else w.kept)
  }

  function Fold(base: Settings, us: seq<SettingsBuilder>): Settings {
    if us == [] then base else Integrated(Fold(base, us[..|us| - 1]), us[|us| - 1])
  }

  /** The one field's values that updates carry, in order. */
  function Vouts(us: seq<SettingsBuilder>): seq<Option<UInt16>> {
    seq(|us|, k requires 0 <= k < |us| => us[k].voutMv)
  }

  function Iouts(us: seq<SettingsBuilder>): seq<Option<UInt16>> {
    seq(|us|, k requires 0 <= k < |us| => us[k].ioutMa)
  }

  function Backoffs(us: seq<SettingsBuilder>): seq<Option<UInt16>> {
    seq(|us|, k requires 0 <= k < |us| => us[k].backoffMs)
  }

  /** `value` is the last one present, or `base` if none is. */
  ghost predicate IsLatest(value: UInt16, base: UInt16, os: seq<Option<UInt16>>) {
    if forall k | 0 <= k < |os| :: os[k].None? then value == base
    else exists k :: 0 <= k < |os| && os[k] == Some(value) && forall j | k < j < |os| :: os[j].None?
  }

  lemma LatestExtends(value: UInt16, base: UInt16, os: seq<Option<UInt16>>, o: Option<UInt16>)
    requires IsLatest(value, base, os)
    ensures IsLatest(GetOr(o, value), base, os + [o])
  {
    var all := os + [o];
    if o.Some? {
      assert all[|os|] == Some(o.value);
    } else if k :| 0 <= k < |os| && os[k] == Some(value) && forall j | k < j < |os| :: os[j].None? {
      assert all[k] == Some(value);
    }
  }

  /** Each field of the fold is the latest value given for that field. */
  lemma {:induction false} FoldIsLatest(base: Settings, us: seq<SettingsBuilder>)
    ensures IsLatest(Fold(base, us).voutMv, base.voutMv, Vouts(us))
    ensures IsLatest(Fold(base, us).ioutMa, base.ioutMa, Iouts(us))
    ensures IsLatest(Fold(base, us).backoffMs, base.backoffMs, Backoffs(us))
  {
    if us != [] {
      var init, u := us[..|us| - 1], us[|us| - 1];
      var before := Fold(base, init);
      FoldIsLatest(base, init);
      LatestExtends(before.voutMv, base.voutMv, Vouts(init), u.voutMv);
      LatestExtends(before.ioutMa, base.ioutMa, Iouts(init), u.ioutMa);
      LatestExtends(before.backoffMs, base.backoffMs, Backoffs(init), u.backoffMs);
      assert Vouts(us) == Vouts(init) + [u.voutMv];
      assert Iouts(us) == Iouts(init) + [u.ioutMa];
      assert Backoffs(us) == Backoffs(init) + [u.backoffMs];
    }
  }

  /** How many of the updates changed anything when they were integrated. */
  function Changes(base: Settings, us: seq<SettingsBuilder>): nat {
    if us == [] then 0
    else Changes(base, us[..|us| - 1]) + if Fold(base, us) != Fold(base, us[..|us| - 1]) then 1 else 0
  }

  ghost predicate Inv(w: World) {
    && (w.lock.Changed? ==> w.kept != [])
    && w.ram == Fold(w.base, w.kept)
    && var durable := if w.lock.Changed? then w.kept[..|w.kept| - 1] else w.kept;
       Fetched(w.flash) == Fold(w.base, durable) && w.stores == Changes(w.base, durable)
       && (w.lock.Changed? ==> Fetched(w.flash) != w.ram)
  }

  lemma StepInv(w: World, s: Step)
    requires Inv(w) && Enabled(w, s)
    ensures Inv(Next(w, s))
  {
    var w' := Next(w, s);
    if s.Begin? {
      assert w'.kept[..|w.kept|] == w.kept;
    }
  }

  ghost predicate Run(t: seq<Step>, ws: seq<World>) {
    && |ws| == |t| + 1
    && ws[0].ram == Fetched(ws[0].flash) == ws[0].base
    && ws[0].lock.Free? && ws[0].kept == [] && ws[0].stores == 0
    && forall k | 0 <= k < |t| :: Enabled(ws[k], t[k]) && ws[k + 1] == Next(ws[k], t[k])
  }

  lemma {:induction false} RunInv(t: seq<Step>, ws: seq<World>, n: nat)
    requires Run(t, ws) && n <= |t|
    ensures Inv(ws[n])
  {
    if n > 0 {
      RunInv(t, ws, n - 1);
      StepInv(ws[n - 1], t[n - 1]);
    }
  }

  /** The update received in step `k` is lost: it changed something, and the next step is not the
      store but a restart. */
  predicate Lost(t: seq<Step>, ws: seq<World>, k: nat)
    requires |ws| == |t| + 1 && k < |t|
  {
    ws[k + 1].lock.Changed? && k + 1 < |t| && t[k + 1].Restart?
  }

  /** The updates received within the first `n` steps, in order, without those that are lost. */
  function Surviving(t: seq<Step>, ws: seq<World>, n: nat): seq<SettingsBuilder>
    requires |ws| == |t| + 1 && n <= |t|
  {
    if n == 0 then []
    else Surviving(t, ws, n - 1) + if t[n - 1].Begin? && !Lost(t, ws, n - 1) then [t[n - 1].update] else []
  }

  lemma {:induction false} KeptSurvives(t: seq<Step>, ws: seq<World>, n: nat)
    requires Run(t, ws) && n <= |t|
    ensures if ws[n].lock.Changed? then
              n > 0 && t[n - 1].Begin? && ws[n].kept == Surviving(t, ws, n - 1) + [t[n - 1].update]
            else ws[n].kept == Surviving(t, ws, n)
  {
    if n > 0 {
      KeptSurvives(t, ws, n - 1);
      assert ws[n] == Next(ws[n - 1], t[n - 1]);
    }
  }

  /** Without a restart no update is lost. */
  lemma {:induction false} KeptWithoutRestart(t: seq<Step>, ws: seq<World>, n: nat)
    requires Run(t, ws) && n <= |t| && forall k | 0 <= k < n :: !t[k].Restart?
    ensures ws[n].kept == Received(t, n)
  {
    if n > 0 {
      KeptWithoutRestart(t, ws, n - 1);
      assert ws[n] == Next(ws[n - 1], t[n - 1]);
    }
  }

  /** The updates received within the first `n` steps, in order. */
  function Received(t: seq<Step>, n: nat): seq<SettingsBuilder>
    requires n <= |t|
  {
    if n == 0 then [] else Received(t, n - 1) + if t[n - 1].Begin? then [t[n - 1].update] else []
  }

  /** Agreement over any run, restarts at any point included: whenever the lock is free, flash, RAM
      and the fold of all updates received and not lost agree, so that a restart changes nothing; and
      flash has been written exactly once for each of those updates that changed something. */
  lemma Agreement(t: seq<Step>, ws: seq<World>, n: nat)
    requires Run(t, ws) && n <= |t| && ws[n].lock.Free?
    ensures var w := ws[n];
            && Fetched(w.flash) == w.ram == Fold(w.base, Surviving(t, ws, n))
            && w.stores == Changes(w.base, Surviving(t, ws, n))
            && Next(w, Restart) == w
    ensures (forall k | 0 <= k < n :: !t[k].Restart?) ==> Surviving(t, ws, n) == Received(t, n)
  {
    RunInv(t, ws, n);
    KeptSurvives(t, ws, n);
    if forall k | 0 <= k < n :: !t[k].Restart? {
      KeptWithoutRestart(t, ws, n);
    }
  }

  /** What readers of the settings see: each field is the latest value received for it and not lost, or
      the one found at the beginning. */
  lemma LatestWins(t: seq<Step>, ws: seq<World>, n: nat)
    requires Run(t, ws) && n <= |t| && ws[n].lock.Free?
    ensures var w, us := ws[n], Surviving(t, ws, n);
            && IsLatest(w.ram.voutMv, w.base.voutMv, Vouts(us))
            && IsLatest(w.ram.ioutMa, w.base.ioutMa, Iouts(us))
            && IsLatest(w.ram.backoffMs, w.base.backoffMs, Backoffs(us))
  {
    Agreement(t, ws, n);
    FoldIsLatest(ws[n].base, Surviving(t, ws, n));
  }

  /** An update that runs to completion. */
  function Updated(w: World, update: SettingsBuilder): World
    requires w.lock.Free?
  {
    var w1 := Next(w, Begin(update));
    if w1.lock.Changed? then Next(Next(w1, Store), Publish) else w1
  }

  lemma UpdatedInv(w: World, update: SettingsBuilder)
    requires Inv(w) && w.lock.Free?
    ensures Inv(Updated(w, update))
  {
    StepInv(w, Begin(update));
    var w1 := Next(w, Begin(update));
    if w1.lock.Changed? {
      StepInv(w1, Store);
      StepInv(Next(w1, Store), Publish);
    }
  }

  class Configuration {
    var settings: Settings
    var flash: Option<Settings>
    ghost var base: Settings
    ghost var kept: seq<SettingsBuilder>
    ghost var stores: nat

    ghost function State(): World
      reads this
    {
      World(settings, flash, Free, base, kept, stores)
    }

    ghost predicate Valid()
      reads this
    {
      Inv(State())
    }

    /** `Config::init`. */
    constructor (flash: Option<Settings>)
      ensures Valid()
      ensures State() == World(Fetched(flash), flash, Free, Fetched(flash), [], 0)
      ensures settings == match flash case Some(s) => s case None => Settings(9000, 500, 500)
    {
      settings := if flash.Some? then flash.value else DEFAULT;
      this.flash := flash;
      base, kept, stores := Fetched(flash), [], 0;
    }

    /** `update` with an integrating closure, run to completion. Returns whether it was stored:
        exactly if something changed. */
    method Update(update: SettingsBuilder) returns (stored: bool)
      requires Valid()
      modifies this
      ensures Valid()
      ensures State() == Updated(old(State()), update)
      ensures stored == (settings != old(settings))
      ensures flash == if stored then Some(settings) else old(flash)
    {
      UpdatedInv(State(), update);
      var oldSettings := settings;
      settings := Integrate(settings, update);
      kept := kept + [update];
      stored := oldSettings != settings;
      if stored {
        flash := Some(settings);
        stores := stores + 1;
      }
      assert State() == Updated(old(State()), update);
    }
  }
}
