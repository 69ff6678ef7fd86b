/** The shape of the event stream of a whole session. */
module StreamGrammar {
  import opened Positions
  import opened Recordings
  import opened Events
  import opened Differences
  import opened Sessions
  import opened Synchronisation

  // Fresh, then Startup up to the first breakpoint; after that each block leads
  // from Stopped through exits, starts, unloads and loads, in this order and
  // each possibly empty, to a stop event and so back to Stopped.
  datatype Phase = Fresh | Startup | Stopped | Exits | Starts | Unloading | Loading | Broken

  function Advance(ph: Phase, e: Event): Phase {
    match ph
    case Fresh => if e.ProcessStarted? then Startup else Broken
    case Startup =>
      if e.ThreadStarted? || e.LibLoaded? then Startup else if e.Breakpoint? then Stopped else Broken
    case Broken => Broken
    case _ =>
      if e.ThreadExited? && (ph.Stopped? || ph.Exits?) then Exits
      else if e.ThreadStarted? && (ph.Stopped? || ph.Exits? || ph.Starts?) then Starts
      else if e.LibUnloaded? && !ph.Loading? then Unloading
      else if e.LibLoaded? then Loading
      else if e.IsStop() then Stopped
      else Broken
  }

  function Scan(ph: Phase, es: seq<Event>): Phase {
    if es == [] then ph else Advance(Scan(ph, es[..|es| - 1]), es[|es| - 1])
  }

  lemma {:induction false} ScanConcat(ph: Phase, es: seq<Event>, fs: seq<Event>)
    ensures Scan(ph, es + fs) == Scan(Scan(ph, es), fs)
  {
    if fs == [] {
      assert es + fs == es;
    } else {
      assert (es + fs)[..|es + fs| - 1] == es + fs[..|fs| - 1];
      ScanConcat(ph, es, fs[..|fs| - 1]);
    }
  }

  lemma ScanOne(ph: Phase, es: seq<Event>, e: Event)
    ensures Scan(ph, es + [e]) == Advance(Scan(ph, es), e)
  {
    assert (es + [e])[..|es|] == es;
  }

  // Scanning events that all leave phase ph alone, or lead from ph into q and
  // leave q alone.
  lemma {:induction false} ScanGroup(ph: Phase, q: Phase, es: seq<Event>)
    requires forall e :: e in es ==> Advance(ph, e) == q && Advance(q, e) == q
    ensures Scan(ph, es) == if es == [] then ph else q
  {
    if es != [] {
      ScanGroup(ph, q, es[..|es| - 1]);
    }
  }

  lemma {:induction false} OnlyUnloads(ctx: Context, ms: seq<ModuleId>)
    ensures forall e :: e in Unloads(ctx, ms) ==> e.LibUnloaded?
  {
    if ms != [] { OnlyUnloads(ctx, ms[..|ms| - 1]); }
  }

  lemma {:induction false} OnlyTargetLoads(ctx: Context, n: nat)
    ensures forall e :: e in TargetLoads(ctx, n) ==> e.LibLoaded? && ctx.isTarget(e.name)
  {
    if 1 < n { OnlyTargetLoads(ctx, n - 1); }
  }

  lemma NoStopAmong(a: seq<Event>, b: seq<Event>, c: seq<Event>, d: seq<Event>)
    requires forall e :: e in a || e in b || e in c || e in d ==> !e.IsStop()
    ensures forall e :: e in a + b + c + d ==> !e.IsStop()
  {
  }

  lemma MoveHasNoStopEvents(ctx: Context, i: nat, j: nat)
    requires i < |ctx.recording.moments| && j < |ctx.recording.moments|
    ensures forall e :: e in Move(ctx, i, j) ==> !e.IsStop()
  {
    var r := ctx.recording;
    OnlyUnloads(ctx, Ascending(r.ModuleSet(i) - r.ModuleSet(j)));
    NoStopAmong(ThreadExits(Ascending(r.ThreadSet(i) - r.ThreadSet(j))),
                ThreadStarts(Ascending(r.ThreadSet(j) - r.ThreadSet(i))),
                Unloads(ctx, Ascending(r.ModuleSet(i) - r.ModuleSet(j))),
                Loads(ctx, Ascending(r.ModuleSet(j) - r.ModuleSet(i))));
  }

  // How far into a block a phase is; outside of blocks there is no rank.
  function Rank(ph: Phase): int {
    match ph
    case Stopped => 0
    case Exits => 1
    case Starts => 2
    case Unloading => 3
    case Loading => 4
    case _ => -1
  }

  lemma ScanRank(ph: Phase, q: Phase, es: seq<Event>)
    requires 0 <= Rank(ph) <= Rank(q) && q != Stopped
    requires forall e :: e in es ==>
               match q case Exits => e.ThreadExited? case Starts => e.ThreadStarted?
                       case Unloading => e.LibUnloaded? case _ => e.LibLoaded?
    ensures 0 <= Rank(Scan(ph, es)) <= Rank(q)
  {
    ScanGroup(ph, q, es);
  }

  lemma ScanGroups(exits: seq<Event>, starts: seq<Event>, unloads: seq<Event>, loads: seq<Event>)
    requires forall e :: e in exits ==> e.ThreadExited?
    requires forall e :: e in starts ==> e.ThreadStarted?
    requires forall e :: e in unloads ==> e.LibUnloaded?
    requires forall e :: e in loads ==> e.LibLoaded?
    ensures Rank(Scan(Stopped, exits + starts + unloads + loads)) >= 0
  {
    ScanConcat(Stopped, exits + starts + unloads, loads);
    ScanConcat(Stopped, exits + starts, unloads);
    ScanConcat(Stopped, exits, starts);
    ScanRank(Stopped, Exits, exits);
    ScanRank(Scan(Stopped, exits), Starts, starts);
    ScanRank(Scan(Stopped, exits + starts), Unloading, unloads);
    ScanRank(Scan(Stopped, exits + starts + unloads), Loading, loads);
  }

  lemma ScanBlock(ctx: Context, i: nat, j: nat, stop: Event)
    requires i < |ctx.recording.moments| && j < |ctx.recording.moments| && stop.IsStop()
    ensures Scan(Stopped, Move(ctx, i, j) + [stop]) == Stopped
  {
    var r := ctx.recording;
    OnlyUnloads(ctx, Ascending(r.ModuleSet(i) - r.ModuleSet(j)));
    ScanGroups(ThreadExits(Ascending(r.ThreadSet(i) - r.ThreadSet(j))),
               ThreadStarts(Ascending(r.ThreadSet(j) - r.ThreadSet(i))),
               Unloads(ctx, Ascending(r.ModuleSet(i) - r.ModuleSet(j))),
               Loads(ctx, Ascending(r.ModuleSet(j) - r.ModuleSet(i))));
    ScanOne(Stopped, Move(ctx, i, j), stop);
    hide Scan;
  }

  lemma ScanStartup(main: Event, targets: seq<Event>, starts: seq<Event>, loads: seq<Event>, stop: Event)
    requires main.ProcessStarted? && stop.Breakpoint?
    requires forall e :: e in targets || e in loads ==> e.LibLoaded?
    requires forall e :: e in starts ==> e.ThreadStarted?
    ensures Scan(Fresh, [main] + targets + starts + loads + [stop]) == Stopped
  {
    var first := [main];
    ScanConcat(Fresh, first + targets + starts + loads, [stop]);
    ScanConcat(Fresh, first + targets + starts, loads);
    ScanConcat(Fresh, first + targets, starts);
    ScanConcat(Fresh, first, targets);
    ScanGroup(Startup, Startup, targets);
    ScanGroup(Startup, Startup, starts);
    ScanGroup(Startup, Startup, loads);
    assert first[..0] == [] && [stop][..0] == [];
  }

  lemma ScanStart(ctx: Context)
    requires ctx.recording.moments != []
    ensures Scan(Fresh, StartEvents(ctx)) == Stopped
  {
    var r := ctx.recording;
    OnlyTargetLoads(ctx, |r.moduleList|);
    hide Scan;
    ScanStartup(MainModule(ctx), if ctx.isTarget(ctx.Path(0)) then [] else TargetLoads(ctx, |r.moduleList|),
                ThreadStarts(Tail(r.moments[0].threads)), Loads(ctx, Tail(r.moments[0].modules)), BreakAt(r, 0));
  }

  /** In every state of every run the log consists of the start-up events and
      complete blocks, so a consumer is never left inside a block. */
  lemma {:induction false} StreamIsWellFormed(ctx: Context, states: seq<Session>, cmds: seq<Command>)
    requires IsRun(ctx, states, cmds)
    ensures Scan(Fresh, Final(states).Log()) == Stopped
  {
    if cmds == [] {
      ScanStart(ctx);
      assert states[0].Log() == StartEvents(ctx);
    } else {
      RunPrefix(ctx, states, cmds);
      StreamIsWellFormed(ctx, states[..|cmds|], cmds[..|cmds| - 1]);
      var s, c, t := states[|cmds| - 1], cmds[|cmds| - 1], Final(states);
      StepLog(ctx, s, c, t);
      if Productive(s, c) {
        var stop := Stop(ctx.recording, s, t.at);
        ScanConcat(Fresh, s.Log(), Move(ctx, s.at, t.at) + [stop]);
        ScanBlock(ctx, s.at, t.at, stop);
      }
    }
  }

  // -------------------------------------------------------------------------
  // Starts alternate with exits, loads with unloads

  // The event brings news: a started thread was not known, an exited one was;
  // likewise loads and unloads of the given path, if one is given.
  predicate News(v: View, e: Event, key: Option<string>) {
    match e
    case ThreadStarted(t) => t !in v.threads
    case ThreadExited(t) => t in v.threads
    case LibLoaded(name, _, _, _) => key == Some(name) ==> name !in v.modules
    case LibUnloaded(name) => key == Some(name) ==> name in v.modules
    case _ => true
  }

  predicate Alternates(v: View, es: seq<Event>, key: Option<string>) {
    es == [] || (Alternates(v, es[..|es| - 1], key) && News(ObserveAll(v, es[..|es| - 1]), es[|es| - 1], key))
  }

  lemma {:induction false} AlternatesConcat(v: View, es: seq<Event>, fs: seq<Event>, key: Option<string>)
    ensures Alternates(v, es + fs, key) <==> Alternates(v, es, key) && Alternates(ObserveAll(v, es), fs, key)
  {
    if fs == [] {
      assert es + fs == es;
    } else {
      var init := fs[..|fs| - 1];
      assert (es + fs)[..|es + fs| - 1] == es + init;
      AlternatesConcat(v, es, init, key);
      ObserveConcat(v, es, init);
    }
  }

  lemma {:induction false} ExitsAlternate(v: View, ts: seq<ThreadId>, key: Option<string>)
    requires Distinct(ts) && forall t :: t in ts ==> t in v.threads
    ensures Alternates(v, ThreadExits(ts), key)
  {
    if ts != [] {
      var init := ts[..|ts| - 1];
      assert ThreadExits(ts)[..|ts| - 1] == ThreadExits(init);
      ExitsAlternate(v, init, key);
      ObserveExits(v, init);
    }
  }

  lemma {:induction false} StartsAlternate(v: View, ts: seq<ThreadId>, key: Option<string>)
    requires Distinct(ts) && forall t :: t in ts ==> t !in v.threads
    ensures Alternates(v, ThreadStarts(ts), key)
  {
    if ts != [] {
      var init := ts[..|ts| - 1];
      assert ThreadStarts(ts)[..|ts| - 1] == ThreadStarts(init);
      StartsAlternate(v, init, key);
      ObserveStarts(v, init);
    }
  }

  ghost predicate OncePerPath(ctx: Context, ms: seq<ModuleId>, key: Option<string>) {
    forall i, j :: 0 <= i < j < |ms| ==> !(Some(ctx.Path(ms[i])) == key == Some(ctx.Path(ms[j])))
  }

  lemma {:induction false} UnloadsAlternate(ctx: Context, v: View, ms: seq<ModuleId>, key: Option<string>)
    requires OncePerPath(ctx, ms, key)
    requires (exists m :: m in ms && Some(ctx.Path(m)) == key) ==> key.value in v.modules
    ensures Alternates(v, Unloads(ctx, ms), key)
  {
    if ms != [] {
      var init, m := ms[..|ms| - 1], ms[|ms| - 1];
      assert forall x :: x in init ==> x in ms;
      UnloadsAlternate(ctx, v, init, key);
      if key.Some? { ObserveUnloads(ctx, v, init, key.value); }
      var all := Unloads(ctx, ms);
      if ctx.isTarget(ctx.Path(m)) {
        assert all == Unloads(ctx, init);
      } else {
        assert all[..|all| - 1] == Unloads(ctx, init);
        assert m in ms;
      }
    }
  }

  lemma {:induction false} LoadsAlternate(ctx: Context, v: View, ms: seq<ModuleId>, key: Option<string>)
    requires OncePerPath(ctx, ms, key)
    requires (exists m :: m in ms && Some(ctx.Path(m)) == key) ==> key.value !in v.modules
    ensures Alternates(v, Loads(ctx, ms), key)
  {
    if ms != [] {
      var init, m := ms[..|ms| - 1], ms[|ms| - 1];
      assert forall x :: x in init ==> x in ms;
      LoadsAlternate(ctx, v, init, key);
      if key.Some? { ObserveLoads(ctx, v, init, key.value); }
      assert Loads(ctx, ms)[..|ms| - 1] == Loads(ctx, init);
      assert m in ms;
    }
  }

  lemma OncePerAscending(ctx: Context, s: set<ModuleId>, i: nat, key: Option<string>)
    requires i < |ctx.recording.moments| && s <= ctx.recording.ModuleSet(i)
    requires key.Some? ==> ctx.Alone(i, key.value)
    ensures OncePerPath(ctx, Ascending(s), key)
  {
    var ms := Ascending(s);
    forall a, b | 0 <= a < b < |ms| ensures !(Some(ctx.Path(ms[a])) == key == Some(ctx.Path(ms[b]))) {
      assert ms[a] in s && ms[b] in s && ms[a] < ms[b];
    }
  }

  lemma MoveAlternates(ctx: Context, v: View, i: nat, j: nat, key: Option<string>)
    requires i < |ctx.recording.moments| && j < |ctx.recording.moments|
    requires ThreadsSynced(ctx, i, v)
    requires key.Some? ==> !ctx.isTarget(key.value) && ModuleSynced(ctx, i, v, key.value)
    requires key.Some? ==> ctx.Alone(i, key.value) && ctx.Alone(j, key.value)
    ensures Alternates(v, Move(ctx, i, j), key)
  {
    var r := ctx.recording;
    var exited, started := Ascending(r.ThreadSet(i) - r.ThreadSet(j)), Ascending(r.ThreadSet(j) - r.ThreadSet(i));
    var gone, come := Ascending(r.ModuleSet(i) - r.ModuleSet(j)), Ascending(r.ModuleSet(j) - r.ModuleSet(i));
    var exits, starts := ThreadExits(exited), ThreadStarts(started);
    var unloads, loads := Unloads(ctx, gone), Loads(ctx, come);
    AlternatesConcat(v, exits + starts + unloads, loads, key);
    AlternatesConcat(v, exits + starts, unloads, key);
    AlternatesConcat(v, exits, starts, key);
    ObserveConcat(v, exits + starts, unloads);
    ObserveConcat(v, exits, starts);
    ObserveExits(v, exited);
    ObserveStarts(ObserveAll(v, exits), started);
    ExitsAlternate(v, exited, key);
    StartsAlternate(ObserveAll(v, exits), started, key);
    OncePerAscending(ctx, r.ModuleSet(i) - r.ModuleSet(j), i, key);
    OncePerAscending(ctx, r.ModuleSet(j) - r.ModuleSet(i), j, key);
    var u := ObserveAll(v, exits + starts);
    UnloadsAlternate(ctx, u, gone, key);
    if key.Some? { ObserveUnloads(ctx, u, gone, key.value); }
    LoadsAlternate(ctx, ObserveAll(u, unloads), come, key);
  }

  // Five groups in a row, and the views between them.
  lemma ConcatAlternates(v: View, a: seq<Event>, b: seq<Event>, c: seq<Event>, d: seq<Event>, e: seq<Event>, key: Option<string>)
    requires Alternates(v, a, key)
    requires Alternates(ObserveAll(v, a), b, key)
    requires Alternates(ObserveAll(ObserveAll(v, a), b), c, key)
    requires Alternates(ObserveAll(ObserveAll(ObserveAll(v, a), b), c), d, key)
    requires Alternates(ObserveAll(v, a + b + c + d), e, key)
    ensures Alternates(v, a + b + c + d + e, key)
  {
    AlternatesConcat(v, a + b + c + d, e, key);
    AlternatesConcat(v, a + b + c, d, key);
    AlternatesConcat(v, a + b, c, key);
    AlternatesConcat(v, a, b, key);
    ObserveConcat(v, a + b, c);
    ObserveConcat(v, a, b);
  }

  lemma AlwaysNews(v: View, e: Event, key: Option<string>)
    requires e.ProcessStarted? || e.IsStop()
    ensures Alternates(v, [e], key)
  {
    assert [e][..0] == [] && Alternates(v, [], key) && News(ObserveAll(v, []), e, key);
  }

  lemma TargetLoadsAlternate(ctx: Context, v: View, key: Option<string>) returns (loads: seq<Event>, w: View)
    requires key.Some? ==> !ctx.isTarget(key.value)
    ensures loads == if ctx.isTarget(ctx.Path(0)) then [] else TargetLoads(ctx, |ctx.recording.moduleList|)
    ensures Alternates(v, loads, key) && w == ObserveAll(v, loads)
    ensures w.threads == v.threads && (key.Some? ==> (key.value in w.modules <==> key.value in v.modules))
  {
    loads := if ctx.isTarget(ctx.Path(0)) then [] else TargetLoads(ctx, |ctx.recording.moduleList|);
    w := ObserveAll(v, loads);
    ObserveTargetLoads(ctx, v, |ctx.recording.moduleList|, if key.Some? then key.value else "");
    OnlyTargetLoads(ctx, |ctx.recording.moduleList|);
    OtherLoadsAlternate(v, loads, key);
  }

  lemma StartAlternates(ctx: Context, key: Option<string>)
    requires MainFirst(ctx.recording)
    requires key.Some? ==> ctx.Alone(0, key.value) && !ctx.isTarget(key.value)
    ensures Alternates(NOTHING, StartEvents(ctx), key)
  {
    var r := ctx.recording;
    var threads, modules := Tail(r.moments[0].threads), Tail(r.moments[0].modules);
    var first, stop := MainModule(ctx), BreakAt(r, 0);
    AlwaysNews(NOTHING, first, key);
    var main := ObserveAll(NOTHING, [first]);
    assert main == View({r.moments[0].thread}, map[ctx.Path(0) := ctx.Base(0)]) by {
      assert [first][..0] == [];
    }
    var targets, v := TargetLoadsAlternate(ctx, main, key);
    assert r.moments[0].threads == [r.moments[0].threads[0]] + threads;
    StartsAlternate(v, threads, key);
    ObserveStarts(v, threads);
    MainModuleIsAlone(ctx, key);
    LoadsAlternate(ctx, ObserveAll(v, ThreadStarts(threads)), modules, key);
    AlwaysNews(ObserveAll(NOTHING, [first] + targets + ThreadStarts(threads) + Loads(ctx, modules)), stop, key);
    ConcatAlternates(NOTHING, [first], targets, ThreadStarts(threads), Loads(ctx, modules), [stop], key);
  }

  lemma MainModuleIsAlone(ctx: Context, key: Option<string>)
    requires MainFirst(ctx.recording) && (key.Some? ==> ctx.Alone(0, key.value))
    ensures OncePerPath(ctx, Tail(ctx.recording.moments[0].modules), key)
    ensures Some(ctx.Path(0)) == key ==> forall m :: m in Tail(ctx.recording.moments[0].modules) ==> Some(ctx.Path(m)) != key
  {
    var modules := ctx.recording.moments[0].modules;
    var others := Tail(modules);
    assert modules == [0] + others;
    assert Distinct(modules);
    hide Tail;
    if key.Some? {
      var set0 := ctx.recording.ModuleSet(0);
      assert forall m :: m in modules ==> m in set0;
      assert forall m, n :: m in set0 && n in set0 && Some(ctx.Path(m)) == key && Some(ctx.Path(n)) == key ==> m == n;
      hide Distinct, OncePerPath;
      OthersAreAlone(ctx, modules, others, key);
    }
  }

  lemma OthersAreAlone(ctx: Context, modules: seq<ModuleId>, others: seq<ModuleId>, key: Option<string>)
    requires modules == [0] + others && Distinct(modules)
    requires forall m, n :: m in modules && n in modules && Some(ctx.Path(m)) == key && Some(ctx.Path(n)) == key ==> m == n
    ensures OncePerPath(ctx, others, key)
    ensures Some(ctx.Path(0)) == key ==> forall m :: m in others ==> Some(ctx.Path(m)) != key
  {
    assert modules[0] == 0 && forall k :: 0 <= k < |others| ==> others[k] == modules[k + 1];
  }

  lemma {:induction false} OtherLoadsAlternate(v: View, es: seq<Event>, key: Option<string>)
    requires forall e :: e in es ==> e.LibLoaded? && Some(e.name) != key
    ensures Alternates(v, es, key)
  {
    if es != [] {
      OtherLoadsAlternate(v, es[..|es| - 1], key);
      assert es[|es| - 1] in es && News(ObserveAll(v, es[..|es| - 1]), es[|es| - 1], key);
    }
  }

  lemma StepAlternates(ctx: Context, s: Session, c: Command, t: Session, key: Option<string>)
    requires Next(ctx, s, c, t) && t.at < |ctx.recording.moments| && ThreadsSynced(ctx, s.at, s.Picture())
    requires key.Some? ==> !ctx.isTarget(key.value) && ModuleSynced(ctx, s.at, s.Picture(), key.value)
    requires key.Some? ==> ctx.Alone(s.at, key.value) && ctx.Alone(t.at, key.value)
    requires Alternates(NOTHING, s.Log(), key)
    ensures Alternates(NOTHING, t.Log(), key)
  {
    StepLog(ctx, s, c, t);
    if Productive(s, c) {
      var move, stop := Move(ctx, s.at, t.at), Stop(ctx.recording, s, t.at);
      MoveAlternates(ctx, s.Picture(), s.at, t.at, key);
      AlwaysNews(ObserveAll(s.Picture(), move), stop, key);
      AlternatesConcat(s.Picture(), move, [stop], key);
      AlternatesConcat(NOTHING, s.Log(), move + [stop], key);
    }
  }

  /** Over every run started and exited alternate for each thread; and so do
      loaded and unloaded for each non-target path that one module at a time
      carries at the moments visited. */
  lemma {:induction false} StreamAlternates(ctx: Context, states: seq<Session>, cmds: seq<Command>, key: Option<string>)
    requires MainFirst(ctx.recording) && IsRun(ctx, states, cmds)
    requires key.Some? ==> AloneThroughout(ctx, states, key.value) && !ctx.isTarget(key.value)
    ensures Alternates(NOTHING, Final(states).Log(), key)
  {
    hide Next, Alternates, StartEvents;
    assert Final(states) in states;
    if cmds == [] {
      StartAlternates(ctx, key);
      assert states[0].Log() == StartEvents(ctx);
    } else {
      RunPrefix(ctx, states, cmds);
      var before := states[..|cmds|];
      assert forall s :: s in before ==> s in states;
      assert Final(before) in before;
      StreamAlternates(ctx, before, cmds[..|cmds| - 1], key);
      ThreadsStaySynced(ctx, before, cmds[..|cmds| - 1]);
      ThreadsStaySynced(ctx, states, cmds);
      if key.Some? {
        AloneIsFollowed(ctx, before, key.value);
        ModuleIsTracked(ctx, before, cmds[..|cmds| - 1], key.value);
      }
      StepAlternates(ctx, Final(before), cmds[|cmds| - 1], Final(states), key);
    }
  }
}
