/** What a consumer knows when it handles a stop event, however far the debugger
    has moved on meanwhile. */
module Consumer {
  import opened Positions
  import opened Recordings
  import opened Events
  import opened Differences
  import opened Sessions
  import opened Synchronisation
  import opened StreamGrammar

  // The stop's own thread, and for a breakpoint its address, are the moment's.
  predicate StopsAt(e: Event, m: Moment) {
    match e
    case Breakpoint(thread, ea) => thread == m.thread && ea == m.pc
    case Step(thread) => thread == m.thread
    case _ => false
  }

  // The log of the last of these states ends with a stop, and describes the one
  // moment at which that state stands: its thread and address, its threads, and
  // every path the states let a consumer follow.
  ghost predicate AccurateStop(ctx: Context, states: seq<Session>, log: seq<Event>) {
    && log != [] && states != [] && Final(states).Log() == log
    && var i := Final(states).at;
    && i < |ctx.recording.moments| && StopsAt(log[|log| - 1], ctx.recording.moments[i])
    && ThreadsSynced(ctx, i, ObserveAll(NOTHING, log))
    && forall path :: Followed(ctx, states, path) ==> InStep(ctx, i, ObserveAll(NOTHING, log), path)
  }

  lemma AccurateAtEnd(ctx: Context, states: seq<Session>, cmds: seq<Command>)
    requires MainFirst(ctx.recording) && IsRun(ctx, states, cmds)
    requires var log := Final(states).Log(); var i := Final(states).at;
             log != [] && i < |ctx.recording.moments|
             && (log[|log| - 1] == BreakAt(ctx.recording, i) || log[|log| - 1] == StepAt(ctx.recording, i))
    ensures AccurateStop(ctx, states, Final(states).Log())
  {
    ThreadsStaySynced(ctx, states, cmds);
    forall path | Followed(ctx, states, path)
      ensures InStep(ctx, Final(states).at, Final(states).Picture(), path)
    {
      ModuleIsTracked(ctx, states, cmds, path);
    }
    hide InStep, Followed;
  }

  lemma OnlyLastStops(ctx: Context, i: nat, j: nat, k: nat)
    requires i < |ctx.recording.moments| && j < |ctx.recording.moments| && k < |Move(ctx, i, j)|
    ensures !Move(ctx, i, j)[k].IsStop()
  {
    MoveHasNoStopEvents(ctx, i, j);
    assert Move(ctx, i, j)[k] in Move(ctx, i, j);
  }

  lemma StartStopsOnce(ctx: Context, k: nat)
    requires ctx.recording.moments != [] && k < |StartEvents(ctx)| && StartEvents(ctx)[k].IsStop()
    ensures k == |StartEvents(ctx)| - 1
  {
    var all := StartEvents(ctx);
    OnlyTargetLoads(ctx, |ctx.recording.moduleList|);
    var init := all[..|all| - 1];
    assert init == [MainModule(ctx)]
      + (if ctx.isTarget(ctx.Path(0)) then [] else TargetLoads(ctx, |ctx.recording.moduleList|))
      + ThreadStarts(Tail(ctx.recording.moments[0].threads))
      + Loads(ctx, Tail(ctx.recording.moments[0].modules));
    assert forall e :: e in init ==> !e.IsStop();
    forall j | 0 <= j < |init| ensures !all[j].IsStop() {
      assert all[j] == init[j] && init[j] in init;
    }
  }

  // Where a stop sits in a log extended by one step.
  lemma StopAfterStep(ctx: Context, s: Session, c: Command, t: Session, k: nat)
    requires Next(ctx, s, c, t) && 0 < k <= |t.Log()| && t.Log()[k - 1].IsStop()
    ensures t.at < |ctx.recording.moments|
    ensures if k <= |s.Log()|
            then t.Log()[..k] == s.Log()[..k] && t.Log()[k - 1] == s.Log()[k - 1]
            else k == |t.Log()| && (t.Log()[k - 1] == BreakAt(ctx.recording, t.at) || t.Log()[k - 1] == StepAt(ctx.recording, t.at))
  {
    hide Move, Next;
    StepLog(ctx, s, c, t);
    if Productive(s, c) {
      var move, stop := Move(ctx, s.at, t.at), Stop(ctx.recording, s, t.at);
      if |s.Log()| < k {
        var j := k - 1 - |s.Log()|;
        assert t.Log()[k - 1] == (move + [stop])[j];
        if j < |move| { OnlyLastStops(ctx, s.at, t.at, j); }
      }
    }
  }

  lemma FirstStopIsAccurate(ctx: Context, states: seq<Session>, k: nat)
    requires MainFirst(ctx.recording) && IsRun(ctx, states, [])
    requires 0 < k <= |Final(states).Log()| && Final(states).Log()[k - 1].IsStop()
    ensures k == |Final(states).Log()| && AccurateStop(ctx, states, Final(states).Log())
  {
    hide AccurateStop;
    assert Final(states).Log() == StartEvents(ctx);
    StartStopsOnce(ctx, k - 1);
    AccurateAtEnd(ctx, states, []);
  }

  /** At every stop event in the log of a run the events up to it describe
      exactly one moment, with all its threads and every followed path: the one
      at which the cursor stood when the log ended with that event, which is when
      it was sent. */
  lemma {:induction false} EveryStopIsAccurate(ctx: Context, states: seq<Session>, cmds: seq<Command>, k: nat) returns (n: nat)
    requires MainFirst(ctx.recording) && IsRun(ctx, states, cmds)
    requires 0 < k <= |Final(states).Log()| && Final(states).Log()[k - 1].IsStop()
    ensures n < |states| && AccurateStop(ctx, states[..n + 1], Final(states).Log()[..k])
  {
    hide Move, Next, AccurateStop, StartEvents;
    var log := Final(states).Log();
    if cmds == [] {
      FirstStopIsAccurate(ctx, states, k);
      n := 0;
      assert states[..1] == states && log[..k] == log;
    } else {
      RunPrefix(ctx, states, cmds);
      var before := states[..|cmds|];
      StopAfterStep(ctx, Final(before), cmds[|cmds| - 1], Final(states), k);
      if k <= |Final(before).Log()| {
        n := EveryStopIsAccurate(ctx, before, cmds[..|cmds| - 1], k);
        assert before[..n + 1] == states[..n + 1];
      } else {
        AccurateAtEnd(ctx, states, cmds);
        n := |cmds|;
        assert states[..n + 1] == states && log[..k] == log;
      }
    }
  }

  /** So a consumer that has just received a stop event knows the threads and
      modules of that stop, whatever is still queued. */
  lemma DeliveredStopIsAccurate(ctx: Context, states: seq<Session>, cmds: seq<Command>) returns (n: nat)
    requires MainFirst(ctx.recording) && IsRun(ctx, states, cmds)
    requires var delivered := Final(states).delivered; delivered != [] && delivered[|delivered| - 1].IsStop()
    ensures n < |states| && AccurateStop(ctx, states[..n + 1], Final(states).delivered)
  {
    var log, delivered := Final(states).Log(), Final(states).delivered;
    assert log[..|delivered|] == delivered;
    n := EveryStopIsAccurate(ctx, states, cmds, |delivered|);
  }

  // -------------------------------------------------------------------------

  // A load announces one of the engine's modules as it is, and asks for a
  // rebase to its base exactly if its path is a target's.
  ghost predicate Genuine(ctx: Context, name: string, base: Address, rebase: Option<Address>, size: nat) {
    && ModuleInfo(name, base, size) in ctx.recording.moduleList
    && rebase == if ctx.isTarget(name) then Some(base) else None
  }

  ghost predicate GenuineEvent(ctx: Context, e: Event) {
    match e
    case ProcessStarted(_, name, base, rebase, size) => Genuine(ctx, name, base, rebase, size)
    case LibLoaded(name, base, rebase, size) => Genuine(ctx, name, base, rebase, size)
    case _ => true
  }

  lemma LoadIsGenuine(ctx: Context, m: ModuleId)
    requires m < |ctx.recording.moduleList|
    ensures GenuineEvent(ctx, Load(ctx, m))
  {
    var info := ctx.recording.moduleList[m];
    assert info == ModuleInfo(info.path, info.base, info.size);
  }

  lemma LoadsAreGenuine(ctx: Context, ms: seq<ModuleId>)
    requires forall m :: m in ms ==> m < |ctx.recording.moduleList|
    ensures forall e :: e in Loads(ctx, ms) ==> GenuineEvent(ctx, e)
  {
    forall i | 0 <= i < |ms| ensures GenuineEvent(ctx, Loads(ctx, ms)[i]) {
      assert ms[i] in ms;
      LoadIsGenuine(ctx, ms[i]);
    }
  }

  lemma {:induction false} TargetLoadsAreGenuine(ctx: Context, n: nat)
    requires n <= |ctx.recording.moduleList|
    ensures forall e :: e in TargetLoads(ctx, n) ==> GenuineEvent(ctx, e)
  {
    if 1 < n {
      TargetLoadsAreGenuine(ctx, n - 1);
      LoadIsGenuine(ctx, n - 1);
    }
  }

  lemma GenuineGroups(ctx: Context, a: seq<Event>, b: seq<Event>, c: seq<Event>, d: seq<Event>)
    requires forall e :: e in a || e in b || e in c || e in d ==> GenuineEvent(ctx, e)
    ensures forall e :: e in a + b + c + d ==> GenuineEvent(ctx, e)
  {
  }

  lemma MoveIsGenuine(ctx: Context, i: nat, j: nat)
    requires ctx.recording.Valid() && i < |ctx.recording.moments| && j < |ctx.recording.moments|
    ensures forall e :: e in Move(ctx, i, j) ==> GenuineEvent(ctx, e)
  {
    var r := ctx.recording;
    OnlyUnloads(ctx, Ascending(r.ModuleSet(i) - r.ModuleSet(j)));
    LoadsAreGenuine(ctx, Ascending(r.ModuleSet(j) - r.ModuleSet(i)));
    GenuineGroups(ctx,
                  ThreadExits(Ascending(r.ThreadSet(i) - r.ThreadSet(j))),
                  ThreadStarts(Ascending(r.ThreadSet(j) - r.ThreadSet(i))),
                  Unloads(ctx, Ascending(r.ModuleSet(i) - r.ModuleSet(j))),
                  Loads(ctx, Ascending(r.ModuleSet(j) - r.ModuleSet(i))));
  }

  lemma StartIsGenuine(ctx: Context)
    requires ctx.recording.Valid()
    ensures forall e :: e in StartEvents(ctx) ==> GenuineEvent(ctx, e)
  {
    var r := ctx.recording;
    LoadIsGenuine(ctx, 0);
    TargetLoadsAreGenuine(ctx, |r.moduleList|);
    var modules := Tail(r.moments[0].modules);
    assert forall m :: m in modules ==> m in r.moments[0].modules;
    LoadsAreGenuine(ctx, modules);
    GenuineGroups(ctx, [MainModule(ctx)],
                  if ctx.isTarget(ctx.Path(0)) then [] else TargetLoads(ctx, |r.moduleList|),
                  ThreadStarts(Tail(r.moments[0].threads)), Loads(ctx, modules));
  }

  /** Every module announced in a run is one of the recording's, with its own
      base and size, and the database is asked to follow exactly the targets. */
  lemma {:induction false} EveryLoadIsGenuine(ctx: Context, states: seq<Session>, cmds: seq<Command>)
    requires IsRun(ctx, states, cmds)
    ensures forall e :: e in Final(states).Log() ==> GenuineEvent(ctx, e)
  {
    hide Move, Next, GenuineEvent;
    if cmds == [] {
      StartIsGenuine(ctx);
      assert states[0].Log() == StartEvents(ctx);
    } else {
      RunPrefix(ctx, states, cmds);
      EveryLoadIsGenuine(ctx, states[..|cmds|], cmds[..|cmds| - 1]);
      var s, c, t := states[|cmds| - 1], cmds[|cmds| - 1], Final(states);
      StepLog(ctx, s, c, t);
      if Productive(s, c) {
        MoveIsGenuine(ctx, s.at, t.at);
        StopIsGenuine(ctx, Stop(ctx.recording, s, t.at));
      }
    }
  }

  lemma StopIsGenuine(ctx: Context, e: Event)
    requires e.IsStop()
    ensures GenuineEvent(ctx, e)
  {
  }
}
