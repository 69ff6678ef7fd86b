/** What a consumer of the event stream knows, over every run of a session. */
module Synchronisation {
  import opened Positions
  import opened Recordings
  import opened Events
  import opened Differences
  import opened Sessions

  // Target modules announced before the cursor's own lists are.
  ghost predicate Announced(ctx: Context, path: string) {
    && ctx.isTarget(path)
    && if ctx.isTarget(ctx.Path(0)) then path == ctx.Path(0)
       else exists m :: 1 <= m < |ctx.recording.moduleList| && ctx.Path(m) == path
  }

  // The target names among entries 1..n of the module list are added, and
  // nothing else changes.
  ghost predicate TargetsLoaded(ctx: Context, v: View, w: View, n: nat, path: string) {
    && w.threads == v.threads
    && (path in w.modules <==>
          path in v.modules || (ctx.isTarget(path) && exists m :: 1 <= m < n && ctx.Path(m) == path))
    && (!ctx.isTarget(path) && path in v.modules ==> w.modules[path] == v.modules[path])
  }

  lemma TargetsLoadedExtends(ctx: Context, v: View, w: View, n: nat, path: string)
    requires TargetsLoaded(ctx, v, w, n, path) && 1 <= n
    ensures TargetsLoaded(ctx, v, if ctx.isTarget(ctx.Path(n)) then Observe(w, Load(ctx, n)) else w, n + 1, path)
  {
    if exists m :: 1 <= m < n + 1 && ctx.Path(m) == path {
      var m :| 1 <= m < n + 1 && ctx.Path(m) == path;
      assert m == n || m < n;
    }
  }

  lemma {:induction false} ObserveTargetLoads(ctx: Context, v: View, n: nat, path: string)
    ensures TargetsLoaded(ctx, v, ObserveAll(v, TargetLoads(ctx, n)), n, path)
  {
    if 1 < n {
      ObserveTargetLoads(ctx, v, n - 1, path);
      var init := TargetLoads(ctx, n - 1);
      assert TargetLoads(ctx, n) == if ctx.isTarget(ctx.Path(n - 1)) then init + [Load(ctx, n - 1)] else init;
      hide TargetLoads, TargetsLoaded, Load;
      TargetsLoadedExtends(ctx, v, ObserveAll(v, init), n - 1, path);
      ObserveOne(v, init, Load(ctx, n - 1));
    }
  }

  // The views between the groups of start-up events.
  lemma ObserveStart(ctx: Context, path: string) returns (main: View, targets: View, started: View)
    requires ctx.recording.moments != []
    ensures main == View({ctx.recording.moments[0].thread}, map[ctx.Path(0) := ctx.Base(0)])
    ensures targets == if ctx.isTarget(ctx.Path(0)) then main
                       else ObserveAll(main, TargetLoads(ctx, |ctx.recording.moduleList|))
    ensures started == targets.(threads := targets.threads + set t | t in Tail(ctx.recording.moments[0].threads))
    ensures Loaded(ctx, started, ObserveAll(NOTHING, StartEvents(ctx)), Tail(ctx.recording.moments[0].modules), path)
  {
    var r := ctx.recording;
    var first := [MainModule(ctx)];
    var loads := if ctx.isTarget(ctx.Path(0)) then [] else TargetLoads(ctx, |r.moduleList|);
    var starts := ThreadStarts(Tail(r.moments[0].threads));
    var modules := Loads(ctx, Tail(r.moments[0].modules));
    var stop := [BreakAt(r, 0)];
    ObserveConcat(NOTHING, first + loads + starts + modules, stop);
    ObserveConcat(NOTHING, first + loads + starts, modules);
    ObserveConcat(NOTHING, first + loads, starts);
    ObserveConcat(NOTHING, first, loads);
    assert first[..0] == [] && stop[..0] == [];
    main := ObserveAll(NOTHING, first);
    targets := ObserveAll(main, loads);
    ObserveStarts(targets, Tail(r.moments[0].threads));
    started := ObserveAll(targets, starts);
    ObserveLoads(ctx, started, Tail(r.moments[0].modules), path);
  }

  /** The start-up events tell the consumer the right threads exactly when the
      cursor lists its current thread first: the source takes that for granted
      by starting its loop at index 1. */
  lemma StartThreads(ctx: Context)
    requires ctx.recording.Valid()
    ensures ThreadsSynced(ctx, 0, ObserveAll(NOTHING, StartEvents(ctx))) <==>
              ctx.recording.moments[0].threads != []
              && ctx.recording.moments[0].threads[0] == ctx.recording.moments[0].thread
  {
    var main, targets, started := ObserveStart(ctx, "");
    var threads := ctx.recording.moments[0].threads;
    ObserveTargetLoads(ctx, main, |ctx.recording.moduleList|, "");
    assert ObserveAll(NOTHING, StartEvents(ctx)).threads
        == {ctx.recording.moments[0].thread} + set t | t in Tail(threads);
    HeadAndTail(threads, ctx.recording.moments[0].thread);
  }

  lemma HeadAndTail(threads: seq<ThreadId>, current: ThreadId)
    requires Distinct(threads)
    ensures {current} + (set t | t in Tail(threads)) == (set t | t in threads) <==> threads != [] && threads[0] == current
  {
    if threads != [] {
      assert threads == [threads[0]] + Tail(threads);
      assert (set t | t in threads) == {threads[0]} + set t | t in Tail(threads);
      assert threads[0] !in Tail(threads);
    } else {
      assert current !in (set t | t in threads);
    }
  }

  // The view before the cursor's modules beyond the main one are announced.
  ghost predicate KnowsMain(ctx: Context, v: View, path: string) {
    && (path == ctx.Path(0) ==> path in v.modules && v.modules[path] == ctx.Base(0))
    && (path != ctx.Path(0) && !ctx.isTarget(path) ==> path !in v.modules)
  }

  lemma CursorModulesAnnounced(ctx: Context, v: View, w: View, path: string)
    requires MainFirst(ctx.recording) && KnowsMain(ctx, v, path)
    requires Loaded(ctx, v, w, Tail(ctx.recording.moments[0].modules), path)
    ensures InStep(ctx, 0, w, path) <==> ctx.OneBase(0, path)
  {
    var modules := ctx.recording.moments[0].modules;
    assert modules == [0] + Tail(modules);
    assert forall m :: m in ctx.recording.ModuleSet(0) <==> m == 0 || m in Tail(modules);
  }

  /** The start-up events tell the right modules exactly as far as paths have one
      base: of several modules with one path only the last announced counts. */
  lemma StartModule(ctx: Context, path: string)
    requires MainFirst(ctx.recording)
    ensures InStep(ctx, 0, ObserveAll(NOTHING, StartEvents(ctx)), path) <==> ctx.OneBase(0, path)
  {
    var main, targets, started := ObserveStart(ctx, path);
    ObserveTargetLoads(ctx, main, |ctx.recording.moduleList|, path);
    hide StartEvents, TargetLoads, ObserveAll, InStep, Loaded;
    CursorModulesAnnounced(ctx, started, ObserveAll(NOTHING, StartEvents(ctx)), path);
  }

  lemma StartTarget(ctx: Context, path: string)
    requires MainFirst(ctx.recording) && ctx.isTarget(path)
    ensures path in ObserveAll(NOTHING, StartEvents(ctx)).modules <==>
              Announced(ctx, path) || ctx.Named(ctx.recording.ModuleSet(0), path)
  {
    var main, targets, started := ObserveStart(ctx, path);
    ObserveTargetLoads(ctx, main, |ctx.recording.moduleList|, path);
    var modules := ctx.recording.moments[0].modules;
    assert modules == [0] + Tail(modules);
    assert forall m :: m in ctx.recording.ModuleSet(0) <==> m == 0 || m in Tail(modules);
  }

  // -------------------------------------------------------------------------
  // All runs

  lemma {:induction false} ThreadsStaySynced(ctx: Context, states: seq<Session>, cmds: seq<Command>)
    requires MainFirst(ctx.recording) && IsRun(ctx, states, cmds)
    ensures Final(states).at < |ctx.recording.moments|
    ensures ThreadsSynced(ctx, Final(states).at, Final(states).Picture())
  {
    if cmds == [] {
      StartThreads(ctx);
      assert states[0].Log() == StartEvents(ctx);
    } else {
      RunPrefix(ctx, states, cmds);
      ThreadsStaySynced(ctx, states[..|cmds|], cmds[..|cmds| - 1]);
      var s, t := states[|cmds| - 1], Final(states);
      StepPicture(ctx, s, cmds[|cmds| - 1], t);
      MoveKeepsThreads(ctx, s.Picture(), s.at, t.at);
    }
  }

  // A session whose consumer, once the queue is drained, is right about a path.
  ghost predicate Tracks(ctx: Context, s: Session, path: string) {
    s.at < |ctx.recording.moments| && InStep(ctx, s.at, s.Picture(), path)
  }

  // The moments visited, one after the other, let the events convey the path.
  ghost predicate Followed(ctx: Context, states: seq<Session>, path: string) {
    && (forall s :: s in states ==> s.at < |ctx.recording.moments|)
    && (states != [] ==> ctx.OneBase(states[0].at, path))
    && forall k :: 0 <= k < |states| - 1 ==> ctx.Conveyed(states[k].at, states[k + 1].at, path)
  }

  // One module of that path at a time, at every moment visited.
  ghost predicate AloneThroughout(ctx: Context, states: seq<Session>, path: string) {
    forall s :: s in states ==> s.at < |ctx.recording.moments| && ctx.Alone(s.at, path)
  }

  lemma AloneIsFollowed(ctx: Context, states: seq<Session>, path: string)
    requires AloneThroughout(ctx, states, path)
    ensures Followed(ctx, states, path)
  {
    forall k | 0 <= k < |states| - 1 ensures ctx.Conveyed(states[k].at, states[k + 1].at, path) {
      assert states[k] in states && states[k + 1] in states;
      AloneIsConveyed(ctx, states[k].at, states[k + 1].at, path);
    }
  }

  lemma FollowedExtends(ctx: Context, before: seq<Session>, t: Session, path: string)
    requires before != []
    ensures Followed(ctx, before + [t], path) <==>
              && Followed(ctx, before, path) && t.at < |ctx.recording.moments|
              && Final(before).at < |ctx.recording.moments| && ctx.Conveyed(Final(before).at, t.at, path)
  {
    var states, n := before + [t], |before| - 1;
    assert states[n] == Final(before) && states[n + 1] == t;
    assert t in states && forall s :: s in states <==> s in before || s == t;
    assert forall k :: 0 <= k < |before| ==> states[k] == before[k];
    if Followed(ctx, states, path) {
      assert ctx.Conveyed(states[n].at, states[n + 1].at, path);
      forall k | 0 <= k < n ensures ctx.Conveyed(before[k].at, before[k + 1].at, path) {
        assert ctx.Conveyed(states[k].at, states[k + 1].at, path);
      }
    }
  }

  lemma FollowedPrefix(ctx: Context, states: seq<Session>, path: string, n: nat)
    requires Followed(ctx, states, path) && n < |states|
    ensures Followed(ctx, states[..n + 1], path)
  {
    var prefix := states[..n + 1];
    forall k | 0 <= k < |prefix| - 1 ensures ctx.Conveyed(prefix[k].at, prefix[k + 1].at, path) {
      assert ctx.Conveyed(states[k].at, states[k + 1].at, path);
    }
  }

  lemma StepTracks(ctx: Context, s: Session, c: Command, t: Session, path: string)
    requires Next(ctx, s, c, t) && Tracks(ctx, s, path)
    ensures s.at < |ctx.recording.moments| && t.at < |ctx.recording.moments|
    ensures Tracks(ctx, t, path) <==> ctx.Conveyed(s.at, t.at, path)
  {
    StepPicture(ctx, s, c, t);
    hide Move, Next;
    if Productive(s, c) {
      InStepAfterMove(ctx, s.Picture(), s.at, t.at, path);
    }
  }

  ghost predicate TracksThroughout(ctx: Context, states: seq<Session>, path: string) {
    forall s :: s in states ==> Tracks(ctx, s, path)
  }

  lemma TracksExtends(ctx: Context, before: seq<Session>, t: Session, path: string)
    requires before != []
    ensures TracksThroughout(ctx, before + [t], path) <==> TracksThroughout(ctx, before, path) && Tracks(ctx, t, path)
    ensures TracksThroughout(ctx, before, path) ==> Tracks(ctx, Final(before), path)
  {
    hide Tracks;
    assert forall s :: s in before + [t] <==> s in before || s == t;
  }

  lemma TracksFromStart(ctx: Context, s: Session, path: string)
    requires MainFirst(ctx.recording) && Started(ctx, s)
    ensures TracksThroughout(ctx, [s], path) <==> Followed(ctx, [s], path)
  {
    hide StartEvents, InStep, ObserveAll;
    assert s.Picture() == ObserveAll(NOTHING, StartEvents(ctx)) by {
      assert s.Log() == StartEvents(ctx);
    }
    StartModule(ctx, path);
    assert Tracks(ctx, s, path) <==> ctx.OneBase(s.at, path);
    hide Tracks;
    assert forall x :: x in [s] <==> x == s;
    assert [s][0] == s;
  }

  /** Exactly when an incremental, name-keyed log keeps its consumer right about
      a path in every state of a run. */
  lemma {:induction false} TracksThroughoutIff(ctx: Context, states: seq<Session>, cmds: seq<Command>, path: string)
    requires MainFirst(ctx.recording) && IsRun(ctx, states, cmds)
    ensures TracksThroughout(ctx, states, path) <==> Followed(ctx, states, path)
  {
    hide Next, Started, Tracks, Followed, TracksThroughout;
    if cmds == [] {
      assert states == [states[0]];
      TracksFromStart(ctx, states[0], path);
    } else {
      RunPrefix(ctx, states, cmds);
      var before, t := states[..|cmds|], Final(states);
      assert states == before + [t];
      TracksThroughoutIff(ctx, before, cmds[..|cmds| - 1], path);
      FollowedExtends(ctx, before, t, path);
      TracksExtends(ctx, before, t, path);
      if Tracks(ctx, Final(before), path) {
        StepTracks(ctx, Final(before), cmds[|cmds| - 1], t, path);
      }
    }
  }

  lemma ModuleIsTracked(ctx: Context, states: seq<Session>, cmds: seq<Command>, path: string)
    requires MainFirst(ctx.recording) && IsRun(ctx, states, cmds) && Followed(ctx, states, path)
    ensures Tracks(ctx, Final(states), path)
  {
    TracksThroughoutIff(ctx, states, cmds, path);
    assert Final(states) in states;
  }

  /** In every state of every run, a consumer that handles what is queued knows
      exactly the cursor's threads; of every non-target path the run lets it
      follow it knows exactly whether it is loaded and where, and of every such
      target path it knows what is loaded at the cursor.  The moments that count
      are those visited, and a path of one module at a time is always such. */
  lemma ViewSynchronised(ctx: Context, states: seq<Session>, cmds: seq<Command>)
    requires MainFirst(ctx.recording) && IsRun(ctx, states, cmds)
    ensures Final(states).at < |ctx.recording.moments|
    ensures ThreadsSynced(ctx, Final(states).at, Final(states).Picture())
    ensures forall path :: Followed(ctx, states, path) ==>
              InStep(ctx, Final(states).at, Final(states).Picture(), path)
    ensures forall path :: AloneThroughout(ctx, states, path) ==>
              InStep(ctx, Final(states).at, Final(states).Picture(), path)
    ensures Final(states).queued == [] ==> Final(states).Picture() == ObserveAll(NOTHING, Final(states).delivered)
  {
    ThreadsStaySynced(ctx, states, cmds);
    forall path | Followed(ctx, states, path) || AloneThroughout(ctx, states, path)
      ensures InStep(ctx, Final(states).at, Final(states).Picture(), path)
    {
      if AloneThroughout(ctx, states, path) { AloneIsFollowed(ctx, states, path); }
      ModuleIsTracked(ctx, states, cmds, path);
    }
    if Final(states).queued == [] {
      assert Final(states).Log() == Final(states).delivered;
    }
  }

  /** Time travel is path independent: however two runs got to a moment, a
      consumer ends up with the same threads and non-target modules. */
  lemma PathIndependence(ctx: Context, states: seq<Session>, cmds: seq<Command>,
                         states': seq<Session>, cmds': seq<Command>, path: string)
    requires MainFirst(ctx.recording) && IsRun(ctx, states, cmds) && IsRun(ctx, states', cmds')
    requires Final(states).at == Final(states').at
    ensures Final(states).Picture().threads == Final(states').Picture().threads
    ensures Followed(ctx, states, path) && Followed(ctx, states', path) && !ctx.isTarget(path) ==>
              && (path in Final(states).Picture().modules <==> path in Final(states').Picture().modules)
              && (path in Final(states).Picture().modules ==>
                    Final(states).Picture().modules[path] == Final(states').Picture().modules[path])
  {
    ThreadsStaySynced(ctx, states, cmds);
    ThreadsStaySynced(ctx, states', cmds');
    if Followed(ctx, states, path) && Followed(ctx, states', path) {
      ModuleIsTracked(ctx, states, cmds, path);
      ModuleIsTracked(ctx, states', cmds', path);
    }
  }

  ghost predicate TargetSeen(ctx: Context, states: seq<Session>, path: string) {
    || Announced(ctx, path)
    || exists i :: 0 <= i < |states| && states[i].at < |ctx.recording.moments|
                   && ctx.Named(ctx.recording.ModuleSet(states[i].at), path)
  }

  lemma SeenOnceMore(ctx: Context, before: seq<Session>, t: Session, path: string)
    requires t.at < |ctx.recording.moments|
    ensures TargetSeen(ctx, before + [t], path) <==>
              TargetSeen(ctx, before, path) || ctx.Named(ctx.recording.ModuleSet(t.at), path)
  {
    var states := before + [t];
    assert states[|before|] == t;
    assert forall i :: 0 <= i < |before| ==> states[i] == before[i];
  }

  lemma StickyStep(ctx: Context, before: seq<Session>, c: Command, t: Session, path: string)
    requires before != [] && Next(ctx, Final(before), c, t) && ctx.isTarget(path)
    requires path in Final(before).Picture().modules <==> TargetSeen(ctx, before, path)
    ensures path in t.Picture().modules <==> TargetSeen(ctx, before + [t], path)
  {
    var s := Final(before);
    assert ctx.Named(ctx.recording.ModuleSet(s.at), path) ==> TargetSeen(ctx, before, path);
    StepPicture(ctx, s, c, t);
    MoveTarget(ctx, s.Picture(), s.at, t.at, path);
    SeenOnceMore(ctx, before, t, path);
  }

  /** Target modules are sticky: a target path is known exactly if it was
      announced at the start or was at the cursor at some stop so far. */
  lemma {:induction false} TargetsAreSticky(ctx: Context, states: seq<Session>, cmds: seq<Command>, path: string)
    requires MainFirst(ctx.recording) && IsRun(ctx, states, cmds) && ctx.isTarget(path)
    ensures path in Final(states).Picture().modules <==> TargetSeen(ctx, states, path)
  {
    if cmds == [] {
      StartTarget(ctx, path);
      assert states[0].Log() == StartEvents(ctx);
      assert states == [] + [states[0]];
      SeenOnceMore(ctx, [], states[0], path);
    } else {
      RunPrefix(ctx, states, cmds);
      var before := states[..|cmds|];
      TargetsAreSticky(ctx, before, cmds[..|cmds| - 1], path);
      StickyStep(ctx, before, cmds[|cmds| - 1], Final(states), path);
      assert states == before + [Final(states)];
    }
  }

  ghost predicate AtCursor(ctx: Context, s: Session, path: string) {
    s.at < |ctx.recording.moments| && ctx.Named(ctx.recording.ModuleSet(s.at), path)
  }

  ghost predicate KnownAsIn(ctx: Context, s: Session, v: View, path: string) {
    s.at < |ctx.recording.moments| && ModulePresent(ctx, s.at, v, path)
  }

  lemma StepAwayFromTarget(ctx: Context, s: Session, c: Command, t: Session, path: string)
    requires Next(ctx, s, c, t) && Tracks(ctx, s, path) && ctx.isTarget(path)
    requires path in s.Picture().modules && !AtCursor(ctx, t, path)
    ensures path in t.Picture().modules && t.Picture().modules[path] == s.Picture().modules[path]
  {
    StepPicture(ctx, s, c, t);
    hide Move, Next;
    if Productive(s, c) { MoveTarget(ctx, s.Picture(), s.at, t.at, path); }
  }

  /** A target that has left the cursor is remembered where it was: its path is
      known at the base it had in state n, the last one that found it. */
  lemma {:induction false} TargetsKeepTheirBase(ctx: Context, states: seq<Session>, cmds: seq<Command>, path: string, n: nat)
    requires MainFirst(ctx.recording) && IsRun(ctx, states, cmds) && ctx.isTarget(path) && Followed(ctx, states, path)
    requires n < |states| && AtCursor(ctx, states[n], path)
    requires forall k :: n < k < |states| ==> !AtCursor(ctx, states[k], path)
    ensures path in Final(states).Picture().modules
    ensures KnownAsIn(ctx, states[n], Final(states).Picture(), path)
  {
    hide Next, Started, Followed;
    if n == |cmds| {
      ModuleIsTracked(ctx, states, cmds, path);
    } else {
      RunPrefix(ctx, states, cmds);
      var before := states[..|cmds|];
      assert states == before + [Final(states)];
      FollowedExtends(ctx, before, Final(states), path);
      TargetsKeepTheirBase(ctx, before, cmds[..|cmds| - 1], path, n);
      ModuleIsTracked(ctx, before, cmds[..|cmds| - 1], path);
      assert !AtCursor(ctx, states[|cmds|], path);
      StepAwayFromTarget(ctx, Final(before), cmds[|cmds| - 1], Final(states), path);
    }
  }

  // -------------------------------------------------------------------------
  // A recording whose modules share a path

  function Shared(position: Position, modules: seq<ModuleId>): Moment {
    Moment(position, [0], modules, 0, 0, [])
  }

  // Two modules "a" come, and one of them goes.
  const SHARING := Recording(
    [Shared(Position(1, 0), [0]), Shared(Position(2, 0), [0, 1, 2]), Shared(Position(3, 0), [0, 1])],
    [ModuleInfo("main", 100, 1), ModuleInfo("a", 200, 1), ModuleInfo("a", 300, 1)], [], [])

  lemma SharedModules(ctx: Context)
    requires ctx.recording == SHARING
    ensures SHARING.ModuleSet(0) == {0} && SHARING.ModuleSet(1) == {0, 1, 2} && SHARING.ModuleSet(2) == {0, 1}
  {
  }

  lemma SharingStarts()
    ensures MainFirst(SHARING)
  {
    assert Distinct([0]) && Distinct([0, 1]) && Distinct([0, 1, 2]);
  }

  lemma SharedPath(ctx: Context)
    requires ctx.recording == SHARING
    ensures ctx.OneBase(0, "a") && !ctx.OneBase(1, "a") && !ctx.Lost(0, 1, "a") && ctx.Lost(1, 2, "a")
    ensures !ctx.Named(SHARING.ModuleSet(0), "a") && ctx.Named(SHARING.ModuleSet(1), "a") && ctx.Named(SHARING.ModuleSet(2), "a")
  {
    SharedModules(ctx);
    assert ctx.Path(0) == "main" && ctx.Path(1) == "a" && ctx.Path(2) == "a";
    assert ctx.Base(1) == 200 && ctx.Base(2) == 300;
    var none, all, left := SHARING.ModuleSet(0), SHARING.ModuleSet(1), SHARING.ModuleSet(2);
    hide *;
    assert 1 in all && 2 in all && 2 in all - left && 1 in all * left && 1 in left;
    assert none - all == {} && left - all == {} && none * all == {0};
  }

  lemma SharingRun(ctx: Context, event: Event) returns (states: seq<Session>, cmds: seq<Command>)
    requires ctx.recording == SHARING && event.IsStop()
    ensures cmds == [Resume(event), Resume(event)] && IsRun(ctx, states, cmds)
    ensures forall k :: 0 <= k < 3 ==> states[k].at == k
  {
    SharingStarts();
    var start := Session(0, true, Continue, NO_JUMP, false, [], StartEvents(ctx));
    hide Move, StartEvents;
    var one := Moved(ctx, start, 1, BreakAt(SHARING, 1));
    var two := Moved(ctx, one, 2, BreakAt(SHARING, 2));
    assert Next(ctx, start, Resume(event), one) && Next(ctx, one, Resume(event), two);
    states, cmds := [start, one, two], [Resume(event), Resume(event)];
    hide Next;
  }

  /** Two resumes over that recording: at the first stop the consumer is wrong
      about a base, at the second it takes a loaded path for unloaded. */
  lemma SharedPathIsLost(ctx: Context, event: Event) returns (states: seq<Session>, cmds: seq<Command>)
    requires ctx.recording == SHARING && !ctx.isTarget("a") && event.IsStop()
    ensures MainFirst(SHARING) && IsRun(ctx, states, cmds) && |cmds| == 2
    ensures states[0].at == 0 && Tracks(ctx, states[0], "a")
    ensures states[1].at == 1 && "a" in states[1].Picture().modules && !Tracks(ctx, states[1], "a")
    ensures states[2].at == 2 && "a" !in states[2].Picture().modules && ctx.Named(SHARING.ModuleSet(2), "a")
  {
    states, cmds := SharingRun(ctx, event);
    SharingStarts();
    SharedModules(ctx);
    SharedPath(ctx);
    hide Move, Next;
    StartModule(ctx, "a");
    assert states[0].Log() == StartEvents(ctx);
    assert Next(ctx, states[0], cmds[0], states[1]) && Next(ctx, states[1], cmds[1], states[2]);
    StepPresence(ctx, states[0], cmds[0], states[1], "a");
    StepPresence(ctx, states[1], cmds[1], states[2], "a");
  }

  lemma StepPresence(ctx: Context, s: Session, c: Command, t: Session, path: string)
    requires Next(ctx, s, c, t) && !ctx.isTarget(path)
    requires s.at < |ctx.recording.moments| && t.at < |ctx.recording.moments|
    requires path in s.Picture().modules <==> ctx.Named(ctx.recording.ModuleSet(s.at), path)
    ensures (path in t.Picture().modules <==> ctx.Named(ctx.recording.ModuleSet(t.at), path))
            <==> !ctx.Lost(s.at, t.at, path)
  {
    StepPicture(ctx, s, c, t);
    hide Move, Next;
    if Productive(s, c) {
      PresenceAfterMove(ctx, s.Picture(), s.at, t.at, path);
    }
  }
}
