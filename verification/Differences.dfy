/** `applyDifferences`: the events that lead from one cursor position to
    another, and why a consumer that only sees these events keeps up. */
module Differences {
  import opened Positions
  import opened Recordings
  import opened Events

  // A recording together with the test for modules of the analysed image.
  // The source tests the full path and the file name, so the answer depends on
  // the path alone; beyond that nothing is assumed of it.
  datatype Context = Context(recording: Recording, isTarget: string -> bool)
  {
    predicate Known(ms: set<ModuleId>) {
      forall m :: m in ms ==> m < |recording.moduleList|
    }

    function Path(m: ModuleId): string {
      if m < |recording.moduleList| then recording.moduleList[m].path else ""
    }

    function Base(m: ModuleId): Address {
      if m < |recording.moduleList| then recording.moduleList[m].base else 0
    }

    function Size(m: ModuleId): nat {
      if m < |recording.moduleList| then recording.moduleList[m].size else 0
    }

    function Rebase(m: ModuleId): Option<Address> {
      if isTarget(Path(m)) then Some(Base(m)) else None
    }

    ghost predicate Named(ms: set<ModuleId>, path: string) {
      exists m :: m in ms && Path(m) == path
    }

    // At moment i at most one module carries this path.
    ghost predicate Alone(i: nat, path: string)
      requires i < |recording.moments|
    {
      forall m, n :: m in recording.ModuleSet(i) && n in recording.ModuleSet(i) && Path(m) == path && Path(n) == path ==>
        m == n
    }

    // All modules that carry it at moment i have the same base.
    ghost predicate OneBase(i: nat, path: string)
      requires i < |recording.moments|
    {
      forall m, n :: m in recording.ModuleSet(i) && n in recording.ModuleSet(i) && Path(m) == path && Path(n) == path ==>
        Base(m) == Base(n)
    }

    // One of its modules goes, another stays, and none comes.
    ghost predicate Lost(i: nat, j: nat, path: string)
      requires i < |recording.moments| && j < |recording.moments|
    {
      var before, after := recording.ModuleSet(i), recording.ModuleSet(j);
      Named(before - after, path) && Named(before * after, path) && !Named(after - before, path)
    }

    // What the difference events of a move can convey about a path.  Targets
    // are never unloaded.
    ghost predicate Conveyed(i: nat, j: nat, path: string)
      requires i < |recording.moments| && j < |recording.moments|
    {
      OneBase(j, path) && (isTarget(path) || !Lost(i, j, path))
    }
  }

  ghost predicate StrictlyAscending(r: seq<nat>) {
    forall i, j :: 0 <= i < j < |r| ==> r[i] < r[j]
  }

  /** In-order traversal of a `std::set`, which is also what
      `std::set_difference` writes into its output vector. */
  function Ascending(s: set<nat>): (r: seq<nat>)
    ensures forall x :: x in r <==> x in s
    ensures StrictlyAscending(r)
  {
    if s == {} then []
    else
      LeastExists(s);
      var x :| IsLeast(x, s);
      var rest := Ascending(s - {x});
      LeastFirst(x, s, rest);
      [x] + rest
  }

  predicate IsLeast(x: nat, s: set<nat>) {
    x in s && forall y :: y in s ==> x <= y
  }

  lemma LeastFirst(x: nat, s: set<nat>, rest: seq<nat>)
    requires IsLeast(x, s) && StrictlyAscending(rest) && forall y :: y in rest <==> y in s - {x}
    ensures StrictlyAscending([x] + rest) && forall y :: y in [x] + rest <==> y in s
  {
    forall i | 0 <= i < |rest| ensures x < rest[i] {
      assert rest[i] in rest;
    }
  }

  lemma {:induction false} LeastExists(s: set<nat>)
    requires s != {}
    ensures exists x :: IsLeast(x, s)
  {
    var a :| a in s;
    if s == {a} {
      assert IsLeast(a, s);
    } else {
      LeastExists(s - {a});
      var b :| IsLeast(b, s - {a});
      assert s == (s - {a}) + {a};
      if a < b { assert IsLeast(a, s); } else { assert IsLeast(b, s); }
    }
  }

  function ThreadExits(ts: seq<ThreadId>): seq<Event> {
    seq(|ts|, i requires 0 <= i < |ts| => ThreadExited(ts[i]))
  }

  function ThreadStarts(ts: seq<ThreadId>): seq<Event> {
    seq(|ts|, i requires 0 <= i < |ts| => ThreadStarted(ts[i]))
  }

  // Modules of the analysed image are never announced as unloaded.
  function Unloads(ctx: Context, ms: seq<ModuleId>): seq<Event> {
    if ms == [] then []
    else
      var init, m := ms[..|ms| - 1], ms[|ms| - 1];
      if ctx.isTarget(ctx.Path(m)) then Unloads(ctx, init) else Unloads(ctx, init) + [LibUnloaded(ctx.Path(m))]
  }

  function Load(ctx: Context, m: ModuleId): Event {
    LibLoaded(ctx.Path(m), ctx.Base(m), ctx.Rebase(m), ctx.Size(m))
  }

  function Loads(ctx: Context, ms: seq<ModuleId>): seq<Event> {
    seq(|ms|, i requires 0 <= i < |ms| => Load(ctx, ms[i]))
  }

  function DifferenceEvents(ctx: Context, threadBefore: set<ThreadId>, threadAfter: set<ThreadId>,
                            moduleBefore: set<ModuleId>, moduleAfter: set<ModuleId>): seq<Event>
  {
    ThreadExits(Ascending(threadBefore - threadAfter))
    + ThreadStarts(Ascending(threadAfter - threadBefore))
    + Unloads(ctx, Ascending(moduleBefore - moduleAfter))
    + Loads(ctx, Ascending(moduleAfter - moduleBefore))
  }

  // The events of a cursor move from moment i to moment j.
  ghost function Move(ctx: Context, i: nat, j: nat): seq<Event>
    requires i < |ctx.recording.moments| && j < |ctx.recording.moments|
  {
    var r := ctx.recording;
    DifferenceEvents(ctx, r.ThreadSet(i), r.ThreadSet(j), r.ModuleSet(i), r.ModuleSet(j))
  }

  // -------------------------------------------------------------------------
  // What each group of events does to a view

  lemma {:induction false} ObserveExits(v: View, ts: seq<ThreadId>)
    ensures ObserveAll(v, ThreadExits(ts)) == v.(threads := v.threads - set t | t in ts)
  {
    if ts != [] {
      var init := ts[..|ts| - 1];
      ObserveExits(v, init);
      assert ThreadExits(ts)[..|ts| - 1] == ThreadExits(init);
      assert ts == init + [ts[|ts| - 1]];
      assert (set t | t in ts) == (set t | t in init) + {ts[|ts| - 1]};
    }
  }

  lemma {:induction false} ObserveStarts(v: View, ts: seq<ThreadId>)
    ensures ObserveAll(v, ThreadStarts(ts)) == v.(threads := v.threads + set t | t in ts)
  {
    if ts != [] {
      var init := ts[..|ts| - 1];
      ObserveStarts(v, init);
      assert ThreadStarts(ts)[..|ts| - 1] == ThreadStarts(init);
      assert ts == init + [ts[|ts| - 1]];
      assert (set t | t in ts) == (set t | t in init) + {ts[|ts| - 1]};
    }
  }

  lemma ObserveOne(v: View, es: seq<Event>, e: Event)
    ensures ObserveAll(v, es + [e]) == Observe(ObserveAll(v, es), e)
  {
    assert (es + [e])[..|es|] == es;
  }

  // Unloads remove exactly the non-target names among ms.
  ghost predicate Unloaded(ctx: Context, v: View, w: View, ms: seq<ModuleId>, path: string) {
    && w.threads == v.threads
    && (path in w.modules <==>
          path in v.modules && (ctx.isTarget(path) || forall m :: m in ms ==> ctx.Path(m) != path))
    && (path in w.modules ==> w.modules[path] == v.modules[path])
  }

  lemma UnloadsLast(ctx: Context, ms: seq<ModuleId>)
    requires ms != []
    ensures var init, m := ms[..|ms| - 1], ms[|ms| - 1];
            Unloads(ctx, ms) == if ctx.isTarget(ctx.Path(m)) then Unloads(ctx, init)
                                else Unloads(ctx, init) + [LibUnloaded(ctx.Path(m))]
  {
  }

  // One more module to unload, announced unless it is a target.
  lemma UnloadedExtends(ctx: Context, v: View, w: View, ms: seq<ModuleId>, m: ModuleId, path: string)
    requires Unloaded(ctx, v, w, ms, path)
    ensures Unloaded(ctx, v, if ctx.isTarget(ctx.Path(m)) then w else Observe(w, LibUnloaded(ctx.Path(m))), ms + [m], path)
  {
    assert forall x :: x in ms + [m] <==> x in ms || x == m;
  }

  lemma {:induction false} ObserveUnloads(ctx: Context, v: View, ms: seq<ModuleId>, path: string)
    ensures Unloaded(ctx, v, ObserveAll(v, Unloads(ctx, ms)), ms, path)
  {
    if ms != [] {
      hide Unloads, Unloaded, ObserveAll;
      var init, m := ms[..|ms| - 1], ms[|ms| - 1];
      ObserveUnloads(ctx, v, init, path);
      UnloadsLast(ctx, ms);
      UnloadedExtends(ctx, v, ObserveAll(v, Unloads(ctx, init)), init, m, path);
      ObserveOne(v, Unloads(ctx, init), LibUnloaded(ctx.Path(m)));
      assert ms == init + [m];
    }
  }

  // Loads add exactly the names among ms; each name gets the base of a module
  // in ms that carries it.
  ghost predicate Loaded(ctx: Context, v: View, w: View, ms: seq<ModuleId>, path: string) {
    && w.threads == v.threads
    && (if exists m :: m in ms && ctx.Path(m) == path
        then path in w.modules && exists m :: m in ms && ctx.Path(m) == path && w.modules[path] == ctx.Base(m)
        else (path in w.modules <==> path in v.modules) && (path in w.modules ==> w.modules[path] == v.modules[path]))
  }

  lemma LoadedExtends(ctx: Context, v: View, w: View, ms: seq<ModuleId>, m: ModuleId, path: string)
    requires Loaded(ctx, v, w, ms, path)
    ensures Loaded(ctx, v, Observe(w, Load(ctx, m)), ms + [m], path)
  {
    assert forall x :: x in ms + [m] <==> x in ms || x == m;
  }

  lemma {:induction false} ObserveLoads(ctx: Context, v: View, ms: seq<ModuleId>, path: string)
    ensures Loaded(ctx, v, ObserveAll(v, Loads(ctx, ms)), ms, path)
  {
    if ms != [] {
      var init, m := ms[..|ms| - 1], ms[|ms| - 1];
      ObserveLoads(ctx, v, init, path);
      assert Loads(ctx, ms) == Loads(ctx, init) + [Load(ctx, m)];
      hide Loads, Loaded;
      LoadedExtends(ctx, v, ObserveAll(v, Loads(ctx, init)), init, m, path);
      ObserveOne(v, Loads(ctx, init), Load(ctx, m));
      assert ms == init + [m];
    }
  }

  // -------------------------------------------------------------------------
  // A view that is in step with the cursor

  ghost predicate ThreadsSynced(ctx: Context, i: nat, v: View)
    requires i < |ctx.recording.moments|
  {
    v.threads == ctx.recording.ThreadSet(i)
  }

  // The view knows the path exactly when a module at the cursor carries it,
  // and knows it at that module's base.
  ghost predicate ModuleSynced(ctx: Context, i: nat, v: View, path: string)
    requires i < |ctx.recording.moments|
  {
    && (path in v.modules <==> ctx.Named(ctx.recording.ModuleSet(i), path))
    && ModulePresent(ctx, i, v, path)
  }

  // Weaker, for target paths: whatever is at the cursor is known at its base.
  ghost predicate ModulePresent(ctx: Context, i: nat, v: View, path: string)
    requires i < |ctx.recording.moments|
  {
    forall m :: m in ctx.recording.ModuleSet(i) && ctx.Path(m) == path ==>
      path in v.modules && v.modules[path] == ctx.Base(m)
  }

  lemma ObserveMove(ctx: Context, v: View, i: nat, j: nat, path: string)
      returns (u: View, w: View)
    requires i < |ctx.recording.moments| && j < |ctx.recording.moments|
    ensures u.modules == v.modules
    ensures Unloaded(ctx, u, w, Ascending(ctx.recording.ModuleSet(i) - ctx.recording.ModuleSet(j)), path)
    ensures Loaded(ctx, w, ObserveAll(v, Move(ctx, i, j)), Ascending(ctx.recording.ModuleSet(j) - ctx.recording.ModuleSet(i)), path)
    ensures u.threads == v.threads - (ctx.recording.ThreadSet(i) - ctx.recording.ThreadSet(j))
                         + (ctx.recording.ThreadSet(j) - ctx.recording.ThreadSet(i))
  {
    var r := ctx.recording;
    var exited, started := Ascending(r.ThreadSet(i) - r.ThreadSet(j)), Ascending(r.ThreadSet(j) - r.ThreadSet(i));
    var unloaded, loaded := Ascending(r.ModuleSet(i) - r.ModuleSet(j)), Ascending(r.ModuleSet(j) - r.ModuleSet(i));
    var exits, starts := ThreadExits(exited), ThreadStarts(started);
    var unloads, loads := Unloads(ctx, unloaded), Loads(ctx, loaded);
    ObserveConcat(v, exits + starts + unloads, loads);
    ObserveConcat(v, exits + starts, unloads);
    ObserveConcat(v, exits, starts);
    ObserveExits(v, exited);
    ObserveStarts(ObserveAll(v, exits), started);
    u := ObserveAll(v, exits + starts);
    w := ObserveAll(u, unloads);
    ObserveUnloads(ctx, u, unloaded, path);
    ObserveLoads(ctx, w, loaded, path);
  }

  lemma MoveKeepsThreads(ctx: Context, v: View, i: nat, j: nat)
    requires i < |ctx.recording.moments| && j < |ctx.recording.moments|
    requires ThreadsSynced(ctx, i, v)
    ensures ThreadsSynced(ctx, j, ObserveAll(v, Move(ctx, i, j)))
  {
    var _, _ := ObserveMove(ctx, v, i, j, "");
  }

  // The view is right about a path: in step with the cursor or, for a target,
  // at least aware of what is there.
  ghost predicate InStep(ctx: Context, i: nat, v: View, path: string)
    requires i < |ctx.recording.moments|
  {
    ModulePresent(ctx, i, v, path) && (!ctx.isTarget(path) ==> ModuleSynced(ctx, i, v, path))
  }

  lemma SplitNames(ctx: Context, a: set<ModuleId>, b: set<ModuleId>, path: string)
    ensures ctx.Named(a, path) <==> ctx.Named(a - b, path) || ctx.Named(a * b, path)
  {
    if ctx.Named(a, path) {
      var m :| m in a && ctx.Path(m) == path;
      assert m in a - b || m in a * b;
    }
  }

  /** Exactly when a consumer loses track of whether a path is loaded, with
      nothing assumed about shared paths: one of its modules goes, another
      stays, and none comes. */
  lemma PresenceAfterMove(ctx: Context, v: View, i: nat, j: nat, path: string)
    requires i < |ctx.recording.moments| && j < |ctx.recording.moments|
    requires !ctx.isTarget(path)
    requires path in v.modules <==> ctx.Named(ctx.recording.ModuleSet(i), path)
    ensures (path in ObserveAll(v, Move(ctx, i, j)).modules <==> ctx.Named(ctx.recording.ModuleSet(j), path))
            <==> !ctx.Lost(i, j, path)
  {
    var u, w := ObserveMove(ctx, v, i, j, path);
    hide Move;
    var before, after := ctx.recording.ModuleSet(i), ctx.recording.ModuleSet(j);
    SplitNames(ctx, before, after, path);
    SplitNames(ctx, after, before, path);
    assert after * before == before * after;
  }

  // The base a view has for a path after a move that does not lose it.
  lemma BaseAfterMove(ctx: Context, v: View, i: nat, j: nat, path: string)
    requires i < |ctx.recording.moments| && j < |ctx.recording.moments|
    requires ModulePresent(ctx, i, v, path) && ctx.OneBase(j, path)
    ensures var w := ObserveAll(v, Move(ctx, i, j));
            path in w.modules && ctx.Named(ctx.recording.ModuleSet(j), path) ==> ModulePresent(ctx, j, w, path)
  {
    var u, w := ObserveMove(ctx, v, i, j, path);
    hide Move;
    var r := ctx.recording;
    var come := Ascending(r.ModuleSet(j) - r.ModuleSet(i));
    if exists m :: m in come && ctx.Path(m) == path {
    } else {
      assert forall m :: m in r.ModuleSet(j) && ctx.Path(m) == path ==> m in r.ModuleSet(i);
    }
  }

  /** Exactly when name-keyed events keep a consumer right about a path, shared
      by several modules or not: its modules at the new moment have one base,
      and, unless it is a target's, no module of that path went while another
      stayed and none came.  A path of one module at a time is safe, also when
      the module is replaced by another object. */
  lemma InStepAfterMove(ctx: Context, v: View, i: nat, j: nat, path: string)
    requires i < |ctx.recording.moments| && j < |ctx.recording.moments|
    requires InStep(ctx, i, v, path)
    ensures InStep(ctx, j, ObserveAll(v, Move(ctx, i, j)), path) <==> ctx.Conveyed(i, j, path)
  {
    var w := ObserveAll(v, Move(ctx, i, j));
    if ctx.isTarget(path) {
      MoveTarget(ctx, v, i, j, path);
    } else {
      PresenceAfterMove(ctx, v, i, j, path);
    }
    hide Move;
    if ctx.OneBase(j, path) {
      BaseAfterMove(ctx, v, i, j, path);
    }
  }

  lemma AloneIsConveyed(ctx: Context, i: nat, j: nat, path: string)
    requires i < |ctx.recording.moments| && j < |ctx.recording.moments|
    requires ctx.Alone(i, path) && ctx.Alone(j, path)
    ensures ctx.Conveyed(i, j, path)
  {
  }

  /** A target path stays known, gains at every stop the paths found there,
      gains nothing else, and keeps the base of one that is not there. */
  lemma MoveTarget(ctx: Context, v: View, i: nat, j: nat, path: string)
    requires i < |ctx.recording.moments| && j < |ctx.recording.moments|
    requires ctx.isTarget(path) && (ctx.Named(ctx.recording.ModuleSet(i), path) ==> path in v.modules)
    ensures path in ObserveAll(v, Move(ctx, i, j)).modules <==>
              path in v.modules || ctx.Named(ctx.recording.ModuleSet(j), path)
    ensures path in v.modules && !ctx.Named(ctx.recording.ModuleSet(j), path) ==>
              ObserveAll(v, Move(ctx, i, j)).modules[path] == v.modules[path]
  {
    var u, w := ObserveMove(ctx, v, i, j, path);
  }
}
