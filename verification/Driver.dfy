/** A client that drives the debugger manager through a whole session, and what
    the theorems about runs say about the objects it ends with. */
module Driver {
  import opened Recordings
  import opened Events
  import opened Differences
  import opened Sessions
  import opened Synchronisation
  import opened StreamGrammar
  import opened Pairing
  import opened Manager

  method Issue(manager: DebuggerManager, c: Command, ghost lives: seq<Life>)
    requires manager.Valid() && LifeStory(manager.cursor.recording, lives)
    modifies manager, manager.cursor`at, manager.cursor`replays, manager.cursor.callback`events, manager.events
    ensures manager.Valid() && Next(manager.Ctx(), old(manager.State()), c, manager.State())
  {
    match c
    case SetResumeMode(mode) => manager.OnSetResumeMode(mode);
    case SetNextPosition(p) => manager.SetNextPosition(p);
    case RequestBackStep => manager.RequestBackwardsSingleStep();
    case SwitchWay => manager.SwitchWay();
    case Resume(e) => manager.OnResume(e);
    case FullRun => manager.RequestFullRun(lives);
    case GetDebugEvent => var _ := manager.OnGetDebugEvent();
  }

  // From a session that OnStartProcess has just started.
  method Drive(manager: DebuggerManager, cmds: seq<Command>, ghost lives: seq<Life>)
      returns (ghost states: seq<Session>)
    requires manager.Valid() && Started(manager.Ctx(), manager.State())
    requires LifeStory(manager.cursor.recording, lives)
    modifies manager, manager.cursor`at, manager.cursor`replays, manager.cursor.callback`events, manager.events
    ensures manager.Valid() && IsRun(manager.Ctx(), states, cmds) && Final(states) == manager.State()
  {
    ghost var ctx := manager.Ctx();
    states := [manager.State()];
    var i := 0;
    assert IsRun(ctx, states, cmds[..i]);
    while i < |cmds|
      invariant 0 <= i <= |cmds| && manager.Valid() && manager.Ctx() == ctx
      invariant IsRun(ctx, states, cmds[..i]) && Final(states) == manager.State()
    {
      hide Next, IsRun;
      Issue(manager, cmds[i], lives);
      RunExtends(ctx, states, cmds[..i], cmds[i], manager.State());
      states := states + [manager.State()];
      assert cmds[..i + 1] == cmds[..i] + [cmds[i]];
      i := i + 1;
    }
    assert cmds[..i] == cmds;
  }

  /** Whatever commands a session consists of: in the end the events the manager
      has ever pushed are well formed and tell the threads at its cursor, and of
      every path that one module at a time carried they tell the module there. */
  method DriveAndObserve(manager: DebuggerManager, cmds: seq<Command>, ghost lives: seq<Life>)
      returns (ghost states: seq<Session>)
    requires manager.Valid() && Started(manager.Ctx(), manager.State())
    requires LifeStory(manager.cursor.recording, lives) && MainFirst(manager.cursor.recording)
    modifies manager, manager.cursor`at, manager.cursor`replays, manager.cursor.callback`events, manager.events
    ensures manager.Valid() && IsRun(manager.Ctx(), states, cmds) && Final(states) == manager.State()
    ensures Scan(Fresh, manager.events.Log()) == Stopped
    ensures var view := ObserveAll(NOTHING, manager.events.Log());
            && ThreadsSynced(manager.Ctx(), manager.cursor.at, view)
            && forall path :: AloneThroughout(manager.Ctx(), states, path) ==>
                 InStep(manager.Ctx(), manager.cursor.at, view, path)
  {
    states := Drive(manager, cmds, lives);
    ViewSynchronised(manager.Ctx(), states, cmds);
    StreamIsWellFormed(manager.Ctx(), states, cmds);
  }
}
