/** One debugging session as a step system: the manager's fields, the cursor and
    the event queue as one value, and every command as a relation between two
    such values.  The class DebuggerManager is proved against `Next`. */
module Sessions {
  import opened Positions
  import opened Recordings
  import opened Events
  import opened Differences

  // RESMOD_NONE, RESMOD_INTO, and the modes the source does not handle.
  datatype ResumeMode = Continue | Into | Unsupported(code: nat)

  datatype Session = Session(
    at: nat,                  // the moment the cursor stands at
    forward: bool,
    mode: ResumeMode,
    jump: Position,           // m_nextPosition
    backStep: bool,           // m_backwardsSingleStep
    delivered: seq<Event>,
    queued: seq<Event>)
  {
    function Log(): seq<Event> { delivered + queued }

    // Whether a resume replays forward, backward or not at all.
    function ReplayDirection(e: Event): Option<bool> {
      if !e.IsStop() || jump != NO_JUMP then None
      else if backStep then Some(false)
      else if mode.Unsupported? then None
      else Some(forward)
    }

    // What a consumer knows once the queue is drained.
    function Picture(): View { ObserveAll(NOTHING, Log()) }
  }

  datatype Command =
    | SetResumeMode(mode: ResumeMode)
    | SetNextPosition(position: Position)
    | RequestBackStep
    | SwitchWay
    | Resume(trigger: Event)
    | FullRun
    | GetDebugEvent

  // SetPosition: exact on recorded positions, some moment otherwise.
  ghost predicate Lands(r: Recording, p: Position, k: nat) {
    k < |r.moments| && (r.Recorded(p) ==> r.moments[k].position == p)
  }

  // A replay to the end or to the beginning stops anywhere on its way, and
  // moves unless it is already there.
  ghost predicate Replays(r: Recording, forward: bool, i: nat, k: nat) {
    && k < |r.moments|
    && (forward ==> i <= k && (i < |r.moments| - 1 ==> i < k))
    && (!forward ==> k <= i && (0 < i ==> k < i))
  }

  function BreakAt(r: Recording, k: nat): Event
    requires k < |r.moments|
  {
    Breakpoint(r.moments[k].thread, r.moments[k].pc)
  }

  function StepAt(r: Recording, k: nat): Event
    requires k < |r.moments|
  {
    Step(r.moments[k].thread)
  }

  // s after a move to k, announced by the differences and a stop event
  ghost function Moved(ctx: Context, s: Session, k: nat, stop: Event): Session
    requires s.at < |ctx.recording.moments| && k < |ctx.recording.moments|
  {
    s.(at := k, queued := s.queued + Move(ctx, s.at, k) + [stop])
  }

  ghost predicate ResumeStep(ctx: Context, s: Session, t: Session)
    requires s.at < |ctx.recording.moments|
  {
    var r := ctx.recording;
    if s.jump != NO_JUMP then
      && Lands(r, s.jump, t.at)
      && t == Moved(ctx, s, t.at, BreakAt(r, t.at)).(jump := NO_JUMP)
    else if s.backStep then
      && Replays(r, false, s.at, t.at)
      && t == Moved(ctx, s, t.at, BreakAt(r, t.at)).(backStep := false)
    else
      match s.mode
      case Continue =>
        Replays(r, s.forward, s.at, t.at) && t == Moved(ctx, s, t.at, BreakAt(r, t.at))
      case Into =>
        Replays(r, s.forward, s.at, t.at) && t == Moved(ctx, s, t.at, StepAt(r, t.at)).(mode := Continue)
      case Unsupported(_) =>
        t == s.(mode := Continue)
  }

  ghost predicate Next(ctx: Context, s: Session, c: Command, t: Session) {
    && s.at < |ctx.recording.moments|
    && match c
       case SetResumeMode(mode) => t == s.(mode := mode)
       case SetNextPosition(p) => t == s.(jump := p)
       case RequestBackStep => t == s.(backStep := true)
       case SwitchWay => t == s.(forward := !s.forward)
       case FullRun => t == s
       case GetDebugEvent =>
         t == if s.queued == [] then s
              else s.(delivered := s.delivered + [s.queued[0]], queued := s.queued[1..])
       case Resume(e) => if e.IsStop() then ResumeStep(ctx, s, t) else t == s
  }

  // -------------------------------------------------------------------------
  // The beginning of a session

  function Tail<T>(s: seq<T>): seq<T> {
    if s == [] then [] else s[1..]
  }

  // Target modules among entries 1..n of the engine's module list.
  function TargetLoads(ctx: Context, n: nat): seq<Event> {
    if n <= 1 then []
    else if ctx.isTarget(ctx.Path(n - 1)) then TargetLoads(ctx, n - 1) + [Load(ctx, n - 1)]
    else TargetLoads(ctx, n - 1)
  }

  function MainModule(ctx: Context): Event
    requires ctx.recording.moments != []
  {
    ProcessStarted(ctx.recording.moments[0].thread, ctx.Path(0), ctx.Base(0), ctx.Rebase(0), ctx.Size(0))
  }

  function StartEvents(ctx: Context): seq<Event>
    requires ctx.recording.moments != []
  {
    [MainModule(ctx)]
    + (if ctx.isTarget(ctx.Path(0)) then [] else TargetLoads(ctx, |ctx.recording.moduleList|))
    + ThreadStarts(Tail(ctx.recording.moments[0].threads))
    + Loads(ctx, Tail(ctx.recording.moments[0].modules))
    + [BreakAt(ctx.recording, 0)]
  }

  // The pending jump and back-step are not touched by starting.
  ghost predicate Started(ctx: Context, s: Session) {
    && ctx.recording.Valid()
    && s.at == 0 && s.forward && s.mode == Continue
    && s.delivered == [] && s.queued == StartEvents(ctx)
  }

  // The cursor lists the current thread and the main module first.
  ghost predicate MainFirst(r: Recording) {
    && r.Valid()
    && r.moments[0].threads != [] && r.moments[0].threads[0] == r.moments[0].thread
    && r.moments[0].modules != [] && r.moments[0].modules[0] == 0
  }

  // states[0], cmds[0], states[1], cmds[1], ...
  ghost predicate IsRun(ctx: Context, states: seq<Session>, cmds: seq<Command>) {
    && |states| == |cmds| + 1
    && Started(ctx, states[0])
    && forall i :: 0 <= i < |cmds| ==> Next(ctx, states[i], cmds[i], states[i + 1])
  }

  function Final(states: seq<Session>): Session
    requires states != []
  {
    states[|states| - 1]
  }

  // Every prefix of a run is a run.
  lemma RunPrefix(ctx: Context, states: seq<Session>, cmds: seq<Command>)
    requires IsRun(ctx, states, cmds) && cmds != []
    ensures IsRun(ctx, states[..|cmds|], cmds[..|cmds| - 1])
    ensures Next(ctx, states[|cmds| - 1], cmds[|cmds| - 1], Final(states))
  {
    forall i | 0 <= i < |cmds| - 1
      ensures Next(ctx, states[..|cmds|][i], cmds[..|cmds| - 1][i], states[..|cmds|][i + 1])
    {
      assert Next(ctx, states[i], cmds[i], states[i + 1]);
    }
  }

  lemma RunExtends(ctx: Context, states: seq<Session>, cmds: seq<Command>, c: Command, t: Session)
    requires IsRun(ctx, states, cmds) && Next(ctx, Final(states), c, t)
    ensures IsRun(ctx, states + [t], cmds + [c])
  {
    var longer, more := states + [t], cmds + [c];
    forall i | 0 <= i < |more| ensures Next(ctx, longer[i], more[i], longer[i + 1]) {
      if i < |cmds| { assert Next(ctx, states[i], cmds[i], states[i + 1]); }
    }
    hide Next;
  }

  // A command stops the debuggee once more: it moves the cursor, announces the
  // differences and ends with a stop event.
  predicate Productive(s: Session, c: Command) {
    c.Resume? && c.trigger.IsStop() && (s.jump != NO_JUMP || s.backStep || !s.mode.Unsupported?)
  }

  function Stop(r: Recording, s: Session, k: nat): Event
    requires k < |r.moments|
  {
    if s.jump == NO_JUMP && !s.backStep && s.mode.Into? then StepAt(r, k) else BreakAt(r, k)
  }

  lemma DeliverKeepsLog<T>(delivered: seq<T>, queued: seq<T>)
    requires queued != []
    ensures (delivered + [queued[0]]) + queued[1..] == delivered + queued
  {
  }

  lemma AppendToLog<T>(delivered: seq<T>, queued: seq<T>, move: seq<T>, stop: T)
    ensures delivered + (queued + move + [stop]) == (delivered + queued) + (move + [stop])
  {
  }

  lemma StepLog(ctx: Context, s: Session, c: Command, t: Session)
    requires Next(ctx, s, c, t)
    ensures s.at < |ctx.recording.moments| && t.at < |ctx.recording.moments|
    ensures if Productive(s, c)
            then t.Log() == s.Log() + (Move(ctx, s.at, t.at) + [Stop(ctx.recording, s, t.at)])
            else t.at == s.at && t.Log() == s.Log()
  {
    hide Move;
    if c.GetDebugEvent? {
      if s.queued != [] { DeliverKeepsLog(s.delivered, s.queued); }
    } else if Productive(s, c) {
      AppendToLog(s.delivered, s.queued, Move(ctx, s.at, t.at), Stop(ctx.recording, s, t.at));
    }
  }

  lemma StepPicture(ctx: Context, s: Session, c: Command, t: Session)
    requires Next(ctx, s, c, t)
    ensures t.at < |ctx.recording.moments|
    ensures t.Picture() == if Productive(s, c) then ObserveAll(s.Picture(), Move(ctx, s.at, t.at)) else s.Picture()
    ensures !Productive(s, c) ==> t.at == s.at
  {
    hide Move;
    StepLog(ctx, s, c, t);
    if Productive(s, c) {
      var move, stop := Move(ctx, s.at, t.at), [Stop(ctx.recording, s, t.at)];
      ObserveConcat(NOTHING, s.Log(), move + stop);
      ObserveConcat(s.Picture(), move, stop);
      assert ObserveAll(ObserveAll(s.Picture(), move), stop) == ObserveAll(s.Picture(), move) by {
        assert stop[..0] == [];
      }
    }
  }
}
