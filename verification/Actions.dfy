/** The toolbar actions that bracket or arm a resume.  `continue_process` is
    taken as a resume that is over when it returns. */
module Actions {
  import opened Positions
  import opened Events
  import opened Differences
  import opened Sessions
  import opened Automaton
  import opened PositionText
  import opened Manager
  import opened Timelines

  // s resumed in the other direction, and turned back
  ghost predicate ResumedTheOtherWay(ctx: Context, s: Session, event: Event, t: Session) {
    Next(ctx, s.(forward := !s.forward), Resume(event), t.(forward := !t.forward))
  }

  method BackwardStateRequest(manager: DebuggerManager, event: Event)
    requires manager.Valid()
    modifies manager, manager.cursor`at, manager.cursor`replays, manager.cursor.callback`events, manager.events
    ensures manager.Valid()
    ensures ResumedTheOtherWay(manager.Ctx(), old(manager.State()), event, manager.State())
  {
    manager.SwitchWay();
    manager.OnResume(event);
    manager.SwitchWay();
  }

  method BackwardSingleStepRequest(manager: DebuggerManager, event: Event)
    requires manager.Valid()
    modifies manager, manager.cursor`at, manager.cursor`replays, manager.cursor.callback`events, manager.events
    ensures manager.Valid()
    ensures Next(manager.Ctx(), old(manager.State()).(backStep := true), Resume(event), manager.State())
  {
    manager.RequestBackwardsSingleStep();
    manager.OnResume(event);
  }

  // A row of the timeline chosen by the user; rows that are gone do nothing.
  method ChooseRow(manager: DebuggerManager, timeline: PositionChooser, n: nat, event: Event)
    requires manager.Valid()
    modifies manager, manager.cursor`at, manager.cursor`replays, manager.cursor.callback`events, manager.events
    ensures manager.Valid()
    ensures n >= |timeline.positions| ==> manager.State() == old(manager.State())
    ensures n < |timeline.positions| ==>
              Next(manager.Ctx(), old(manager.State()).(jump := timeline.positions[n].position), Resume(event), manager.State())
  {
    if n >= |timeline.positions| { return; }
    manager.SetNextPosition(timeline.positions[n].position);
    manager.OnResume(event);
  }

  datatype Button = ContinueBackwards | SingleStepBackwards

  ghost predicate Pressed(ctx: Context, s: Session, button: Button, event: Event, t: Session) {
    match button
    case ContinueBackwards => ResumedTheOtherWay(ctx, s, event, t)
    case SingleStepBackwards => Next(ctx, s.(backStep := true), Resume(event), t)
  }

  // The debugger as a user finds it: going forward, with nothing pending.
  predicate AtRest(s: Session) {
    s.forward && s.jump == NO_JUMP && !s.backStep && s.mode == Continue
  }

  lemma PressGoesBack(ctx: Context, s: Session, button: Button, event: Event, t: Session)
    requires AtRest(s) && event.IsStop() && Pressed(ctx, s, button, event, t)
    ensures AtRest(t) && (t.at < s.at || t.at == 0)
    ensures StopsIn(t) == StopsIn(s) + 1
  {
    var (armed, turned) := if button.ContinueBackwards?
                           then (s.(forward := !s.forward), t.(forward := !t.forward))
                           else (s.(backStep := true), t);
    assert Next(ctx, armed, Resume(event), turned) && Productive(armed, Resume(event));
    StepStops(ctx, armed, Resume(event), turned);
    hide Move;
  }

  // A press, or anything quiet in between that leaves the debugger at rest: the
  // consumer fetches an event, a full run is made.
  datatype Act = Press(button: Button, event: Event) | Between(command: Command)

  ghost predicate Acted(ctx: Context, s: Session, act: Act, t: Session) {
    match act
    case Press(button, event) => event.IsStop() && Pressed(ctx, s, button, event, t)
    case Between(c) => Quiet(c) && Next(ctx, s, c, t) && AtRest(t)
  }

  function Presses(acts: seq<Act>): nat {
    if acts == [] then 0 else Presses(acts[..|acts| - 1]) + if acts[|acts| - 1].Press? then 1 else 0
  }

  lemma BetweenStays(ctx: Context, s: Session, c: Command, t: Session)
    requires Quiet(c) && Next(ctx, s, c, t)
    ensures t.at == s.at && StopsIn(t) == StopsIn(s)
  {
    StepStops(ctx, s, c, t);
    hide StopsIn;
  }

  /** However the two backward buttons are mixed, and whatever is fetched in
      between: n presses stop n times, come at least n moments closer to the
      beginning, where they end, and leave the debugger going forward with
      nothing pending. */
  lemma {:induction false} PressesGoBack(ctx: Context, states: seq<Session>, acts: seq<Act>)
    requires |states| == |acts| + 1 && AtRest(states[0])
    requires forall i :: 0 <= i < |acts| ==> Acted(ctx, states[i], acts[i], states[i + 1])
    ensures AtRest(Final(states)) && StopsIn(Final(states)) == StopsIn(states[0]) + Presses(acts)
    ensures Final(states).at + Presses(acts) <= states[0].at || (Presses(acts) > 0 && Final(states).at == 0)
  {
    if acts != [] {
      hide AtRest, Acted, StopsIn;
      var n := |acts| - 1;
      forall i | 0 <= i < n ensures Acted(ctx, states[..n + 1][i], acts[..n][i], states[..n + 1][i + 1]) {
        assert Acted(ctx, states[i], acts[i], states[i + 1]);
      }
      PressesGoBack(ctx, states[..n + 1], acts[..n]);
      ActGoesBack(ctx, states[n], acts[n], states[n + 1]);
    }
  }

  lemma ActGoesBack(ctx: Context, s: Session, act: Act, t: Session)
    requires AtRest(s) && Acted(ctx, s, act, t)
    ensures AtRest(t)
    ensures if act.Press? then (t.at < s.at || t.at == 0) && StopsIn(t) == StopsIn(s) + 1
            else t.at == s.at && StopsIn(t) == StopsIn(s)
  {
    hide Next, StopsIn;
    match act
    case Press(button, event) => PressGoesBack(ctx, s, button, event, t);
    case Between(c) => BetweenStays(ctx, s, c, t);
  }

  // A resume that makes no jump: the back-step, or what the mode says.
  ghost predicate ResumedWithoutJump(ctx: Context, s: Session, event: Event, t: Session) {
    && t.jump == NO_JUMP && !t.backStep && t.forward == s.forward && t.mode == (if s.backStep then s.mode else Continue)
    && match s.(jump := NO_JUMP).ReplayDirection(event)
       case None => t.at == s.at && t.Log() == s.Log()
       case Some(forward) =>
         && s.at < |ctx.recording.moments| && Replays(ctx.recording, forward, s.at, t.at)
         && t.Log() == s.Log() + (Move(ctx, s.at, t.at) + [Stop(ctx.recording, s.(jump := NO_JUMP), t.at)])
  }

  /** An answer to "go to position" whose numbers both read as zero, an empty
      minor among them, makes no jump.  It cancels the one that was pending, and
      resumes as the back-step, the mode and the direction say. */
  lemma GotoZeros(ctx: Context, s: Session, answer: string, event: Event, t: Session)
    requires ':' in answer && ReadsAsZero(Major(answer)) && ReadsAsZero(Minor(answer)) && event.IsStop()
    requires Next(ctx, s.(jump := Parse(answer).value), Resume(event), t)
    ensures ResumedWithoutJump(ctx, s, event, t)
  {
    NoJumpIffZeros(answer);
    hide Parse, ReadsAsZero, Next, ResumedWithoutJump;
    ResumeWithoutJump(ctx, s, event, t);
  }

  lemma ResumeWithoutJump(ctx: Context, s: Session, event: Event, t: Session)
    requires event.IsStop() && Next(ctx, s.(jump := NO_JUMP), Resume(event), t)
    ensures ResumedWithoutJump(ctx, s, event, t)
  {
    StepLog(ctx, s.(jump := NO_JUMP), Resume(event), t);
    hide Move;
  }

  lemma ResumeAtJump(ctx: Context, s: Session, p: Position, event: Event, t: Session)
    requires p != NO_JUMP && ctx.recording.Recorded(p) && event.IsStop() && Next(ctx, s.(jump := p), Resume(event), t)
    ensures t.at < |ctx.recording.moments| && ctx.recording.moments[t.at].position == p
    ensures t.Log() == s.Log() + (Move(ctx, s.at, t.at) + [BreakAt(ctx.recording, t.at)])
  {
    StepLog(ctx, s.(jump := p), Resume(event), t);
    hide Move;
  }

  /** Going to the printed form of a recorded position stops the debuggee there;
      the one exception is {0, 0}, which cancels a pending jump and resumes. */
  lemma GotoPrinted(ctx: Context, s: Session, p: Position, event: Event, t: Session)
    requires p.major <= LONG_MAX && p.minor <= LONG_MAX && ctx.recording.Recorded(p) && event.IsStop()
    requires Parse(Print(p)).Some? && Next(ctx, s.(jump := Parse(Print(p)).value), Resume(event), t)
    ensures p != NO_JUMP ==>
              && t.at < |ctx.recording.moments| && ctx.recording.moments[t.at].position == p
              && t.Log() == s.Log() + (Move(ctx, s.at, t.at) + [BreakAt(ctx.recording, t.at)])
    ensures p == NO_JUMP ==> ResumedWithoutJump(ctx, s, event, t)
  {
    TextRoundTrip(p);
    hide Parse, Print, Next, Move, ResumedWithoutJump;
    if p == NO_JUMP { ResumeWithoutJump(ctx, s, event, t); } else { ResumeAtJump(ctx, s, p, event, t); }
  }
}
