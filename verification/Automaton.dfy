/** The resume automaton: stop events, direction, pending jumps and back-steps
    over whole runs. */
module Automaton {
  import opened Positions
  import opened Events
  import opened Differences
  import opened Sessions
  import opened StreamGrammar

  // Any stretch of a run.
  ghost predicate Stretch(ctx: Context, states: seq<Session>, cmds: seq<Command>) {
    && |states| == |cmds| + 1
    && forall i :: 0 <= i < |cmds| ==> Next(ctx, states[i], cmds[i], states[i + 1])
  }

  lemma StretchPrefix(ctx: Context, states: seq<Session>, cmds: seq<Command>)
    requires Stretch(ctx, states, cmds) && cmds != []
    ensures Stretch(ctx, states[..|cmds|], cmds[..|cmds| - 1])
    ensures Next(ctx, states[|cmds| - 1], cmds[|cmds| - 1], Final(states))
    ensures Final(states[..|cmds|]) == states[|cmds| - 1]
  {
  }

  function Stops(es: seq<Event>): nat {
    if es == [] then 0 else Stops(es[..|es| - 1]) + if es[|es| - 1].IsStop() then 1 else 0
  }

  lemma {:induction false} StopsConcat(es: seq<Event>, fs: seq<Event>)
    ensures Stops(es + fs) == Stops(es) + Stops(fs)
  {
    if fs == [] {
      assert es + fs == es;
    } else {
      assert (es + fs)[..|es + fs| - 1] == es + fs[..|fs| - 1];
      StopsConcat(es, fs[..|fs| - 1]);
    }
  }

  lemma {:induction false} NoStops(es: seq<Event>)
    requires forall e :: e in es ==> !e.IsStop()
    ensures Stops(es) == 0
  {
    if es != [] { NoStops(es[..|es| - 1]); }
  }

  lemma MoveHasNoStops(ctx: Context, i: nat, j: nat)
    requires i < |ctx.recording.moments| && j < |ctx.recording.moments|
    ensures Stops(Move(ctx, i, j)) == 0
  {
    MoveHasNoStopEvents(ctx, i, j);
    hide Move;
    NoStops(Move(ctx, i, j));
  }

  /** What a productive resume announces: where the cursor is then, as a step if
      a step was asked for and neither a jump nor a back-step came in between,
      and as a breakpoint otherwise. */
  lemma StopKind(ctx: Context, s: Session, c: Command, t: Session)
    requires Next(ctx, s, c, t) && Productive(s, c)
    ensures t.at < |ctx.recording.moments| && t.Log() != []
    ensures var m := ctx.recording.moments[t.at];
            t.Log()[|t.Log()| - 1] ==
              if s.jump == NO_JUMP && !s.backStep && s.mode == Into then Step(m.thread) else Breakpoint(m.thread, m.pc)
  {
    StepLog(ctx, s, c, t);
    hide Next, Move;
  }

  // Resumes that stop the debuggee again.
  function Productives(states: seq<Session>, cmds: seq<Command>): nat
    requires |states| == |cmds| + 1
  {
    if cmds == [] then 0
    else Productives(states[..|cmds|], cmds[..|cmds| - 1])
         + if Productive(states[|cmds| - 1], cmds[|cmds| - 1]) then 1 else 0
  }

  function StopsIn(s: Session): nat { Stops(s.Log()) }

  lemma StepStops(ctx: Context, s: Session, c: Command, t: Session)
    requires Next(ctx, s, c, t)
    ensures StopsIn(t) == StopsIn(s) + if Productive(s, c) then 1 else 0
  {
    StepLog(ctx, s, c, t);
    hide Next, Productive;
    if Productive(s, c) {
      var move, stop := Move(ctx, s.at, t.at), [Stop(ctx.recording, s, t.at)];
      StopsConcat(s.Log(), move + stop);
      StopsConcat(move, stop);
      MoveHasNoStops(ctx, s.at, t.at);
      hide Move;
      assert stop[..0] == [];
    }
  }

  /** Stop events are conserved: the log of a stretch grows by one stop event for
      each resume after a stop with a supported mode or a pending request, and
      by none for any other command. */
  lemma {:induction false} OneStopPerResume(ctx: Context, states: seq<Session>, cmds: seq<Command>)
    requires Stretch(ctx, states, cmds)
    ensures StopsIn(Final(states)) == StopsIn(states[0]) + Productives(states, cmds)
  {
    if cmds != [] {
      hide Next;
      StretchPrefix(ctx, states, cmds);
      OneStopPerResume(ctx, states[..|cmds|], cmds[..|cmds| - 1]);
      StepStops(ctx, states[|cmds| - 1], cmds[|cmds| - 1], Final(states));
    }
  }

  function Switches(cmds: seq<Command>): nat {
    if cmds == [] then 0 else Switches(cmds[..|cmds| - 1]) + if cmds[|cmds| - 1].SwitchWay? then 1 else 0
  }

  predicate Even(n: nat) { n % 2 == 0 }

  lemma NextParity(n: nat, odd: bool)
    ensures Even(n + if odd then 1 else 0) <==> Even(n) != odd
  {
  }

  lemma StepDirection(ctx: Context, s: Session, c: Command, t: Session)
    requires Next(ctx, s, c, t)
    ensures t.forward == if c.SwitchWay? then !s.forward else s.forward
  {
    hide Move;
  }

  /** The direction is a matter of the switches alone, so after any number of
      continues bracketed by two switches it is what it was. */
  lemma {:induction false} DirectionParity(ctx: Context, states: seq<Session>, cmds: seq<Command>)
    requires Stretch(ctx, states, cmds)
    ensures Final(states).forward == states[0].forward <==> Even(Switches(cmds))
  {
    hide Even, Next, Switches;
    assert |states| == |cmds| + 1;
    if cmds == [] {
      NoSwitches();
    } else {
      var init, before, last := cmds[..|cmds| - 1], states[..|cmds|], cmds[|cmds| - 1];
      StretchPrefix(ctx, states, cmds);
      hide Stretch;
      DirectionParity(ctx, before, init);
      SwitchesLast(cmds);
      StepDirection(ctx, states[|cmds| - 1], last, Final(states));
    }
  }

  lemma NoSwitches()
    ensures Even(Switches([]))
  {
  }

  lemma SwitchesLast(cmds: seq<Command>)
    requires cmds != []
    ensures Even(Switches(cmds)) <==> Even(Switches(cmds[..|cmds| - 1])) != cmds[|cmds| - 1].SwitchWay?
  {
    NextParity(Switches(cmds[..|cmds| - 1]), cmds[|cmds| - 1].SwitchWay?);
    hide Even;
  }

  // Commands that neither request a jump nor resume after a stop.
  predicate Quiet(c: Command) {
    !c.SetNextPosition? && (c.Resume? ==> !c.trigger.IsStop())
  }

  predicate ResumesAfterStop(c: Command) {
    c.Resume? && c.trigger.IsStop()
  }

  lemma StepBackStep(ctx: Context, s: Session, c: Command, t: Session)
    requires Next(ctx, s, c, t)
    ensures t.backStep == if c.RequestBackStep? then true
                          else if ResumesAfterStop(c) && s.jump == NO_JUMP then false else s.backStep
  {
    hide Move;
  }

  function Armed(s: Session): nat {
    if s.backStep then 1 else 0
  }

  // Requests that arm the back-step; one more while it is armed changes nothing.
  function BackStepsArmed(states: seq<Session>, cmds: seq<Command>): nat
    requires |states| == |cmds| + 1
  {
    if cmds == [] then 0
    else BackStepsArmed(states[..|cmds|], cmds[..|cmds| - 1])
         + if cmds[|cmds| - 1].RequestBackStep? && !states[|cmds| - 1].backStep then 1 else 0
  }

  function BackStepsMade(states: seq<Session>, cmds: seq<Command>): nat
    requires |states| == |cmds| + 1
  {
    if cmds == [] then 0
    else BackStepsMade(states[..|cmds|], cmds[..|cmds| - 1])
         + if ResumesAfterStop(cmds[|cmds| - 1]) && states[|cmds| - 1].jump == NO_JUMP && states[|cmds| - 1].backStep
           then 1 else 0
  }

  /** Back-steps are conserved: each one armed is made once or still armed, and
      none arms itself. */
  lemma {:induction false} BackStepsAreConserved(ctx: Context, states: seq<Session>, cmds: seq<Command>)
    requires Stretch(ctx, states, cmds)
    ensures Armed(states[0]) + BackStepsArmed(states, cmds) == BackStepsMade(states, cmds) + Armed(Final(states))
  {
    if cmds != [] {
      StretchPrefix(ctx, states, cmds);
      BackStepsAreConserved(ctx, states[..|cmds|], cmds[..|cmds| - 1]);
      StepBackStep(ctx, states[|cmds| - 1], cmds[|cmds| - 1], Final(states));
      hide Next;
    }
  }

  // Deliveries that found something to deliver.
  function Fetched(states: seq<Session>, cmds: seq<Command>): nat
    requires |states| == |cmds| + 1
  {
    if cmds == [] then 0
    else Fetched(states[..|cmds|], cmds[..|cmds| - 1])
         + if cmds[|cmds| - 1].GetDebugEvent? && states[|cmds| - 1].queued != [] then 1 else 0
  }

  lemma StepDelivers(ctx: Context, s: Session, c: Command, t: Session)
    requires Next(ctx, s, c, t)
    ensures t.delivered == if c.GetDebugEvent? && s.queued != [] then s.delivered + [s.queued[0]] else s.delivered
  {
    hide Move;
  }

  /** Events are handed out one per request, and only on request. */
  lemma {:induction false} OneEventPerRequest(ctx: Context, states: seq<Session>, cmds: seq<Command>)
    requires Stretch(ctx, states, cmds)
    ensures |Final(states).delivered| == |states[0].delivered| + Fetched(states, cmds)
  {
    if cmds != [] {
      StretchPrefix(ctx, states, cmds);
      OneEventPerRequest(ctx, states[..|cmds|], cmds[..|cmds| - 1]);
      StepDelivers(ctx, states[|cmds| - 1], cmds[|cmds| - 1], Final(states));
      hide Next;
    }
  }

  /** A consumer that keeps asking gets everything: as many requests as events are
      queued drain the queue, and leave the cursor where it is. */
  lemma {:induction false} RequestsDrainTheQueue(ctx: Context, states: seq<Session>, cmds: seq<Command>)
    requires Stretch(ctx, states, cmds) && forall c :: c in cmds ==> c.GetDebugEvent?
    ensures Final(states).at == states[0].at && Final(states).Log() == states[0].Log()
    ensures |Final(states).queued| == if |cmds| <= |states[0].queued| then |states[0].queued| - |cmds| else 0
    ensures |cmds| >= |states[0].queued| ==> Final(states).delivered == states[0].Log()
  {
    if cmds != [] {
      StretchPrefix(ctx, states, cmds);
      assert forall c :: c in cmds[..|cmds| - 1] ==> c in cmds;
      RequestsDrainTheQueue(ctx, states[..|cmds|], cmds[..|cmds| - 1]);
      var s, t := states[|cmds| - 1], Final(states);
      assert cmds[|cmds| - 1] in cmds;
      StepLog(ctx, s, GetDebugEvent, t);
      StepDelivers(ctx, s, GetDebugEvent, t);
      hide Next, Stretch;
      assert |t.Log()| == |t.delivered| + |t.queued| && |s.Log()| == |s.delivered| + |s.queued|;
      if t.queued == [] { assert t.Log() == t.delivered; }
    }
  }

  // Nothing that turns, jumps or steps back is asked for.
  predicate StraightOn(c: Command) {
    !c.SwitchWay? && !c.SetNextPosition? && !c.RequestBackStep?
  }

  lemma StepForward(ctx: Context, s: Session, c: Command, t: Session)
    requires Next(ctx, s, c, t) && StraightOn(c) && s.forward && s.jump == NO_JUMP && !s.backStep
    ensures t.forward && t.jump == NO_JUMP && !t.backStep
    ensures s.at < |ctx.recording.moments| && t.at < |ctx.recording.moments|
    ensures if Productive(s, c) then s.at < t.at || t.at == |ctx.recording.moments| - 1 == s.at else t.at == s.at
  {
    hide Move;
  }

  /** Going forward, resumes lead forward: n of them come at least n moments
      closer to the end of the recording, where they end. */
  lemma {:induction false} ResumesGoForward(ctx: Context, states: seq<Session>, cmds: seq<Command>)
    requires Stretch(ctx, states, cmds) && forall c :: c in cmds ==> StraightOn(c)
    requires states[0].forward && states[0].jump == NO_JUMP && !states[0].backStep
    ensures Final(states).forward && Final(states).jump == NO_JUMP && !Final(states).backStep
    ensures || states[0].at + Productives(states, cmds) <= Final(states).at
            || (Productives(states, cmds) > 0 && Final(states).at == |ctx.recording.moments| - 1)
  {
    if cmds != [] {
      StretchPrefix(ctx, states, cmds);
      ResumesGoForward(ctx, states[..|cmds|], cmds[..|cmds| - 1]);
      assert cmds[|cmds| - 1] in cmds;
      StepForward(ctx, states[|cmds| - 1], cmds[|cmds| - 1], Final(states));
      hide Next;
    }
  }

  lemma {:induction false} RequestsWait(ctx: Context, states: seq<Session>, cmds: seq<Command>)
    requires Stretch(ctx, states, cmds) && forall c :: c in cmds ==> Quiet(c)
    ensures Final(states).jump == states[0].jump && Final(states).at == states[0].at
    ensures states[0].backStep ==> Final(states).backStep
  {
    if cmds != [] {
      StretchPrefix(ctx, states, cmds);
      RequestsWait(ctx, states[..|cmds|], cmds[..|cmds| - 1]);
      assert Quiet(cmds[|cmds| - 1]);
    }
  }

  /** A requested jump outlives everything up to the next resume after a stop;
      that resume goes to the requested position, whatever the resume mode, the
      direction and a pending back-step say, and uses the request up. */
  lemma JumpFires(ctx: Context, states: seq<Session>, cmds: seq<Command>, p: Position)
    requires Stretch(ctx, states, cmds) && |cmds| >= 2
    requires cmds[0] == SetNextPosition(p) && p != NO_JUMP && ctx.recording.Recorded(p)
    requires forall c :: c in cmds[1..|cmds| - 1] ==> Quiet(c)
    requires ResumesAfterStop(cmds[|cmds| - 1])
    ensures Final(states).at < |ctx.recording.moments|
    ensures ctx.recording.moments[Final(states).at].position == p
    ensures Final(states).jump == NO_JUMP
    ensures states[1].backStep ==> Final(states).backStep
  {
    var n := |cmds|;
    assert Next(ctx, states[0], cmds[0], states[1]) && Next(ctx, states[n - 1], cmds[n - 1], states[n]);
    var mid, quiet := states[1..n], cmds[1..n - 1];
    forall i | 0 <= i < |quiet| ensures Next(ctx, mid[i], quiet[i], mid[i + 1]) {
      assert Next(ctx, states[i + 1], cmds[i + 1], states[i + 2]);
    }
    RequestsWait(ctx, mid, quiet);
    assert Final(mid) == states[n - 1];
  }

  function JumpRequests(cmds: seq<Command>): nat {
    if cmds == [] then 0
    else JumpRequests(cmds[..|cmds| - 1])
         + if cmds[|cmds| - 1].SetNextPosition? && cmds[|cmds| - 1].position != NO_JUMP then 1 else 0
  }

  function JumpsFired(states: seq<Session>, cmds: seq<Command>): nat
    requires |states| == |cmds| + 1
  {
    if cmds == [] then 0
    else JumpsFired(states[..|cmds|], cmds[..|cmds| - 1])
         + if ResumesAfterStop(cmds[|cmds| - 1]) && states[|cmds| - 1].jump != NO_JUMP then 1 else 0
  }

  function Pending(s: Session): nat {
    if s.jump != NO_JUMP then 1 else 0
  }

  // Jumps replaced by another request, or cancelled by one for {0, 0}, before
  // they were made.
  function JumpsDropped(states: seq<Session>, cmds: seq<Command>): nat
    requires |states| == |cmds| + 1
  {
    if cmds == [] then 0
    else JumpsDropped(states[..|cmds|], cmds[..|cmds| - 1])
         + if cmds[|cmds| - 1].SetNextPosition? && states[|cmds| - 1].jump != NO_JUMP then 1 else 0
  }

  /** Jump requests are conserved: each jump requested, or pending at first, is
      made once, dropped once, or still pending. */
  lemma {:induction false} JumpsAreConserved(ctx: Context, states: seq<Session>, cmds: seq<Command>)
    requires Stretch(ctx, states, cmds)
    ensures JumpsFired(states, cmds) + JumpsDropped(states, cmds) + Pending(Final(states))
         == Pending(states[0]) + JumpRequests(cmds)
  {
    if cmds != [] {
      StretchPrefix(ctx, states, cmds);
      JumpsAreConserved(ctx, states[..|cmds|], cmds[..|cmds| - 1]);
      StepJump(ctx, states[|cmds| - 1], cmds[|cmds| - 1], Final(states));
      hide Next;
    }
  }

  lemma StepJump(ctx: Context, s: Session, c: Command, t: Session)
    requires Next(ctx, s, c, t)
    ensures t.jump == if c.SetNextPosition? then c.position else if ResumesAfterStop(c) then NO_JUMP else s.jump
  {
    hide Move;
  }

  /** A back-step armed together with a jump waits for it: the jump takes the
      first resume after a stop, and the next one goes backward, whatever the
      direction. */
  lemma BackStepFollowsJump(ctx: Context, states: seq<Session>, cmds: seq<Command>)
    requires Stretch(ctx, states, cmds) && |cmds| >= 2
    requires states[0].jump != NO_JUMP && states[0].backStep
    requires ResumesAfterStop(cmds[0]) && ResumesAfterStop(cmds[|cmds| - 1])
    requires forall c :: c in cmds[1..|cmds| - 1] ==> Quiet(c)
    ensures Lands(ctx.recording, states[0].jump, states[1].at)
    ensures Replays(ctx.recording, false, states[1].at, Final(states).at)
    ensures !Final(states).backStep && Final(states).forward == states[|cmds| - 1].forward
  {
    var n := |cmds|;
    assert Next(ctx, states[0], cmds[0], states[1]) && Next(ctx, states[n - 1], cmds[n - 1], states[n]);
    var mid, quiet := states[1..n], cmds[1..n - 1];
    forall i | 0 <= i < |quiet| ensures Next(ctx, mid[i], quiet[i], mid[i + 1]) {
      assert Next(ctx, states[i + 1], cmds[i + 1], states[i + 2]);
    }
    RequestsWait(ctx, mid, quiet);
    assert Final(mid) == states[n - 1];
  }

  // A resume after a stop that is neither diverted to a jump nor to a back-step.
  predicate PlainResume(s: Session, c: Command) {
    ResumesAfterStop(c) && s.jump == NO_JUMP && !s.backStep
  }

  function PlainResumes(states: seq<Session>, cmds: seq<Command>): nat
    requires |states| == |cmds| + 1
  {
    if cmds == [] then 0
    else PlainResumes(states[..|cmds|], cmds[..|cmds| - 1])
         + if PlainResume(states[|cmds| - 1], cmds[|cmds| - 1]) then 1 else 0
  }

  lemma StepMode(ctx: Context, s: Session, c: Command, t: Session)
    requires Next(ctx, s, c, t)
    ensures t.mode == if c.SetResumeMode? then c.mode else if PlainResume(s, c) then Continue else s.mode
  {
    hide Move;
  }

  /** A resume mode outlives everything, jumps and back-steps included, up to the
      next plain resume, which puts it back to Continue. */
  lemma {:induction false} ModeWaits(ctx: Context, states: seq<Session>, cmds: seq<Command>)
    requires Stretch(ctx, states, cmds) && forall c :: c in cmds ==> !c.SetResumeMode?
    ensures Final(states).mode == if PlainResumes(states, cmds) == 0 then states[0].mode else Continue
  {
    if cmds != [] {
      hide Next;
      StretchPrefix(ctx, states, cmds);
      ModeWaits(ctx, states[..|cmds|], cmds[..|cmds| - 1]);
      StepMode(ctx, states[|cmds| - 1], cmds[|cmds| - 1], Final(states));
    }
  }

  /** Whatever mode was set, supported or not, is the mode in which the first
      plain resume after it is made. */
  lemma ModeIsKept(ctx: Context, s: Session, mode: ResumeMode, states: seq<Session>, cmds: seq<Command>)
    requires Stretch(ctx, states, cmds) && Next(ctx, s, SetResumeMode(mode), states[0])
    requires (forall c :: c in cmds ==> !c.SetResumeMode?) && PlainResumes(states, cmds) == 0
    ensures Final(states).mode == mode
  {
    StepMode(ctx, s, SetResumeMode(mode), states[0]);
    hide Next;
    ModeWaits(ctx, states, cmds);
  }

  /** So a step asked for before any number of jumps and back-steps is made by
      the first plain resume after them. */
  lemma StepOutlivesRequests(ctx: Context, states: seq<Session>, cmds: seq<Command>, c: Command, t: Session)
    requires Stretch(ctx, states, cmds) && forall c :: c in cmds ==> !c.SetResumeMode?
    requires states[0].mode.Into? && PlainResumes(states, cmds) == 0
    requires Next(ctx, Final(states), c, t) && PlainResume(Final(states), c)
    ensures var s := Final(states);
            && s.at < |ctx.recording.moments|
            && Replays(ctx.recording, s.forward, s.at, t.at)
            && t.Log() == s.Log() + (Move(ctx, s.at, t.at) + [StepAt(ctx.recording, t.at)])
  {
    ModeWaits(ctx, states, cmds);
    StepLog(ctx, Final(states), c, t);
    hide Move;
  }

  lemma FirstStepAfterJump(ctx: Context, asked: Session, p: Position, event: Event)
      returns (jumped: Session, stepped: Session)
    requires ctx.recording.Valid() && ctx.recording.Recorded(p) && p != NO_JUMP && event.IsStop()
    requires asked.at < |ctx.recording.moments| && asked.forward && asked.mode == Into && !asked.backStep
    ensures Next(ctx, asked.(jump := p), Resume(event), jumped) && Next(ctx, jumped, Resume(event), stepped)
    ensures stepped.Log() != [] && stepped.Log()[|stepped.Log()| - 1].Step?
  {
    var r := ctx.recording;
    var k, last := r.IndexOf(p), |r.moments| - 1;
    hide Move;
    jumped := Moved(ctx, asked.(jump := p), k, BreakAt(r, k)).(jump := NO_JUMP);
    stepped := Moved(ctx, jumped, last, StepAt(r, last)).(mode := Continue);
    assert stepped.queued[|stepped.queued| - 1] == StepAt(r, last);
    assert stepped.Log()[|stepped.Log()| - 1] == stepped.queued[|stepped.queued| - 1];
  }

  /** In every recording there is such a run: a step is asked for, then a jump;
      the first resume makes the jump and the second one the step. */
  lemma StepAfterJump(ctx: Context, p: Position, event: Event) returns (states: seq<Session>)
    requires ctx.recording.Valid() && ctx.recording.Recorded(p) && p != NO_JUMP && event.IsStop()
    ensures IsRun(ctx, states, [SetResumeMode(Into), SetNextPosition(p), Resume(event), Resume(event)])
    ensures var log := Final(states).Log(); log != [] && log[|log| - 1].Step?
  {
    hide StartEvents;
    var start := Session(0, true, Continue, NO_JUMP, false, [], StartEvents(ctx));
    var asked := start.(mode := Into);
    var jumped, stepped := FirstStepAfterJump(ctx, asked, p, event);
    assert IsRun(ctx, [start], []) && Next(ctx, start, SetResumeMode(Into), asked);
    assert Next(ctx, asked, SetNextPosition(p), asked.(jump := p));
    hide Next, IsRun, Started;
    var states1, cmds1 := [start] + [asked], [] + [SetResumeMode(Into)];
    var states2, cmds2 := states1 + [asked.(jump := p)], cmds1 + [SetNextPosition(p)];
    RunExtends(ctx, [start], [], SetResumeMode(Into), asked);
    RunExtends(ctx, states1, cmds1, SetNextPosition(p), asked.(jump := p));
    RunExtends(ctx, states2, cmds2, Resume(event), jumped);
    RunExtends(ctx, states2 + [jumped], cmds2 + [Resume(event)], Resume(event), stepped);
    states := states2 + [jumped] + [stepped];
    assert cmds2 + [Resume(event)] + [Resume(event)]
        == [SetResumeMode(Into), SetNextPosition(p), Resume(event), Resume(event)];
  }
}
