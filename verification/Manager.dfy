/** The debugger manager: the automaton IDA drives.  Every method is proved to
    take the step `Sessions.Next` describes. */
module Manager {
  import opened Positions
  import opened Recordings
  import opened Sorting
  import opened Events
  import opened Differences
  import opened Sessions
  import opened Pairing
  import opened Tracer
  import opened FullRuns
  import opened Cursors
  import opened Breakpoints
  import opened PositionText
  import opened Timelines

  const TTD_STEP := 100000

  class DebuggerManager {
    const isTarget: string -> bool
    const cursor: Cursor
    const events: EventDeque
    var isForward: bool
    var resumeMode: ResumeMode
    var nextPosition: Position
    var backwardsSingleStep: bool

    ghost function Ctx(): Context {
      Context(cursor.recording, isTarget)
    }

    ghost predicate Valid()
      reads this, cursor, cursor.callback
    {
      cursor.Valid()
    }

    ghost function State(): Session
      reads this, cursor, events
    {
      Session(cursor.at, isForward, resumeMode, nextPosition, backwardsSingleStep, events.delivered, events.events)
    }

    constructor (isTarget: string -> bool, cursor: Cursor)
      requires cursor.Valid()
      ensures Valid() && this.cursor == cursor && this.isTarget == isTarget && fresh(events)
      ensures isForward && resumeMode == Continue && nextPosition == NO_JUMP && !backwardsSingleStep
      ensures events.events == [] && events.delivered == []
    {
      this.isTarget, this.cursor := isTarget, cursor;
      isForward, resumeMode, nextPosition, backwardsSingleStep := true, Continue, NO_JUMP, false;
      events := new EventDeque();
    }

    predicate IsTargetModule(m: ModuleInfo) {
      isTarget(m.path)
    }

    method GetCursorThreads() returns (threads: set<ThreadId>)
      requires Valid()
      ensures threads == cursor.recording.ThreadSet(cursor.at)
    {
      var list := cursor.recording.moments[cursor.at].threads;
      threads := {};
      var i := 0;
      while i < |list|
        invariant 0 <= i <= |list|
        invariant threads == set t | t in list[..i]
      {
        assert list[..i + 1] == list[..i] + [list[i]];
        threads := threads + {list[i]};
        i := i + 1;
      }
      assert list[..i] == list;
    }

    method GetCursorModules() returns (modules: set<ModuleId>)
      requires Valid()
      ensures modules == cursor.recording.ModuleSet(cursor.at)
      ensures Ctx().Known(modules)
    {
      var list := cursor.recording.moments[cursor.at].modules;
      modules := {};
      var i := 0;
      while i < |list|
        invariant 0 <= i <= |list|
        invariant modules == set m | m in list[..i]
      {
        assert list[..i + 1] == list[..i] + [list[i]];
        modules := modules + {list[i]};
        i := i + 1;
      }
      assert list[..i] == list;
    }

    // -----------------------------------------------------------------------
    // The loops that push one kind of event each

    method PushExits(threads: seq<ThreadId>)
      modifies events
      ensures events.events == old(events.events) + ThreadExits(threads)
      ensures events.delivered == old(events.delivered)
    {
      var i := 0;
      while i < |threads|
        invariant 0 <= i <= |threads|
        invariant events.events == old(events.events) + ThreadExits(threads[..i])
        invariant events.delivered == old(events.delivered)
      {
        events.AddThreadExitEvent(threads[i]);
        assert ThreadExits(threads[..i + 1]) == ThreadExits(threads[..i]) + [ThreadExited(threads[i])];
        i := i + 1;
      }
      assert threads[..i] == threads;
    }

    method PushStarts(threads: seq<ThreadId>)
      modifies events
      ensures events.events == old(events.events) + ThreadStarts(threads)
      ensures events.delivered == old(events.delivered)
    {
      var i := 0;
      while i < |threads|
        invariant 0 <= i <= |threads|
        invariant events.events == old(events.events) + ThreadStarts(threads[..i])
        invariant events.delivered == old(events.delivered)
      {
        events.AddThreadStartEvent(threads[i]);
        assert ThreadStarts(threads[..i + 1]) == ThreadStarts(threads[..i]) + [ThreadStarted(threads[i])];
        i := i + 1;
      }
      assert threads[..i] == threads;
    }

    method PushUnloads(modules: seq<ModuleId>)
      requires forall m :: m in modules ==> m < |cursor.recording.moduleList|
      modifies events
      ensures events.events == old(events.events) + Unloads(Ctx(), modules)
      ensures events.delivered == old(events.delivered)
    {
      var i := 0;
      while i < |modules|
        invariant 0 <= i <= |modules|
        invariant events.events == old(events.events) + Unloads(Ctx(), modules[..i])
        invariant events.delivered == old(events.delivered)
      {
        assert modules[i] in modules;
        var m := cursor.recording.moduleList[modules[i]];
        if !IsTargetModule(m) {
          events.AddLibUnloadEvent(m.path, m.base);
        }
        assert modules[..i + 1][..i] == modules[..i];
        i := i + 1;
      }
      assert modules[..i] == modules;
    }

    method PushLoad(id: ModuleId)
      requires id < |cursor.recording.moduleList|
      modifies events
      ensures events.events == old(events.events) + [Load(Ctx(), id)]
      ensures events.delivered == old(events.delivered)
    {
      var m := cursor.recording.moduleList[id];
      events.AddLibLoadEvent(m.path, m.base, if IsTargetModule(m) then Some(m.base) else None, m.size);
    }

    method PushLoads(modules: seq<ModuleId>)
      requires forall m :: m in modules ==> m < |cursor.recording.moduleList|
      modifies events
      ensures events.events == old(events.events) + Loads(Ctx(), modules)
      ensures events.delivered == old(events.delivered)
    {
      var i := 0;
      while i < |modules|
        invariant 0 <= i <= |modules|
        invariant events.events == old(events.events) + Loads(Ctx(), modules[..i])
        invariant events.delivered == old(events.delivered)
      {
        assert modules[i] in modules;
        PushLoad(modules[i]);
        assert Loads(Ctx(), modules[..i + 1]) == Loads(Ctx(), modules[..i]) + [Load(Ctx(), modules[i])];
        i := i + 1;
      }
      assert modules[..i] == modules;
    }

    method ApplyDifferences(threadBefore: set<ThreadId>, threadAfter: set<ThreadId>,
                            moduleBefore: set<ModuleId>, moduleAfter: set<ModuleId>)
      requires Ctx().Known(moduleBefore) && Ctx().Known(moduleAfter)
      modifies events
      ensures events.events == old(events.events)
                + DifferenceEvents(Ctx(), threadBefore, threadAfter, moduleBefore, moduleAfter)
      ensures events.delivered == old(events.delivered)
    {
      hide ThreadExits, ThreadStarts, Unloads, Loads, Ascending;
      PushExits(Ascending(threadBefore - threadAfter));
      PushStarts(Ascending(threadAfter - threadBefore));
      PushUnloads(Ascending(moduleBefore - moduleAfter));
      PushLoads(Ascending(moduleAfter - moduleBefore));
    }

    // -----------------------------------------------------------------------
    // Moving the cursor

    // A forward replay from moment `from` adds its traced calls and returns to
    // what the tracer had recorded.
    ghost predicate Traced(from: nat, recorded: multiset<Invocation>)
      reads cursor, cursor.callback
    {
      var tracer := cursor.callback;
      && cursor.at <= |cursor.recording.moments|
      && multiset(tracer.events) ==
           recorded + multiset(Span(tracer.database, tracer.traces, cursor.recording.moments, from, cursor.at))
    }

    // The last or the first position of the recording.
    function Limit(forward: bool): Position
      requires cursor.recording.moments != []
    {
      var moments := cursor.recording.moments;
      moments[if forward then |moments| - 1 else 0].position
    }

    method ApplyCursorSteps(steps: int)
      requires Valid()
      modifies cursor`at, cursor`replays, cursor.callback`events, events
      ensures Valid()
      ensures Replays(cursor.recording, isForward, old(cursor.at), cursor.at)
      ensures events.events == old(events.events) + Move(Ctx(), old(cursor.at), cursor.at)
      ensures events.delivered == old(events.delivered)
      ensures isForward ==> Traced(old(cursor.at), old(multiset(cursor.callback.events)))
      ensures cursor.replays == old(cursor.replays) + [Replay(isForward, Limit(isForward), steps)]
    {
      hide Move, Span;
      var threadBefore := GetCursorThreads();
      var moduleBefore := GetCursorModules();
      ReplayInDirection(steps);
      var threadAfter := GetCursorThreads();
      var moduleAfter := GetCursorModules();
      ApplyMove(old(cursor.at), threadBefore, threadAfter, moduleBefore, moduleAfter);
    }

    method ReplayInDirection(steps: int)
      requires Valid()
      modifies cursor`at, cursor`replays, cursor.callback`events
      ensures Valid()
      ensures Replays(cursor.recording, isForward, old(cursor.at), cursor.at)
      ensures isForward ==> Traced(old(cursor.at), old(multiset(cursor.callback.events)))
      ensures cursor.replays == old(cursor.replays) + [Replay(isForward, Limit(isForward), steps)]
    {
      hide Span;
      var moments := cursor.recording.moments;
      if isForward {
        var last := moments[|moments| - 1].position;
        cursor.recording.OrderOfIndexes(cursor.at, |moments| - 1);
        cursor.ReplayForward(last, steps);
      } else {
        var first := moments[0].position;
        cursor.recording.OrderOfIndexes(0, cursor.at);
        cursor.ReplayBackward(first, steps);
      }
    }

    // The sets before and after are those of a move that is over.
    method ApplyMove(ghost from: nat, threadBefore: set<ThreadId>, threadAfter: set<ThreadId>,
                     moduleBefore: set<ModuleId>, moduleAfter: set<ModuleId>)
      requires Valid() && from < |cursor.recording.moments|
      requires threadBefore == cursor.recording.ThreadSet(from) && threadAfter == cursor.recording.ThreadSet(cursor.at)
      requires moduleBefore == cursor.recording.ModuleSet(from) && moduleAfter == cursor.recording.ModuleSet(cursor.at)
      modifies events
      ensures events.events == old(events.events) + Move(Ctx(), from, cursor.at)
      ensures events.delivered == old(events.delivered)
    {
      hide DifferenceEvents;
      ApplyDifferences(threadBefore, threadAfter, moduleBefore, moduleAfter);
    }

    method ApplyCursorPosition(newPos: Position)
      requires Valid()
      modifies cursor`at, events
      ensures Valid()
      ensures Lands(cursor.recording, newPos, cursor.at)
      ensures events.events == old(events.events) + Move(Ctx(), old(cursor.at), cursor.at)
      ensures events.delivered == old(events.delivered)
    {
      var threadBefore := GetCursorThreads();
      var moduleBefore := GetCursorModules();
      cursor.SetPosition(newPos);
      var threadAfter := GetCursorThreads();
      var moduleAfter := GetCursorModules();
      ApplyMove(old(cursor.at), threadBefore, threadAfter, moduleBefore, moduleAfter);
    }

    // -----------------------------------------------------------------------
    // Commands

    // The part of onStartProcess after the engine is up.  One session per
    // queue: nothing was pushed before.
    method OnStartProcess(timeline: PositionChooser, created: seq<Entry>, exited: seq<Entry>, loaded: seq<Entry>,
                          unloaded: seq<Entry>, exceptions: seq<Entry>)
      requires Valid() && events.events == [] && events.delivered == []
      modifies this`isForward, this`resumeMode, cursor`at, events, timeline
      ensures Valid() && Started(Ctx(), State())
      ensures old(timeline.positions) != [] ==> timeline.State() == old(timeline.State())
      ensures old(timeline.positions) == [] ==>
                && Sorted(timeline.positions, Place)
                && multiset(timeline.positions) == multiset(created + exited + loaded + unloaded + exceptions)
                && timeline.State().AllStored()
    {
      isForward := true;
      resumeMode := Continue;
      timeline.Populate(true, created, exited, loaded, unloaded, exceptions);
      cursor.SetPosition(cursor.recording.moments[0].position);
      cursor.recording.OrderOfIndexes(0, cursor.at);
      AnnounceStart();
    }

    method AnnounceStart()
      requires Valid() && cursor.at == 0 && events.events == []
      modifies events
      ensures events.events == StartEvents(Ctx()) && events.delivered == old(events.delivered)
    {
      hide ThreadStarts, Loads, TargetLoads, Load;
      var list := cursor.recording.moduleList;
      var now := cursor.recording.moments[cursor.at];
      events.AddProcessStartEvent(now.thread, list[0].path, list[0].base,
                                  if IsTargetModule(list[0]) then Some(list[0].base) else None, list[0].size);
      if !IsTargetModule(list[0]) {
        PushTargetModules();
      }
      PushStarts(Tail(now.threads));
      assert forall m :: m in Tail(now.modules) ==> m in now.modules;
      PushLoads(Tail(now.modules));
      events.AddBreakPointEvent(now.thread, now.pc);
    }

    method PushTargetModules()
      requires Valid()
      modifies events
      ensures events.events == old(events.events) + TargetLoads(Ctx(), |cursor.recording.moduleList|)
      ensures events.delivered == old(events.delivered)
    {
      var list := cursor.recording.moduleList;
      var i := 1;
      while i < |list|
        invariant 1 <= i <= |list|
        invariant events.events == old(events.events) + TargetLoads(Ctx(), i)
        invariant events.delivered == old(events.delivered)
      {
        if IsTargetModule(list[i]) {
          PushLoad(i);
        }
        i := i + 1;
      }
    }

    method OnGetDebugEvent() returns (e: Option<Event>)
      requires Valid()
      modifies events
      ensures Valid() && Next(Ctx(), old(State()), GetDebugEvent, State())
      ensures e == if old(events.events) == [] then None else Some(old(events.events)[0])
    {
      var empty := events.IsEmpty();
      if empty { return None; }
      var event := events.PopEvent();
      return Some(event);
    }

    method OnResume(event: Event)
      requires Valid()
      modifies this`nextPosition, this`backwardsSingleStep, this`resumeMode, this`isForward
      modifies cursor`at, cursor`replays, cursor.callback`events, events
      ensures Valid() && Next(Ctx(), old(State()), Resume(event), State())
      ensures !(event.Breakpoint? || event.Step?) ==> State() == old(State())
      ensures cursor.replays == old(cursor.replays) +
                if !(event.Breakpoint? || event.Step?) || old(nextPosition) != Position(0, 0) then []
                else if old(backwardsSingleStep) then [Replay(false, cursor.recording.moments[0].position, 1)]
                else match old(resumeMode)
                  case Continue => [Replay(old(isForward), Limit(old(isForward)), -1)]
                  case Into => [Replay(old(isForward), Limit(old(isForward)), 1)]
                  case Unsupported(_) => []
      ensures cursor.replays == old(cursor.replays) ==> cursor.callback.events == old(cursor.callback.events)
      ensures cursor.replays != old(cursor.replays) && cursor.replays[|cursor.replays| - 1].forward ==>
                Traced(old(cursor.at), old(multiset(cursor.callback.events)))
    {
      hide Move, Span, Traced;
      if !event.IsStop() { return; }
      if nextPosition.major != 0 || nextPosition.minor != 0 {
        ApplyCursorPosition(nextPosition);
        AddBreakPointHere();
        nextPosition := NO_JUMP;
        return;
      }
      if backwardsSingleStep {
        var oldIsForward := isForward;
        isForward := false;
        ApplyCursorSteps(1);
        isForward := oldIsForward;
        AddBreakPointHere();
        backwardsSingleStep := false;
        return;
      }
      match resumeMode {
        case Continue =>
          ApplyCursorSteps(-1);
          AddBreakPointHere();
        case Into =>
          ApplyCursorSteps(1);
          events.AddStepEvent(cursor.recording.moments[cursor.at].thread);
        case Unsupported(_) =>
      }
      resumeMode := Continue;
    }

    method AddBreakPointHere()
      requires Valid()
      modifies events
      ensures events.events == old(events.events) + [BreakAt(cursor.recording, cursor.at)]
      ensures events.delivered == old(events.delivered)
    {
      var now := cursor.recording.moments[cursor.at];
      events.AddBreakPointEvent(now.thread, now.pc);
    }

    method OnSetResumeMode(mode: ResumeMode)
      requires Valid()
      modifies this`resumeMode
      ensures Valid() && Next(Ctx(), old(State()), SetResumeMode(mode), State())
    {
      resumeMode := mode;
    }

    method SetNextPosition(newPos: Position)
      requires Valid()
      modifies this`nextPosition
      ensures Valid() && Next(Ctx(), old(State()), Command.SetNextPosition(newPos), State())
    {
      nextPosition := newPos;
    }

    method RequestBackwardsSingleStep()
      requires Valid()
      modifies this`backwardsSingleStep
      ensures Valid() && Next(Ctx(), old(State()), RequestBackStep, State())
    {
      backwardsSingleStep := true;
    }

    method SwitchWay()
      requires Valid()
      modifies this`isForward
      ensures Valid() && Next(Ctx(), old(State()), Command.SwitchWay, State())
    {
      isForward := !isForward;
    }

    method OnExitProcess()
      modifies events
      ensures events.Log() == old(events.Log()) + [ProcessExited]
    {
      events.AddProcessExitEvent();
      assert events.Log() == old(events.Log()) + [ProcessExited];
    }

    /** "Go to position": the answer of the dialog, if any, becomes the pending
        position of an immediate resume; without a colon nothing happens. */
    method GotoPosition(answer: Option<string>, event: Event)
      requires Valid()
      modifies this`nextPosition, this`backwardsSingleStep, this`resumeMode, this`isForward
      modifies cursor`at, cursor`replays, cursor.callback`events, events
      ensures Valid()
      ensures answer.None? || Parse(answer.value).None? ==> State() == old(State())
      ensures answer.Some? && Parse(answer.value).Some? ==>
                Next(Ctx(), old(State()).(jump := Parse(answer.value).value), Resume(event), State())
    {
      if answer.None? { return; }
      var pos := answer.value;
      var colon := FindColon(pos);
      if colon == -1 { return; }
      var major, minor := pos[..colon], pos[colon + 1..];
      var lMaj, lMin := Strtol(major), Strtol(minor);
      SetNextPosition(Position(ToUnsigned64(lMaj), ToUnsigned64(lMin)));
      OnResume(event);
    }

    method OnUpdateBpts(bpts: seq<Bpt>, nadd: nat, ndel: nat, arch: nat) returns (nbpts: nat)
      requires |bpts| == nadd + ndel
      modifies cursor`watchpoints
      ensures cursor.watchpoints == old(cursor.watchpoints) + CallsMade(bpts, nadd, ndel, arch)
      ensures nbpts == |CallsMade(bpts, nadd, ndel, arch)| == if nadd < ndel then ndel else nadd
      ensures var calls := cursor.watchpoints[|old(cursor.watchpoints)|..];
              && |calls| == nbpts
              && (forall k :: 0 <= k < nbpts ==> calls[k].data == Watchpoint(bpts[k].ea, arch, FromIdaBptType(bpts[0].kind)))
              && (forall k :: 0 <= k < nbpts ==> (calls[k].Added? <==> k < nadd))
    {
      ghost var before := cursor.watchpoints;
      var i := 0;
      nbpts := 0;
      while i < nadd
        invariant 0 <= i <= nadd && nbpts == i
        invariant cursor.watchpoints == before + Adds(bpts, i, arch)
      {
        cursor.AddMemoryWatchpoint(DataFor(bpts, i, arch));
        assert Adds(bpts, i + 1, arch) == Adds(bpts, i, arch) + [Added(DataFor(bpts, i, arch))];
        i := i + 1;
        nbpts := nbpts + 1;
      }
      ghost var added := cursor.watchpoints;
      while i < ndel
        invariant nadd <= i && (i <= ndel || i == nadd) && nbpts == i
        invariant i <= ndel ==> cursor.watchpoints == added + Removes(bpts, nadd, i, arch)
        invariant ndel < i ==> cursor.watchpoints == added
      {
        cursor.RemoveMemoryWatchpoint(DataFor(bpts, i, arch));
        assert Removes(bpts, nadd, i + 1, arch) == Removes(bpts, nadd, i, arch) + [Removed(DataFor(bpts, i, arch))];
        i := i + 1;
        nbpts := nbpts + 1;
      }
      hide Adds, Removes;
      assert cursor.watchpoints[|before|..] == CallsMade(bpts, nadd, ndel, arch);
      hide CallsMade;
      BatchCalls(bpts, nadd, ndel, arch);
    }

    // -----------------------------------------------------------------------
    // The full run

    ghost predicate InChunks(n: nat, last: Position)
      reads cursor
    {
      forall k :: n <= k < |cursor.replays| ==> cursor.replays[k] == Replay(true, last, 100000)
    }

    // The inner loop: from the current position to `last` in chunks.  It tests
    // for having reached `last`, not for having passed it.
    method ReplayUntil(last: Position)
      requires Valid() && cursor.recording.Recorded(last) && cursor.GetPosition().AtMost(last)
      modifies cursor`at, cursor`replays, cursor.callback`events
      ensures Valid() && cursor.GetPosition() == last
      ensures old(cursor.at) <= cursor.at
      ensures old(cursor.replays) <= cursor.replays
      ensures InChunks(|old(cursor.replays)|, last)
      ensures multiset(cursor.callback.events) == old(multiset(cursor.callback.events))
                + multiset(Span(cursor.callback.database, cursor.callback.traces, cursor.recording.moments, old(cursor.at), cursor.at))
      ensures old(Sorted(cursor.callback.events, When)) ==> Sorted(cursor.callback.events, When)
    {
      ghost var from, recorded := cursor.at, multiset(cursor.callback.events);
      ghost var sorted := Sorted(cursor.callback.events, When);
      var cur := cursor.GetPosition();
      NothingSpanned(from);
      while cur.major != last.major || cur.minor != last.minor
        invariant Valid() && cur == cursor.GetPosition() && cur.AtMost(last)
        invariant cursor.RanFrom(from, recorded, sorted)
        invariant old(cursor.replays) <= cursor.replays && InChunks(|old(cursor.replays)|, last)
        decreases |cursor.recording.moments| - cursor.at
      {
        hide cursor.RanFrom;
        ReplayChunk(last, from, recorded, sorted);
        cur := cursor.GetPosition();
      }
    }

    lemma NothingSpanned(from: nat)
      requires from <= |cursor.recording.moments|
      ensures Span(cursor.callback.database, cursor.callback.traces, cursor.recording.moments, from, from) == []
    {
    }

    method ReplayChunk(last: Position, ghost from: nat, ghost recorded: multiset<Invocation>, ghost sorted: bool)
      requires Valid() && cursor.recording.Recorded(last) && cursor.GetPosition().Less(last)
      requires cursor.RanFrom(from, recorded, sorted)
      modifies cursor`at, cursor`replays, cursor.callback`events
      ensures Valid() && cursor.GetPosition().AtMost(last) && old(cursor.at) < cursor.at
      ensures cursor.RanFrom(from, recorded, sorted)
      ensures cursor.replays == old(cursor.replays) + [Replay(true, last, TTD_STEP)]
    {
      ghost var before, tracer := cursor.at, cursor.callback;
      cursor.ReplayForward(last, TTD_STEP);
      SpanTiles(tracer.database, tracer.traces, cursor.recording.moments, from, before, cursor.at);
      hide Span, Sorted;
    }

    // After the first n index pairs: the tracer had `recorded` before them.
    ghost predicate ReplayedUpTo(n: nat, recorded: multiset<Invocation>, sorted: bool)
      requires Replayable(cursor.recording) && n <= |cursor.recording.created|
      reads this, cursor, cursor.callback
    {
      var tracer := cursor.callback;
      && Valid()
      && multiset(tracer.events) ==
           recorded + multiset(Replayed(tracer.database, tracer.traces, cursor.recording, n))
      && (sorted ==> Sorted(tracer.events, When))
    }

    // One round of the outer loop.
    method ReplayPair(i: nat, ghost recorded: multiset<Invocation>, ghost sorted: bool)
      requires Replayable(cursor.recording) && i < |cursor.recording.created|
      requires ReplayedUpTo(i, recorded, sorted)
      modifies cursor`at, cursor`replays, cursor.callback`events
      ensures ReplayedUpTo(i + 1, recorded, sorted)
    {
      ghost var r := cursor.recording;
      var first, last := cursor.recording.created[i].position, cursor.recording.terminated[i].position;
      cursor.SetPosition(first);
      r.OrderOfIndexes(cursor.at, r.IndexOf(first));
      ReplayUntil(last);
      r.OrderOfIndexes(cursor.at, r.IndexOf(last));
      ReplayedAppends(cursor.callback.database, cursor.callback.traces, r, i, recorded);
    }

    method ReplayPairs()
      requires Valid() && Replayable(cursor.recording)
      modifies cursor`at, cursor`replays, cursor.callback`events
      ensures ReplayedUpTo(|cursor.recording.created|, old(multiset(cursor.callback.events)), old(Sorted(cursor.callback.events, When)))
    {
      ghost var recorded, sorted := multiset(cursor.callback.events), Sorted(cursor.callback.events, When);
      var i := 0;
      while i < |cursor.recording.created|
        invariant 0 <= i <= |cursor.recording.created|
        invariant ReplayedUpTo(i, recorded, sorted)
      {
        ReplayPair(i, recorded, sorted);
        i := i + 1;
      }
    }

    /** The cursor is put back, so the session takes no step a consumer could
        see, and the tracer gains each traced call or return once per thread
        alive at its position. */
    method RequestFullRun(ghost lives: seq<Life>)
      requires Valid() && LifeStory(cursor.recording, lives)
      modifies cursor`at, cursor`replays, cursor.callback`events
      ensures Valid() && Next(Ctx(), old(State()), FullRun, State())
      ensures forall e :: multiset(cursor.callback.events)[e] ==
                old(multiset(cursor.callback.events))[e]
                + Alive(lives, e.position) * Times(cursor.callback.database, cursor.callback.traces, cursor.recording, e)
      ensures old(cursor.callback.events) == [] ==>
                forall e :: e in cursor.callback.events <==>
                  SomeThreadAlive(lives, e.position)
                  && Happens(cursor.callback.database, cursor.callback.traces, cursor.recording, e)
      ensures old(Sorted(cursor.callback.events, When)) ==> Sorted(cursor.callback.events, When)
    {
      ghost var r, tracer := cursor.recording, cursor.callback;
      ghost var db, traces, recorded := tracer.database, tracer.traces, multiset(tracer.events);
      var oldPosition := cursor.GetPosition();
      ghost var oldAt := cursor.at;
      PairsAreOrdered(r, lives);
      ReplayPairs();
      assert r.Recorded(oldPosition);
      cursor.SetPosition(oldPosition);
      r.OrderOfIndexes(oldAt, cursor.at);
      forall e ensures multiset(tracer.events)[e] == recorded[e] + Alive(lives, e.position) * Times(db, traces, r, e) {
        RecordedPerLivingThread(db, traces, r, lives, e);
      }
      if old(tracer.events) == [] {
        forall e ensures e in tracer.events <==> SomeThreadAlive(lives, e.position) && Happens(db, traces, r, e) {
          CompleteAndSound(db, traces, r, lives, e);
          assert e in tracer.events <==> e in multiset(tracer.events);
        }
      }
    }
  }
}
