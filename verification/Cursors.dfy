/** The engine's cursor.  Its replay is specified as loosely as the source can
    rely on: it stops anywhere on its way to the limit, so a chunk of any number
    of steps and any set of watchpoints is covered. */
module Cursors {
  import opened Positions
  import opened Recordings
  import opened Sorting
  import opened Tracer

  datatype Access = Read | Write | Execute

  datatype Watchpoint = Watchpoint(address: Address, size: nat, flags: set<Access>)

  datatype WatchpointCall = Added(data: Watchpoint) | Removed(data: Watchpoint)

  // What a replay was asked for; fewer than 0 steps stand for no bound.
  datatype Replay = Replay(forward: bool, limit: Position, steps: int)

  class Cursor {
    const recording: Recording
    const callback: FunctionTracer   // installed with SetCallReturnCallback
    var at: nat
    var watchpoints: seq<WatchpointCall>   // the watchpoint calls made so far
    var replays: seq<Replay>               // the replays asked for so far

    ghost predicate Valid()
      reads this, callback
    {
      recording.Valid() && callback.Valid() && at < |recording.moments|
    }

    constructor (recording: Recording, callback: FunctionTracer)
      requires recording.Valid() && callback.Valid()
      ensures Valid() && this.recording == recording && this.callback == callback && at == 0 && watchpoints == [] && replays == []
    {
      this.recording, this.callback, at, watchpoints, replays := recording, callback, 0, [], [];
    }

    method AddMemoryWatchpoint(data: Watchpoint)
      modifies this`watchpoints
      ensures watchpoints == old(watchpoints) + [Added(data)]
    {
      watchpoints := watchpoints + [Added(data)];
    }

    method RemoveMemoryWatchpoint(data: Watchpoint)
      modifies this`watchpoints
      ensures watchpoints == old(watchpoints) + [Removed(data)]
    {
      watchpoints := watchpoints + [Removed(data)];
    }

    function GetPosition(): Position
      requires at < |recording.moments|
      reads this
    {
      recording.moments[at].position
    }

    // Exact on recorded positions; where the engine puts the cursor for other
    // positions is left open.
    method SetPosition(p: Position)
      requires Valid()
      modifies this`at
      ensures Valid()
      ensures recording.Recorded(p) ==> GetPosition() == p
    {
      if k: nat :| k < |recording.moments| && recording.moments[k].position == p {
        at := k;
      } else {
        var k: nat :| k < |recording.moments|;
        at := k;
      }
    }

    // Starting past the limit promises nothing about the limit.
    method ReplayForward(limit: Position, steps: int)
      requires Valid()
      modifies this`at, this`replays, callback`events
      ensures Valid()
      ensures replays == old(replays) + [Replay(true, limit, steps)]
      ensures old(at) <= at
      ensures old(GetPosition()).AtMost(limit) ==> GetPosition().AtMost(limit)
      ensures old(GetPosition()).Less(limit) && recording.Recorded(limit) ==> old(at) < at
      ensures multiset(callback.events) == old(multiset(callback.events))
                + multiset(Span(callback.database, callback.traces, recording.moments, old(at), at))
      ensures old(Sorted(callback.events, When)) ==> Sorted(callback.events, When)
    {
      replays := replays + [Replay(true, limit, steps)];
      var stop := at;
      if !GetPosition().AtMost(limit) {
        stop :| at <= stop < |recording.moments|;
      } else if k: nat :| at < k < |recording.moments| && recording.moments[k].position.AtMost(limit) {
        stop := k;
      }
      assert old(GetPosition()).Less(limit) && recording.Recorded(limit) ==> at < stop by {
        if old(GetPosition()).Less(limit) && recording.Recorded(limit) {
          recording.OrderOfIndexes(recording.IndexOf(limit), at);
        }
      }
      RunTo(stop);
    }

    // Since moment `from`, where the tracer had recorded `recorded`.
    ghost predicate RanFrom(from: nat, recorded: multiset<Invocation>, sorted: bool)
      reads this, callback
    {
      && Valid() && from <= at
      && multiset(callback.events) ==
           recorded + multiset(Span(callback.database, callback.traces, recording.moments, from, at))
      && (sorted ==> Sorted(callback.events, When))
    }

    // Executes one position, calling back for each of its calls and returns.
    method Execute(ghost from: nat, ghost recorded: multiset<Invocation>, ghost sorted: bool)
      requires RanFrom(from, recorded, sorted) && at + 1 < |recording.moments|
      modifies this`at, callback`events
      ensures RanFrom(from, recorded, sorted) && at == old(at) + 1
    {
      hide Span, InvokedBy;
      SpanExtends(callback.database, callback.traces, recording.moments, from, at, recorded);
      callback.CallCallbacks(recording.moments[at].position, recording.moments[at].calls);
      at := at + 1;
    }

    method RunTo(stop: nat)
      requires Valid() && at <= stop < |recording.moments|
      modifies this`at, callback`events
      ensures at == stop && RanFrom(old(at), old(multiset(callback.events)), old(Sorted(callback.events, When)))
    {
      ghost var from, recorded, sorted := at, multiset(callback.events), Sorted(callback.events, When);
      while at < stop
        invariant from <= at <= stop && RanFrom(from, recorded, sorted)
      {
        Execute(from, recorded, sorted);
      }
    }

    // What a backward replay calls back for, if anything, is left open.
    method ReplayBackward(limit: Position, steps: int)
      requires Valid()
      modifies this`at, this`replays, callback`events
      ensures Valid()
      ensures replays == old(replays) + [Replay(false, limit, steps)]
      ensures at <= old(at)
      ensures limit.AtMost(old(GetPosition())) ==> limit.AtMost(GetPosition())
      ensures limit.Less(old(GetPosition())) && recording.Recorded(limit) ==> at < old(at)
    {
      replays := replays + [Replay(false, limit, steps)];
      var stop := at;
      if !limit.AtMost(GetPosition()) {
        stop :| 0 <= stop <= at;
      } else if k: nat :| k < at && limit.AtMost(recording.moments[k].position) {
        stop := k;
      }
      assert limit.Less(old(GetPosition())) && recording.Recorded(limit) ==> stop < at by {
        if limit.Less(old(GetPosition())) && recording.Recorded(limit) {
          recording.OrderOfIndexes(at, recording.IndexOf(limit));
        }
      }
      at := stop;
    }
  }
}
