/** What the TTD engine knows about one recording.  The engine is replaced by
    this value: an ordered list of moments, each with the lists a cursor
    standing there returns. */
module Recordings {
  import opened Positions

  type ThreadId = nat
  type Address = nat

  // The source compares modules by pointer into the engine's module list.
  // A ModuleId is the index that pointer stands for.
  type ModuleId = nat

  datatype ModuleInfo = ModuleInfo(path: string, base: Address, size: nat)

  // The arguments the engine passes to the call/return callback, together with
  // the program counter the callback reads: returnTo == 0 marks a `ret`.
  datatype CallReturn = CallReturn(target: Address, returnTo: Address, pc: Address)

  datatype Moment = Moment(
    position: Position,
    threads: seq<ThreadId>,
    modules: seq<ModuleId>,
    thread: ThreadId,           // the current thread
    pc: Address,                // its program counter
    calls: seq<CallReturn>)     // calls and returns executed at this position

  datatype ThreadEvent = ThreadEvent(thread: ThreadId, position: Position)

  ghost predicate Distinct<T>(s: seq<T>) {
    forall i, j :: 0 <= i < j < |s| ==> s[i] != s[j]
  }

  datatype Recording = Recording(
    moments: seq<Moment>,
    moduleList: seq<ModuleInfo>,
    created: seq<ThreadEvent>,
    terminated: seq<ThreadEvent>)
  {
    ghost predicate Valid() {
      && moments != []
      && moduleList != []
      && (forall i, j :: 0 <= i < j < |moments| ==> moments[i].position.Less(moments[j].position))
      && (forall i :: 0 <= i < |moments| ==>
            && Distinct(moments[i].threads)
            && Distinct(moments[i].modules)
            && forall m :: m in moments[i].modules ==> m < |moduleList|)
    }

    ghost predicate Recorded(p: Position) {
      exists i :: 0 <= i < |moments| && moments[i].position == p
    }

    ghost function IndexOf(p: Position): (i: nat)
      requires Recorded(p)
      ensures i < |moments| && moments[i].position == p
    {
      var i :| 0 <= i < |moments| && moments[i].position == p;
      i
    }

    ghost function ThreadSet(i: nat): set<ThreadId>
      requires i < |moments|
    {
      set t | t in moments[i].threads
    }

    ghost function ModuleSet(i: nat): set<ModuleId>
      requires i < |moments|
    {
      set m | m in moments[i].modules
    }

    lemma OrderOfIndexes(i: nat, j: nat)
      requires Valid() && i < |moments| && j < |moments|
      ensures i <= j <==> moments[i].position.AtMost(moments[j].position)
      ensures i == j <==> moments[i].position == moments[j].position
    {
    }
  }
}
