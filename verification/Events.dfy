/** The debug events sent to IDA, the queue they wait in, and the picture a
    consumer builds from them. */
module Events {
  import opened Positions
  import opened Recordings

  // `rebase` is None where the source sends BADADDR.
  datatype Event =
    | ProcessStarted(thread: ThreadId, name: string, base: Address, rebase: Option<Address>, size: nat)
    | ThreadStarted(thread: ThreadId)
    | ThreadExited(thread: ThreadId)
    | LibLoaded(name: string, base: Address, rebase: Option<Address>, size: nat)
    | LibUnloaded(name: string)
    | Breakpoint(thread: ThreadId, ea: Address)
    | Step(thread: ThreadId)
    | ProcessExited
  {
    predicate IsStop() { Breakpoint? || Step? }
  }

  // What a consumer of the events knows: modules are known by name only.
  datatype View = View(threads: set<ThreadId>, modules: map<string, Address>)

  const NOTHING := View({}, map[])

  function Observe(v: View, e: Event): View {
    match e
    case ProcessStarted(t, name, base, _, _) => View({t}, map[name := base])
    case ThreadStarted(t) => v.(threads := v.threads + {t})
    case ThreadExited(t) => v.(threads := v.threads - {t})
    case LibLoaded(name, base, _, _) => v.(modules := v.modules[name := base])
    case LibUnloaded(name) => v.(modules := v.modules - {name})
    case _ => v
  }

  function ObserveAll(v: View, es: seq<Event>): View {
    if es == [] then v
    else Observe(ObserveAll(v, es[..|es| - 1]), es[|es| - 1])
  }

  lemma {:induction false} ObserveConcat(v: View, es: seq<Event>, fs: seq<Event>)
    ensures ObserveAll(v, es + fs) == ObserveAll(ObserveAll(v, es), fs)
  {
    if fs == [] {
      assert es + fs == es;
    } else {
      var all := es + fs;
      assert all[..|all| - 1] == es + fs[..|fs| - 1];
      ObserveConcat(v, es, fs[..|fs| - 1]);
    }
  }

  /** The event queue.  `delivered` remembers what was popped, so that the log
      of everything ever pushed can be stated. */
  class EventDeque {
    var events: seq<Event>
    ghost var delivered: seq<Event>

    ghost function Log(): seq<Event>
      reads this
    {
      delivered + events
    }

    constructor ()
      ensures events == [] && delivered == []
    {
      events, delivered := [], [];
    }

    method PushEvent(e: Event)
      modifies this
      ensures events == old(events) + [e] && delivered == old(delivered)
    {
      events := events + [e];
    }

    // The source leaves it to the caller to have seen a non-empty queue.
    method PopEvent() returns (e: Event)
      requires events != []
      modifies this
      ensures old(events) == [e] + events
      ensures delivered == old(delivered) + [e]
      ensures Log() == old(Log())
    {
      e := events[0];
      events, delivered := events[1..], delivered + [e];
    }

    method IsEmpty() returns (empty: bool)
      ensures empty <==> events == []
    {
      empty := events == [];
    }

    method AddProcessStartEvent(thread: ThreadId, name: string, base: Address, rebase: Option<Address>, size: nat)
      modifies this
      ensures events == old(events) + [ProcessStarted(thread, name, base, rebase, size)]
      ensures delivered == old(delivered)
    {
      PushEvent(ProcessStarted(thread, name, base, rebase, size));
    }

    method AddThreadStartEvent(thread: ThreadId)
      modifies this
      ensures events == old(events) + [ThreadStarted(thread)] && delivered == old(delivered)
    {
      PushEvent(ThreadStarted(thread));
    }

    method AddThreadExitEvent(thread: ThreadId)
      modifies this
      ensures events == old(events) + [ThreadExited(thread)] && delivered == old(delivered)
    {
      PushEvent(ThreadExited(thread));
    }

    method AddBreakPointEvent(thread: ThreadId, ea: Address)
      modifies this
      ensures events == old(events) + [Breakpoint(thread, ea)] && delivered == old(delivered)
    {
      PushEvent(Breakpoint(thread, ea));
    }

    method AddLibLoadEvent(name: string, base: Address, rebase: Option<Address>, size: nat)
      modifies this
      ensures events == old(events) + [LibLoaded(name, base, rebase, size)] && delivered == old(delivered)
    {
      PushEvent(LibLoaded(name, base, rebase, size));
    }

    // The base is accepted and dropped: an unload names its module only.
    method AddLibUnloadEvent(name: string, base: Address)
      modifies this
      ensures events == old(events) + [LibUnloaded(name)] && delivered == old(delivered)
    {
      PushEvent(LibUnloaded(name));
    }

    method AddProcessExitEvent()
      modifies this
      ensures events == old(events) + [ProcessExited] && delivered == old(delivered)
    {
      PushEvent(ProcessExited);
    }

    method AddStepEvent(thread: ThreadId)
      modifies this
      ensures events == old(events) + [Step(thread)] && delivered == old(delivered)
    {
      PushEvent(Step(thread));
    }
  }
}
