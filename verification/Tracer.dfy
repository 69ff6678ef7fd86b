/** The function tracer: which functions are traced, and the list of their
    recorded calls and returns, kept in position order. */
module Tracer {
  import opened Positions
  import opened Recordings
  import opened Sorting

  datatype Invocation = Invocation(func: Address, position: Position, isReturn: bool, args: seq<string>)

  function When(e: Invocation): Position { e.position }

  // What the tracer asks of IDA and of a temporary cursor: the start of the
  // function containing an address, and the rendered arguments or return value
  // (None where the source gives up because of an invalid bitness).
  datatype Database = Database(
    getFunc: Address -> Option<Address>,
    callArguments: (Address, Position) -> Option<seq<string>>,
    returnValue: (Address, Position) -> Option<string>)

  // What one callback leads to: nothing, or one recorded invocation.
  function Invoked(db: Database, traces: seq<Address>, p: Position, c: CallReturn): seq<Invocation> {
    if c.returnTo != 0 then
      if c.target !in traces then []
      else match db.callArguments(c.target, p)
           case None => []
           case Some(args) => [Invocation(c.target, p, false, args)]
    else
      match db.getFunc(c.pc)
      case None => []
      case Some(f) =>
        if f !in traces then []
        else match db.returnValue(f, p)
             case None => []
             case Some(value) => [Invocation(f, p, true, [value])]
  }

  function InvokedBy(db: Database, traces: seq<Address>, p: Position, calls: seq<CallReturn>): seq<Invocation> {
    if calls == [] then []
    else InvokedBy(db, traces, p, calls[..|calls| - 1]) + Invoked(db, traces, p, calls[|calls| - 1])
  }

  lemma InvokedByExtends(db: Database, traces: seq<Address>, p: Position, calls: seq<CallReturn>, n: nat)
    requires n < |calls|
    ensures multiset(InvokedBy(db, traces, p, calls[..n + 1])) ==
              multiset(InvokedBy(db, traces, p, calls[..n])) + multiset(Invoked(db, traces, p, calls[n]))
  {
    hide Invoked;
    assert calls[..n + 1][..n] == calls[..n];
  }

  // What replaying from moment a to moment b records.
  function Span(db: Database, traces: seq<Address>, moments: seq<Moment>, a: nat, b: nat): seq<Invocation>
    requires b <= |moments|
  {
    if b <= a then []
    else Span(db, traces, moments, a, b - 1)
         + InvokedBy(db, traces, moments[b - 1].position, moments[b - 1].calls)
  }

  lemma SpanExtends(db: Database, traces: seq<Address>, moments: seq<Moment>, a: nat, b: nat,
                    recorded: multiset<Invocation>)
    requires a <= b < |moments|
    ensures recorded + multiset(Span(db, traces, moments, a, b + 1)) ==
              recorded + multiset(Span(db, traces, moments, a, b))
              + multiset(InvokedBy(db, traces, moments[b].position, moments[b].calls))
  {
  }

  lemma ConcatAssociates<T>(r: seq<T>, s: seq<T>, t: seq<T>)
    ensures (r + s) + t == r + (s + t)
  {
  }

  lemma {:induction false} SpanTiles(db: Database, traces: seq<Address>, moments: seq<Moment>, a: nat, m: nat, b: nat)
    requires a <= m <= b <= |moments|
    ensures Span(db, traces, moments, a, b) == Span(db, traces, moments, a, m) + Span(db, traces, moments, m, b)
    decreases b
  {
    if m < b {
      SpanTiles(db, traces, moments, a, m, b - 1);
      var last := InvokedBy(db, traces, moments[b - 1].position, moments[b - 1].calls);
      assert Span(db, traces, moments, a, b) == Span(db, traces, moments, a, b - 1) + last;
      assert Span(db, traces, moments, m, b) == Span(db, traces, moments, m, b - 1) + last;
      hide Span, InvokedBy;
      ConcatAssociates(Span(db, traces, moments, a, m), Span(db, traces, moments, m, b - 1), last);
    }
  }

  /** A function that is not traced is never recorded, wherever it is called. */
  lemma {:induction false} UntracedIsNotRecorded(db: Database, traces: seq<Address>, p: Position, calls: seq<CallReturn>, e: Invocation)
    requires e.func !in traces
    ensures e !in InvokedBy(db, traces, p, calls)
  {
    if calls != [] {
      UntracedIsNotRecorded(db, traces, p, calls[..|calls| - 1], e);
    }
  }

  // What the tracer is for: e tells of this call or return.  A call is told of
  // its target and with the arguments there; a return of the function that it
  // leaves, which is the one around the program counter, and with the value that
  // function returns.  Only traced functions are told of.
  predicate Tells(db: Database, traces: seq<Address>, c: CallReturn, e: Invocation) {
    && e.func in traces
    && e.isReturn == (c.returnTo == 0)
    && if e.isReturn
       then db.getFunc(c.pc) == Some(e.func) && |e.args| == 1 && db.returnValue(e.func, e.position) == Some(e.args[0])
       else c.target == e.func && db.callArguments(e.func, e.position) == Some(e.args)
  }

  lemma InvokedTells(db: Database, traces: seq<Address>, p: Position, c: CallReturn, e: Invocation)
    ensures multiset(Invoked(db, traces, p, c))[e] == if e.position == p && Tells(db, traces, c, e) then 1 else 0
  {
    if |e.args| == 1 { assert e.args == [e.args[0]]; }
    if Tells(db, traces, c, e) && e.position == p { assert Invoked(db, traces, p, c) == [e]; }
  }

  // How many of these calls and returns e tells of.
  function Told(db: Database, traces: seq<Address>, calls: seq<CallReturn>, e: Invocation): nat {
    if calls == [] then 0
    else Told(db, traces, calls[..|calls| - 1], e) + if Tells(db, traces, calls[|calls| - 1], e) then 1 else 0
  }

  lemma {:induction false} ToldPositive(db: Database, traces: seq<Address>, calls: seq<CallReturn>, e: Invocation)
    ensures Told(db, traces, calls, e) > 0 <==> exists c :: c in calls && Tells(db, traces, c, e)
  {
    if calls != [] {
      ToldPositive(db, traces, calls[..|calls| - 1], e);
      assert forall c :: c in calls <==> c in calls[..|calls| - 1] || c == calls[|calls| - 1];
    }
  }

  /** The callbacks of one position record an invocation there as often as it
      tells of one of its calls and returns. */
  lemma {:induction false} InvokedByCount(db: Database, traces: seq<Address>, p: Position, calls: seq<CallReturn>, e: Invocation)
    ensures multiset(InvokedBy(db, traces, p, calls))[e] == if e.position == p then Told(db, traces, calls, e) else 0
  {
    if calls != [] {
      InvokedByCount(db, traces, p, calls[..|calls| - 1], e);
      InvokedTells(db, traces, p, calls[|calls| - 1], e);
      hide Invoked, Tells;
    }
  }

  // How often an invocation happened at its own position.
  ghost function Times(db: Database, traces: seq<Address>, r: Recording, e: Invocation): nat {
    if r.Recorded(e.position) then Told(db, traces, r.moments[r.IndexOf(e.position)].calls, e) else 0
  }

  lemma {:induction false} SpanCount(db: Database, traces: seq<Address>, r: Recording, a: nat, b: nat, e: Invocation)
    requires r.Valid() && b <= |r.moments|
    ensures multiset(Span(db, traces, r.moments, a, b))[e] ==
              if r.Recorded(e.position) && a <= r.IndexOf(e.position) < b then Times(db, traces, r, e) else 0
    decreases b
  {
    hide InvokedBy;
    if a < b {
      SpanCount(db, traces, r, a, b - 1, e);
      var m := r.moments[b - 1];
      InvokedByCount(db, traces, m.position, m.calls, e);
      if r.Recorded(e.position) {
        r.OrderOfIndexes(b - 1, r.IndexOf(e.position));
      }
    }
  }

  class FunctionTracer {
    const database: Database
    var traces: seq<Address>
    var events: seq<Invocation>

    // Traced addresses are function starts, each traced once.
    ghost predicate Valid()
      reads this
    {
      Distinct(traces) && forall ea :: ea in traces ==> database.getFunc(ea) == Some(ea)
    }

    constructor (database: Database)
      ensures Valid() && this.database == database && traces == [] && events == []
    {
      this.database := database;
      traces, events := [], [];
    }

    method IsEATraced(start: Address) returns (traced: bool)
      ensures traced <==> start in traces
    {
      var i := 0;
      while i < |traces|
        invariant 0 <= i <= |traces|
        invariant start !in traces[..i]
      {
        if traces[i] == start { return true; }
        i := i + 1;
      }
      return false;
    }

    method TraceFunction(start: Address)
      requires Valid() && database.getFunc(start) == Some(start)
      modifies this`traces
      ensures Valid()
      ensures traces == if start in old(traces) then old(traces) else old(traces) + [start]
    {
      var traced := IsEATraced(start);
      if traced { return; }
      traces := traces + [start];
    }

    // Since each function is traced once, removing its entry ends its tracing.
    method RemoveTrace(n: nat)
      requires Valid() && n < |traces|
      modifies this`traces
      ensures Valid()
      ensures traces == old(traces[..n] + traces[n + 1..])
      ensures forall ea :: ea in traces <==> ea in old(traces) && ea != old(traces[n])
    {
      assert traces == traces[..n] + [traces[n]] + traces[n + 1..];
      traces := traces[..n] + traces[n + 1..];
    }

    method RemoveEvent(n: nat)
      requires n < |events|
      modifies this`events
      ensures events == old(events[..n] + events[n + 1..])
      ensures multiset(events) == old(multiset(events)) - multiset{old(events[n])}
      ensures old(Sorted(events, When)) ==> Sorted(events, When)
    {
      if Sorted(events, When) { RemoveKeepsSorted(events, n, When); }
      events := Remove(events, n);
    }

    method SortEvents()
      modifies this`events
      ensures Sorted(events, When)
      ensures multiset(events) == old(multiset(events))
    {
      events := Sort(events, When);
    }

    method RecordCall(func: Address, position: Position)
      modifies this`events
      ensures database.callArguments(func, position).None? ==> events == old(events)
      ensures database.callArguments(func, position).Some? ==>
                && Sorted(events, When)
                && multiset(events) == old(multiset(events))
                     + multiset{Invocation(func, position, false, database.callArguments(func, position).value)}
    {
      var args := database.callArguments(func, position);
      if args.None? { return; }
      events := events + [Invocation(func, position, false, args.value)];
      SortEvents();
    }

    method RecordRet(func: Address, position: Position)
      modifies this`events
      ensures database.returnValue(func, position).None? ==> events == old(events)
      ensures database.returnValue(func, position).Some? ==>
                && Sorted(events, When)
                && multiset(events) == old(multiset(events))
                     + multiset{Invocation(func, position, true, [database.returnValue(func, position).value])}
    {
      var value := database.returnValue(func, position);
      if value.None? { return; }
      events := events + [Invocation(func, position, true, [value.value])];
      SortEvents();
    }

    method CallCallback(position: Position, c: CallReturn)
      requires Valid()
      modifies this`events
      ensures multiset(events) == old(multiset(events)) + multiset(Invoked(database, traces, position, c))
      ensures forall func, value ::
                c.returnTo == 0 && database.getFunc(c.pc) == Some(func) && func in traces
                && database.returnValue(func, position) == Some(value) ==>
                  multiset(events) == old(multiset(events)) + multiset{Invocation(func, position, true, [value])}
      ensures forall args ::
                c.returnTo != 0 && c.target in traces && database.callArguments(c.target, position) == Some(args) ==>
                  multiset(events) == old(multiset(events)) + multiset{Invocation(c.target, position, false, args)}
      ensures c.returnTo == 0 && database.getFunc(c.pc).None? ==> events == old(events)
      ensures c.returnTo == 0 && database.getFunc(c.pc).Some? && database.getFunc(c.pc).value !in traces ==>
                events == old(events)
      ensures forall func :: c.returnTo == 0 && database.getFunc(c.pc) == Some(func)
                             && database.returnValue(func, position).None? ==>
                               events == old(events)
      ensures c.returnTo != 0 && (c.target !in traces || database.callArguments(c.target, position).None?) ==>
                events == old(events)
      ensures old(Sorted(events, When)) ==> Sorted(events, When)
    {
      if c.returnTo != 0 {
        var traced := IsEATraced(c.target);
        if traced {
          var func := database.getFunc(c.target);
          RecordCall(func.value, position);
        }
      } else {
        var func := database.getFunc(c.pc);
        if func.None? { return; }
        var traced := IsEATraced(func.value);
        if !traced { return; }
        RecordRet(func.value, position);
      }
    }

    // The callbacks of one moment, in order.
    method CallCallbacks(position: Position, calls: seq<CallReturn>)
      requires Valid()
      modifies this`events
      ensures multiset(events) == old(multiset(events)) + multiset(InvokedBy(database, traces, position, calls))
      ensures old(Sorted(events, When)) ==> Sorted(events, When)
    {
      ghost var recorded, sorted := multiset(events), Sorted(events, When);
      assert InvokedBy(database, traces, position, calls[..0]) == [];
      hide Invoked, InvokedBy;
      var i := 0;
      while i < |calls|
        invariant 0 <= i <= |calls|
        invariant multiset(events) == recorded + multiset(InvokedBy(database, traces, position, calls[..i]))
        invariant sorted ==> Sorted(events, When)
      {
        InvokedByExtends(database, traces, position, calls, i);
        CallCallback(position, calls[i]);
        i := i + 1;
      }
      assert calls[..i] == calls;
    }
  }
}
