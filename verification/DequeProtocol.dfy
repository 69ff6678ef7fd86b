/** The event queue under concurrency.  Each critical section is one action; a
    consumer tests `isEmpty` in one section and pops in a later one. */
module DequeProtocol {
  import opened Events

  datatype Action =
    | Push(event: Event)            // by any producer
    | Check(consumer: nat)          // isEmpty
    | Pop(consumer: nat)            // popEvent, only after a check found something

  datatype Queue = Queue(
    events: seq<Event>,
    delivered: seq<Event>,
    ready: set<nat>,                // consumers whose check found something
    broken: bool)                   // someone popped an empty deque

  function Apply(q: Queue, a: Action): Queue {
    if q.broken then q
    else match a
      case Push(e) => q.(events := q.events + [e])
      case Check(c) => if q.events == [] then q.(ready := q.ready - {c}) else q.(ready := q.ready + {c})
      case Pop(c) =>
        if c !in q.ready then q
        else if q.events == [] then q.(broken := true)
        else q.(events := q.events[1..], delivered := q.delivered + [q.events[0]], ready := q.ready - {c})
  }

  function Exec(actions: seq<Action>): Queue {
    if actions == [] then Queue([], [], {}, false)
    else Apply(Exec(actions[..|actions| - 1]), actions[|actions| - 1])
  }

  function Pushed(actions: seq<Action>): seq<Event> {
    if actions == [] then []
    else Pushed(actions[..|actions| - 1])
         + match actions[|actions| - 1] case Push(e) => [e] case _ => []
  }

  // Pops by a consumer whose check had found something, while it still was there.
  function Pops(actions: seq<Action>): nat {
    if actions == [] then 0
    else
      var q := Exec(actions[..|actions| - 1]);
      Pops(actions[..|actions| - 1])
      + match actions[|actions| - 1]
        case Pop(c) => if !q.broken && c in q.ready && q.events != [] then 1 else 0
        case _ => 0
  }

  /** Each such pop delivers one event, and nothing else does. */
  lemma {:induction false} OneEventPerPop(actions: seq<Action>)
    ensures |Exec(actions).delivered| == Pops(actions)
  {
    if actions != [] {
      OneEventPerPop(actions[..|actions| - 1]);
    }
  }

  // The consumer's last action was a check, and it found something.
  predicate FoundLast(actions: seq<Action>, c: nat) {
    actions != [] &&
    var init, last := actions[..|actions| - 1], actions[|actions| - 1];
    if last == Check(c) then Exec(init).events != []
    else if last == Pop(c) then false
    else FoundLast(init, c)
  }

  /** A consumer goes on to pop exactly if its own last check found something,
      whatever the others have taken since. */
  lemma {:induction false} ReadyIffFoundLast(actions: seq<Action>, c: nat)
    requires !Exec(actions).broken
    ensures c in Exec(actions).ready <==> FoundLast(actions, c)
  {
    if actions != [] {
      ReadyIffFoundLast(actions[..|actions| - 1], c);
    }
  }

  predicate By(consumers: set<nat>, a: Action) {
    match a
    case Push(_) => true
    case Check(c) => c in consumers
    case Pop(c) => c in consumers
  }

  predicate Uses(consumers: set<nat>, actions: seq<Action>) {
    forall a :: a in actions ==> By(consumers, a)
  }

  /** Whoever interleaves, as long as no empty deque was popped the events come
      out in the order they went in, each once. */
  lemma {:induction false} FirstInFirstOut(actions: seq<Action>)
    ensures !Exec(actions).broken ==> Exec(actions).delivered + Exec(actions).events == Pushed(actions)
  {
    if actions != [] {
      FirstInFirstOut(actions[..|actions| - 1]);
      var q := Exec(actions[..|actions| - 1]);
      var a := actions[|actions| - 1];
      if a.Pop? && q.events != [] {
        assert q.events == [q.events[0]] + q.events[1..];
      }
    }
  }

  lemma {:induction false} OneConsumerIsSafe(c: nat, actions: seq<Action>)
    requires Uses({c}, actions)
    ensures !Exec(actions).broken
    ensures Exec(actions).ready <= {c} && (c in Exec(actions).ready ==> Exec(actions).events != [])
  {
    if actions != [] {
      assert actions[|actions| - 1] in actions;
      assert forall a :: a in actions[..|actions| - 1] ==> a in actions;
      OneConsumerIsSafe(c, actions[..|actions| - 1]);
    }
  }

  lemma Unfold(actions: seq<Action>, a: Action)
    ensures Exec(actions + [a]) == Apply(Exec(actions), a)
  {
    assert (actions + [a])[..|actions|] == actions;
  }

  lemma TwoConsumersBreak(a: nat, b: nat, e: Event) returns (actions: seq<Action>)
    requires a != b
    ensures Uses({a, b}, actions) && Exec(actions).broken
  {
    Unfold([], Push(e));
    Unfold([] + [Push(e)], Check(a));
    Unfold([] + [Push(e)] + [Check(a)], Check(b));
    Unfold([] + [Push(e)] + [Check(a)] + [Check(b)], Pop(a));
    Unfold([] + [Push(e)] + [Check(a)] + [Check(b)] + [Pop(a)], Pop(b));
    actions := [] + [Push(e)] + [Check(a)] + [Check(b)] + [Pop(a)] + [Pop(b)];
  }

  /** Check-then-pop under two separate locks is safe in every interleaving with
      any number of producers exactly when there is at most one consumer. */
  lemma SafeIffAtMostOneConsumer(consumers: set<nat>)
    ensures (forall actions :: Uses(consumers, actions) ==> !Exec(actions).broken) <==> |consumers| <= 1
  {
    if |consumers| <= 1 {
      forall actions | Uses(consumers, actions) ensures !Exec(actions).broken {
        var c := if c: nat :| c in consumers then c else 0;
        assert consumers <= {c} by {
          if consumers != {} { Singleton(consumers, c); }
        }
        OneConsumerIsSafe(c, actions);
      }
    } else {
      var a :| a in consumers;
      assert |consumers - {a}| == |consumers| - 1;
      var b :| b in consumers - {a};
      var actions := TwoConsumersBreak(a, b, ProcessExited);
      assert Uses(consumers, actions);
    }
  }

  lemma Singleton(s: set<nat>, c: nat)
    requires c in s && |s| <= 1
    ensures s == {c}
  {
    assert |s - {c}| == |s| - 1;
  }
}
