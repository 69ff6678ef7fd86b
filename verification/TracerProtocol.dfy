/** The tracer's event list under concurrency: a recorder pushes in one critical
    section and sorts in the next, removals happen in between. */
module TracerProtocol {
  import opened Sorting
  import opened Tracer

  datatype Action =
    | Push(recorder: nat, event: Invocation)
    | SortBy(recorder: nat)
    | Removed(n: nat)

  datatype TraceList = TraceList(
    events: seq<Invocation>,
    owing: set<nat>,                 // recorders between their push and their sort
    recorded: multiset<Invocation>,  // everything pushed so far
    removed: multiset<Invocation>)   // everything removed so far

  const EMPTY := TraceList([], {}, multiset{}, multiset{})

  // Sorting is any rearrangement into position order.
  ghost predicate Step(s: TraceList, a: Action, t: TraceList) {
    match a
    case Push(r, e) =>
      r !in s.owing
      && t == s.(events := s.events + [e], owing := s.owing + {r}, recorded := s.recorded + multiset{e})
    case SortBy(r) =>
      r in s.owing && Sorted(t.events, When) && multiset(t.events) == multiset(s.events)
      && t == s.(events := t.events, owing := s.owing - {r})
    case Removed(n) =>
      n < |s.events|
      && t == s.(events := Remove(s.events, n), removed := s.removed + multiset{s.events[n]})
  }

  ghost predicate IsRun(states: seq<TraceList>, actions: seq<Action>) {
    && |states| == |actions| + 1
    && states[0] == EMPTY
    && forall i :: 0 <= i < |actions| ==> Step(states[i], actions[i], states[i + 1])
  }

  // All but the last k entries are in order.
  ghost predicate SortedUpTo(s: TraceList, k: nat) {
    k <= |s.events| && Sorted(s.events[..|s.events| - k], When)
  }

  ghost predicate Inv(s: TraceList) {
    && multiset(s.events) + s.removed == s.recorded
    && exists k: nat :: k <= |s.owing| && SortedUpTo(s, k)
  }

  lemma PushKeepsTail(s: TraceList, r: nat, e: Invocation, t: TraceList, k: nat)
    requires Step(s, Push(r, e), t) && k <= |s.owing| && SortedUpTo(s, k)
    ensures k + 1 <= |t.owing| && SortedUpTo(t, k + 1)
  {
    assert t.events[..|t.events| - (k + 1)] == s.events[..|s.events| - k];
  }

  lemma RemoveKeepsTail(s: TraceList, n: nat, t: TraceList, k: nat) returns (k': nat)
    requires Step(s, Removed(n), t) && SortedUpTo(s, k)
    ensures k' <= k && SortedUpTo(t, k')
  {
    var sorted := s.events[..|s.events| - k];
    if n < |sorted| {
      RemoveKeepsSorted(sorted, n, When);
      assert t.events[..|t.events| - k] == Remove(sorted, n);
      k' := k;
    } else {
      assert t.events[..|t.events| - (k - 1)] == sorted;
      k' := k - 1;
    }
  }

  lemma SortingClearsTail(t: TraceList)
    requires Sorted(t.events, When)
    ensures SortedUpTo(t, 0)
  {
    assert t.events[..|t.events| - 0] == t.events;
  }

  lemma StepKeepsBalance(s: TraceList, a: Action, t: TraceList)
    requires multiset(s.events) + s.removed == s.recorded && Step(s, a, t)
    ensures multiset(t.events) + t.removed == t.recorded
  {
  }

  lemma StepKeepsInv(s: TraceList, a: Action, t: TraceList)
    requires Inv(s) && Step(s, a, t)
    ensures Inv(t)
  {
    StepKeepsBalance(s, a, t);
    var k: nat :| k <= |s.owing| && SortedUpTo(s, k);
    hide SortedUpTo, Sorted;
    match a {
      case Push(r, e) => PushKeepsTail(s, r, e, t, k);
      case SortBy(r) => SortingClearsTail(t);
      case Removed(n) =>
        var k' := RemoveKeepsTail(s, n, t, k);
    }
  }

  /** In every interleaving the list holds what was recorded and not removed, and
      out of order are at most as many trailing entries as recorders still owe a
      sort. */
  lemma {:induction false} TailIsBounded(states: seq<TraceList>, actions: seq<Action>)
    requires IsRun(states, actions)
    ensures Inv(states[|actions|])
  {
    if actions == [] {
      assert SortedUpTo(EMPTY, 0);
    } else {
      var last := |actions| - 1;
      RunPrefix(states, actions);
      TailIsBounded(states[..last + 1], actions[..last]);
      StepKeepsInv(states[last], actions[last], states[last + 1]);
    }
  }

  /** So an unsorted list is owed a sort, and without recorders in flight the
      list is sorted. */
  lemma SortedWhenQuiet(states: seq<TraceList>, actions: seq<Action>)
    requires IsRun(states, actions) && states[|actions|].owing == {}
    ensures Sorted(states[|actions|].events, When)
    ensures multiset(states[|actions|].events) == states[|actions|].recorded - states[|actions|].removed
  {
    TailIsBounded(states, actions);
    var s := states[|actions|];
    var k: nat :| k <= |s.owing| && SortedUpTo(s, k);
    assert s.events[..|s.events| - 0] == s.events;
  }

  // -------------------------------------------------------------------------
  // What the bookkeeping of a run amounts to, in terms of its actions

  lemma RunPrefix(states: seq<TraceList>, actions: seq<Action>)
    requires IsRun(states, actions) && actions != []
    ensures IsRun(states[..|actions|], actions[..|actions| - 1])
    ensures Step(states[|actions| - 1], actions[|actions| - 1], states[|actions|])
  {
    var last := |actions| - 1;
    forall i | 0 <= i < last ensures Step(states[..last + 1][i], actions[..last][i], states[..last + 1][i + 1]) {
      assert Step(states[i], actions[i], states[i + 1]);
    }
  }

  function Recorded(actions: seq<Action>): multiset<Invocation> {
    if actions == [] then multiset{}
    else Recorded(actions[..|actions| - 1])
         + match actions[|actions| - 1] case Push(_, e) => multiset{e} case _ => multiset{}
  }

  function Removals(actions: seq<Action>): nat {
    if actions == [] then 0
    else Removals(actions[..|actions| - 1]) + if actions[|actions| - 1].Removed? then 1 else 0
  }

  // A recorder owes a sort from its push to its next sort.
  predicate Owes(actions: seq<Action>, r: nat) {
    actions != [] &&
    match actions[|actions| - 1]
    case Push(recorder, _) => recorder == r || Owes(actions[..|actions| - 1], r)
    case SortBy(recorder) => recorder != r && Owes(actions[..|actions| - 1], r)
    case Removed(_) => Owes(actions[..|actions| - 1], r)
  }

  lemma {:induction false} RecordedIsPushed(states: seq<TraceList>, actions: seq<Action>)
    requires IsRun(states, actions)
    ensures states[|actions|].recorded == Recorded(actions) && |states[|actions|].removed| == Removals(actions)
    ensures forall r :: r in states[|actions|].owing <==> Owes(actions, r)
  {
    if actions != [] {
      RunPrefix(states, actions);
      RecordedIsPushed(states[..|actions|], actions[..|actions| - 1]);
    }
  }

  lemma BagDifference<T>(a: multiset<T>, b: multiset<T>, c: multiset<T>)
    requires a + b == c
    ensures a == c - b && |a| == |c| - |b|
  {
  }

  /** Whatever the interleaving, the list holds the pushed events but for one per
      removal; and it is sorted if every recorder sorted after its last push. */
  lemma ListIsPushedMinusRemoved(states: seq<TraceList>, actions: seq<Action>)
    requires IsRun(states, actions)
    ensures multiset(states[|actions|].events) <= Recorded(actions)
    ensures |states[|actions|].events| == |Recorded(actions)| - Removals(actions)
    ensures (forall r :: !Owes(actions, r)) ==> Sorted(states[|actions|].events, When)
  {
    var s := states[|actions|];
    TailIsBounded(states, actions);
    RecordedIsPushed(states, actions);
    BagDifference(multiset(s.events), s.removed, s.recorded);
    assert |multiset(s.events)| == |s.events|;
    if forall r :: !Owes(actions, r) {
      assert s.owing == {};
      SortedWhenQuiet(states, actions);
    }
  }
}
