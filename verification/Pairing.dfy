/** Pairing thread creations with thread terminations by index.  The full run
    replays from the i-th creation to the i-th termination of two lists in
    position order; the two events need not belong to one thread. */
module Pairing {
  import opened Positions
  import opened Recordings
  import opened Sorting

  datatype Life = Life(thread: ThreadId, from: Position, to: Position)

  function Births(lives: seq<Life>): seq<ThreadEvent> {
    seq(|lives|, i requires 0 <= i < |lives| => ThreadEvent(lives[i].thread, lives[i].from))
  }

  function Deaths(lives: seq<Life>): seq<ThreadEvent> {
    seq(|lives|, i requires 0 <= i < |lives| => ThreadEvent(lives[i].thread, lives[i].to))
  }

  function At(e: ThreadEvent): Position { e.position }

  // The recording's two lists are those of these threads: one creation and one
  // termination each, not before it; both lists in position order.
  ghost predicate LifeStory(r: Recording, lives: seq<Life>) {
    && (forall k :: 0 <= k < |lives| ==> lives[k].from.AtMost(lives[k].to))
    && multiset(r.created) == multiset(Births(lives))
    && multiset(r.terminated) == multiset(Deaths(lives))
    && Sorted(r.created, At) && Sorted(r.terminated, At)
    && (forall e :: e in r.created || e in r.terminated ==> r.Recorded(e.position))
  }

  // What the replay loop needs of each index pair.
  ghost predicate Replayable(r: Recording) {
    && r.Valid()
    && |r.created| == |r.terminated|
    && forall i :: 0 <= i < |r.created| ==>
         && r.Recorded(r.created[i].position) && r.Recorded(r.terminated[i].position)
         && r.created[i].position.AtMost(r.terminated[i].position)
  }

  // Threads alive at a position, from their creation up to their termination.
  function Alive(lives: seq<Life>, x: Position): nat {
    if lives == [] then 0
    else
      var l := lives[|lives| - 1];
      Alive(lives[..|lives| - 1], x) + if l.from.AtMost(x) && x.Less(l.to) then 1 else 0
  }

  ghost predicate SomeThreadAlive(lives: seq<Life>, x: Position) {
    exists k :: 0 <= k < |lives| && lives[k].from.AtMost(x) && x.Less(lives[k].to)
  }

  // Index pairs whose interval contains the position.
  function Covering(from: seq<ThreadEvent>, to: seq<ThreadEvent>, x: Position): nat
    requires |from| == |to|
  {
    if from == [] then 0
    else
      var n := |from| - 1;
      Covering(from[..n], to[..n], x) + if from[n].position.AtMost(x) && x.Less(to[n].position) then 1 else 0
  }

  function CountAtMost(s: seq<ThreadEvent>, x: Position): nat {
    if s == [] then 0
    else CountAtMost(s[..|s| - 1], x) + if s[|s| - 1].position.AtMost(x) then 1 else 0
  }

  lemma {:induction false} CountConcat(s: seq<ThreadEvent>, t: seq<ThreadEvent>, x: Position)
    ensures CountAtMost(s + t, x) == CountAtMost(s, x) + CountAtMost(t, x)
  {
    if t == [] {
      assert s + t == s;
    } else {
      assert (s + t)[..|s + t| - 1] == s + t[..|t| - 1];
      CountConcat(s, t[..|t| - 1], x);
    }
  }

  lemma CountRemove(t: seq<ThreadEvent>, k: nat, x: Position)
    requires k < |t|
    ensures CountAtMost(t, x) == CountAtMost(Remove(t, k), x) + if t[k].position.AtMost(x) then 1 else 0
  {
    CountConcat(t[..k], t[k + 1..], x);
    CountConcat(t[..k + 1], t[k + 1..], x);
    assert t == t[..k + 1] + t[k + 1..];
    assert t[..k + 1][..k] == t[..k];
  }

  lemma {:induction false} CountPermutation(s: seq<ThreadEvent>, t: seq<ThreadEvent>, x: Position)
    requires multiset(s) == multiset(t)
    ensures CountAtMost(s, x) == CountAtMost(t, x)
  {
    if s == [] {
      assert |multiset(t)| == 0;
    } else {
      var last := |s| - 1;
      assert s[last] in multiset(t);
      var k :| 0 <= k < |t| && t[k] == s[last];
      CountRemove(s, last, x);
      CountRemove(t, k, x);
      CountPermutation(Remove(s, last), Remove(t, k), x);
    }
  }

  // In a list in position order, those at most x come first.
  lemma {:induction false} SortedCount(s: seq<ThreadEvent>, x: Position, i: nat)
    requires Sorted(s, At) && i < |s|
    ensures CountAtMost(s, x) <= |s|
    ensures s[i].position.AtMost(x) <==> i < CountAtMost(s, x)
  {
    var n := |s| - 1;
    assert forall k :: 0 <= k < |s| ==> At(s[k]) == s[k].position;
    if n == 0 {
    } else {
      SortedCount(s[..n], x, n - 1);
      if i < n { SortedCount(s[..n], x, i); }
      assert At(s[n - 1]).AtMost(At(s[n]));
    }
  }

  lemma {:induction false} FewerDeathsThanBirths(lives: seq<Life>, x: Position)
    requires forall k :: 0 <= k < |lives| ==> lives[k].from.AtMost(lives[k].to)
    ensures Alive(lives, x) == CountAtMost(Births(lives), x) - CountAtMost(Deaths(lives), x)
  {
    if lives != [] {
      var init := lives[..|lives| - 1];
      FewerDeathsThanBirths(init, x);
      assert Births(lives)[..|lives| - 1] == Births(init);
      assert Deaths(lives)[..|lives| - 1] == Deaths(init);
    }
  }

  lemma {:induction false} CoveringIsDifference(from: seq<ThreadEvent>, to: seq<ThreadEvent>, x: Position)
    requires |from| == |to| && forall i :: 0 <= i < |from| ==> from[i].position.AtMost(to[i].position)
    ensures Covering(from, to, x) == CountAtMost(from, x) - CountAtMost(to, x)
  {
    if from != [] {
      CoveringIsDifference(from[..|from| - 1], to[..|from| - 1], x);
    }
  }

  /** The lists are equally long and no creation comes after the termination of
      the same index, so the full run never starts past its end position. */
  lemma PairsAreOrdered(r: Recording, lives: seq<Life>)
    requires LifeStory(r, lives)
    ensures |r.created| == |r.terminated| == |lives|
    ensures forall i :: 0 <= i < |r.created| ==> r.created[i].position.AtMost(r.terminated[i].position)
    ensures r.Valid() ==> Replayable(r)
  {
    assert |multiset(r.created)| == |multiset(Births(lives))|;
    assert |multiset(r.terminated)| == |multiset(Deaths(lives))|;
    forall i | 0 <= i < |r.created| ensures r.created[i].position.AtMost(r.terminated[i].position) {
      var x := r.terminated[i].position;
      SortedCount(r.terminated, x, i);
      SortedCount(r.created, x, i);
      CountPermutation(r.created, Births(lives), x);
      CountPermutation(r.terminated, Deaths(lives), x);
      FewerDeathsThanBirths(lives, x);
    }
  }

  /** Pairing by index is enough: every position lies in exactly as many
      index-paired intervals as threads are alive there. */
  lemma PairingCoversLives(r: Recording, lives: seq<Life>, x: Position)
    requires LifeStory(r, lives)
    ensures |r.created| == |r.terminated|
    ensures Covering(r.created, r.terminated, x) == Alive(lives, x)
  {
    PairsAreOrdered(r, lives);
    CoveringIsDifference(r.created, r.terminated, x);
    CountPermutation(r.created, Births(lives), x);
    CountPermutation(r.terminated, Deaths(lives), x);
    FewerDeathsThanBirths(lives, x);
  }

  lemma {:induction false} CoveringPositive(from: seq<ThreadEvent>, to: seq<ThreadEvent>, x: Position)
    requires |from| == |to|
    ensures Covering(from, to, x) > 0 <==>
              exists i :: 0 <= i < |from| && from[i].position.AtMost(x) && x.Less(to[i].position)
  {
    if from != [] {
      CoveringPositive(from[..|from| - 1], to[..|from| - 1], x);
    }
  }

  lemma {:induction false} AlivePositive(lives: seq<Life>, x: Position)
    ensures Alive(lives, x) > 0 <==> SomeThreadAlive(lives, x)
  {
    if lives != [] {
      AlivePositive(lives[..|lives| - 1], x);
    }
  }

  /** As sets: the union of the index-paired intervals is the union of the true
      lifetimes, even where the pairs mix threads. */
  lemma UnionOfPairsIsUnionOfLives(r: Recording, lives: seq<Life>, x: Position)
    requires LifeStory(r, lives)
    ensures |r.created| == |r.terminated|
    ensures (exists i :: 0 <= i < |r.created| && r.created[i].position.AtMost(x) && x.Less(r.terminated[i].position))
       <==> SomeThreadAlive(lives, x)
  {
    PairingCoversLives(r, lives, x);
    CoveringPositive(r.created, r.terminated, x);
    AlivePositive(lives, x);
  }

  // The loop runs over the creations and reads the termination of the same
  // index each time.
  predicate PairExists(created: seq<ThreadEvent>, terminated: seq<ThreadEvent>, i: nat) {
    i < |created| ==> i < |terminated|
  }

  /** The pair loop stays inside the list of terminations exactly when no thread
      is still running at the end of the recording; otherwise it reads as many
      entries past the end as threads are. */
  lemma EveryPairExistsIff(created: seq<ThreadEvent>, terminated: seq<ThreadEvent>, lives: seq<Life>, running: seq<ThreadEvent>)
    requires multiset(created) == multiset(Births(lives)) + multiset(running)
    requires multiset(terminated) == multiset(Deaths(lives))
    ensures (forall i: nat :: PairExists(created, terminated, i)) <==> running == []
    ensures |created| == |terminated| + |running|
  {
    assert |multiset(created)| == |multiset(Births(lives))| + |multiset(running)|;
    assert |multiset(terminated)| == |multiset(Deaths(lives))|;
    if running != [] {
      assert !PairExists(created, terminated, |terminated|);
    }
  }
}
