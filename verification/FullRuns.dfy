/** What a full run records. */
module FullRuns {
  import opened Positions
  import opened Recordings
  import opened Sorting
  import opened Pairing
  import opened Tracer

  // The first n index pairs, replayed one after the other.
  ghost function Replayed(db: Database, traces: seq<Address>, r: Recording, n: nat): seq<Invocation>
    requires Replayable(r) && n <= |r.created|
  {
    if n == 0 then []
    else Replayed(db, traces, r, n - 1)
         + Span(db, traces, r.moments, r.IndexOf(r.created[n - 1].position), r.IndexOf(r.terminated[n - 1].position))
  }

  lemma ReplayedAppends(db: Database, traces: seq<Address>, r: Recording, n: nat, recorded: multiset<Invocation>)
    requires Replayable(r) && n < |r.created|
    ensures recorded + multiset(Replayed(db, traces, r, n + 1)) ==
              recorded + multiset(Replayed(db, traces, r, n))
              + multiset(Span(db, traces, r.moments, r.IndexOf(r.created[n].position), r.IndexOf(r.terminated[n].position)))
  {
  }

  lemma Distribute(count: nat, times: nat, covered: bool, count': nat, total: nat, total': nat)
    requires total == count * times
    requires count' == count + (if covered then 1 else 0) && total' == total + if covered then times else 0
    ensures total' == count' * times
  {
    assert (count + 1) * times == count * times + times;
  }

  lemma PairCount(db: Database, traces: seq<Address>, r: Recording, from: Position, to: Position, e: Invocation)
    requires r.Valid() && r.Recorded(from) && r.Recorded(to)
    ensures multiset(Span(db, traces, r.moments, r.IndexOf(from), r.IndexOf(to)))[e] ==
              if from.AtMost(e.position) && e.position.Less(to) then Times(db, traces, r, e) else 0
  {
    SpanCount(db, traces, r, r.IndexOf(from), r.IndexOf(to), e);
    if r.Recorded(e.position) {
      r.OrderOfIndexes(r.IndexOf(from), r.IndexOf(e.position));
      r.OrderOfIndexes(r.IndexOf(to), r.IndexOf(e.position));
    }
  }

  lemma CoveringExtends(from: seq<ThreadEvent>, to: seq<ThreadEvent>, n: nat, x: Position)
    requires 0 < n <= |from| && n <= |to|
    ensures Covering(from[..n], to[..n], x) ==
              Covering(from[..n - 1], to[..n - 1], x)
              + if from[n - 1].position.AtMost(x) && x.Less(to[n - 1].position) then 1 else 0
  {
    assert from[..n][..n - 1] == from[..n - 1] && to[..n][..n - 1] == to[..n - 1];
  }

  lemma ReplayedExtends(db: Database, traces: seq<Address>, r: Recording, n: nat, e: Invocation)
    requires Replayable(r) && 0 < n <= |r.created|
    ensures multiset(Replayed(db, traces, r, n))[e] ==
              multiset(Replayed(db, traces, r, n - 1))[e]
              + if r.created[n - 1].position.AtMost(e.position) && e.position.Less(r.terminated[n - 1].position)
                then Times(db, traces, r, e) else 0
  {
    PairCount(db, traces, r, r.created[n - 1].position, r.terminated[n - 1].position, e);
  }

  lemma ReplayedStep(db: Database, traces: seq<Address>, r: Recording, n: nat, e: Invocation)
    requires Replayable(r) && 0 < n <= |r.created|
    requires multiset(Replayed(db, traces, r, n - 1))[e] ==
               Covering(r.created[..n - 1], r.terminated[..n - 1], e.position) * Times(db, traces, r, e)
    ensures multiset(Replayed(db, traces, r, n))[e] ==
              Covering(r.created[..n], r.terminated[..n], e.position) * Times(db, traces, r, e)
  {
    ReplayedExtends(db, traces, r, n, e);
    CoveringExtends(r.created, r.terminated, n, e.position);
    var before, after := multiset(Replayed(db, traces, r, n - 1))[e], multiset(Replayed(db, traces, r, n))[e];
    var count := Covering(r.created[..n - 1], r.terminated[..n - 1], e.position);
    var count' := Covering(r.created[..n], r.terminated[..n], e.position);
    Distribute(count, Times(db, traces, r, e), count' != count, count', before, after);
  }

  lemma {:induction false} ReplayedCount(db: Database, traces: seq<Address>, r: Recording, n: nat, e: Invocation)
    requires Replayable(r) && n <= |r.created|
    ensures multiset(Replayed(db, traces, r, n))[e] ==
              Covering(r.created[..n], r.terminated[..n], e.position) * Times(db, traces, r, e)
  {
    hide Times, Replayed, Covering;
    if n == 0 {
      NothingReplayed(db, traces, r, e);
    } else {
      ReplayedCount(db, traces, r, n - 1, e);
      ReplayedStep(db, traces, r, n, e);
    }
  }

  lemma NothingReplayed(db: Database, traces: seq<Address>, r: Recording, e: Invocation)
    requires Replayable(r)
    ensures multiset(Replayed(db, traces, r, 0))[e] ==
              Covering(r.created[..0], r.terminated[..0], e.position) * Times(db, traces, r, e)
  {
    assert Covering(r.created[..0], r.terminated[..0], e.position) == 0;
  }

  /** A full run records each call or return of a traced function once for every
      thread alive at its position: not fewer, and with several threads more
      than once.  Neither chunks nor watchpoints appear. */
  lemma RecordedPerLivingThread(db: Database, traces: seq<Address>, r: Recording, lives: seq<Life>, e: Invocation)
    requires r.Valid() && LifeStory(r, lives)
    ensures Replayable(r)
    ensures multiset(Replayed(db, traces, r, |r.created|))[e] ==
              Alive(lives, e.position) * Times(db, traces, r, e)
  {
    PairsAreOrdered(r, lives);
    PairingCoversLives(r, lives, e.position);
    ReplayedCount(db, traces, r, |r.created|, e);
    assert r.created[..|r.created|] == r.created && r.terminated[..|r.created|] == r.terminated;
  }

  // e tells of a call or return of a traced function, executed at its position.
  ghost predicate Happens(db: Database, traces: seq<Address>, r: Recording, e: Invocation) {
    exists i, c :: 0 <= i < |r.moments| && c in r.moments[i].calls
                   && r.moments[i].position == e.position && Tells(db, traces, c, e)
  }

  lemma TimesPositive(db: Database, traces: seq<Address>, r: Recording, e: Invocation)
    requires r.Valid()
    ensures Times(db, traces, r, e) > 0 <==> Happens(db, traces, r, e)
  {
    hide Tells;
    if r.Recorded(e.position) {
      var i := r.IndexOf(e.position);
      ToldPositive(db, traces, r.moments[i].calls, e);
      forall j | 0 <= j < |r.moments| && r.moments[j].position == e.position ensures j == i {
        r.OrderOfIndexes(i, j);
      }
    }
  }

  lemma ProductPositive(a: nat, b: nat)
    ensures a * b > 0 <==> a > 0 && b > 0
  {
  }

  /** What a full run replays is, as a set, exactly the calls and returns of
      traced functions at positions where some thread is alive: none is missed
      between two intervals and none is added. */
  lemma CompleteAndSound(db: Database, traces: seq<Address>, r: Recording, lives: seq<Life>, e: Invocation)
    requires r.Valid() && LifeStory(r, lives)
    ensures Replayable(r)
    ensures e in Replayed(db, traces, r, |r.created|) <==>
              SomeThreadAlive(lives, e.position) && Happens(db, traces, r, e)
  {
    RecordedPerLivingThread(db, traces, r, lives, e);
    var replayed := Replayed(db, traces, r, |r.created|);
    assert e in replayed <==> multiset(replayed)[e] > 0;
    AlivePositive(lives, e.position);
    TimesPositive(db, traces, r, e);
    ProductPositive(Alive(lives, e.position), Times(db, traces, r, e));
  }

  /** A call that happened once is recorded once exactly when one thread is alive
      at its position. */
  lemma RecordedOnceIffOneThreadAlive(db: Database, traces: seq<Address>, r: Recording, lives: seq<Life>, e: Invocation)
    requires r.Valid() && LifeStory(r, lives) && Times(db, traces, r, e) == 1
    ensures Replayable(r)
    ensures multiset(Replayed(db, traces, r, |r.created|))[e] == 1 <==> Alive(lives, e.position) == 1
  {
    RecordedPerLivingThread(db, traces, r, lives, e);
  }

  // -------------------------------------------------------------------------
  // Two threads, one living inside the other's life

  const TRACED: Address := 7

  const NESTED := [Life(1, Position(1, 0), Position(4, 0)), Life(2, Position(2, 0), Position(3, 0))]

  function Quietly(position: Position, calls: seq<CallReturn>): Moment {
    Moment(position, [], [], 1, 0, calls)
  }

  // The creations are in the order 1, 2, the terminations in the order 2, 1: no
  // index pair is one thread's.  One call happens while both live.
  const NESTING := Recording(
    [Quietly(Position(1, 0), []), Quietly(Position(2, 0), [CallReturn(TRACED, 1, 0)]),
     Quietly(Position(3, 0), []), Quietly(Position(4, 0), [])],
    [ModuleInfo("main", 0, 1)],
    [ThreadEvent(1, Position(1, 0)), ThreadEvent(2, Position(2, 0))],
    [ThreadEvent(2, Position(3, 0)), ThreadEvent(1, Position(4, 0))])

  lemma NestingIsValid()
    ensures NESTING.Valid()
    ensures forall i :: 0 <= i < 4 ==> NESTING.moments[i].position == Position(i + 1, 0)
  {
  }

  lemma NestedEvents()
    ensures multiset(NESTING.created) == multiset(Births(NESTED))
    ensures multiset(NESTING.terminated) == multiset(Deaths(NESTED))
    ensures Sorted(NESTING.created, At) && Sorted(NESTING.terminated, At)
  {
    assert Births(NESTED) == NESTING.created;
    assert Deaths(NESTED) == [NESTING.terminated[1], NESTING.terminated[0]];
  }

  lemma NestingRecords(n: nat)
    requires 1 <= n <= 4
    ensures NESTING.Recorded(Position(n, 0))
  {
    assert NESTING.moments[n - 1].position == Position(n, 0);
  }

  lemma EventsAreRecorded(e: ThreadEvent)
    requires e in NESTING.created || e in NESTING.terminated
    ensures NESTING.Recorded(e.position)
  {
    NestingRecords(e.position.major);
  }

  lemma NestingIsALifeStory()
    ensures LifeStory(NESTING, NESTED)
  {
    NestedEvents();
    forall e | e in NESTING.created || e in NESTING.terminated ensures NESTING.Recorded(e.position) {
      EventsAreRecorded(e);
    }
    hide Births, Deaths, Sorted, At, NESTING.Recorded;
  }

  lemma BothAlive()
    ensures Alive(NESTED, Position(2, 0)) == 2
  {
    assert NESTED[..1][..0] == [];
  }

  lemma CallHappensOnce(db: Database)
    requires db.callArguments(TRACED, Position(2, 0)) == Some([])
    ensures Times(db, [TRACED], NESTING, Invocation(TRACED, Position(2, 0), false, [])) == 1
  {
    NestingIsValid();
    var p, c := Position(2, 0), CallReturn(TRACED, 1, 0);
    assert NESTING.moments[1].position == p;
    NESTING.OrderOfIndexes(1, NESTING.IndexOf(p));
    var e := Invocation(TRACED, p, false, []);
    assert [c][..0] == [] && Tells(db, [TRACED], c, e);
    assert Told(db, [TRACED], [c], e) == Told(db, [TRACED], [], e) + 1;
  }

  /** A call that happened once is recorded twice: overlapping lives, whose
      terminations are paired with each other's creations, both cover it. */
  lemma CallIsRecordedTwice(db: Database)
    requires db.callArguments(TRACED, Position(2, 0)) == Some([])
    ensures NESTING.Valid() && LifeStory(NESTING, NESTED) && Replayable(NESTING)
    ensures forall i :: 0 <= i < 2 ==> NESTING.created[i].thread != NESTING.terminated[i].thread
    ensures var e := Invocation(TRACED, Position(2, 0), false, []);
            Times(db, [TRACED], NESTING, e) == 1 && multiset(Replayed(db, [TRACED], NESTING, 2))[e] == 2
  {
    var e := Invocation(TRACED, Position(2, 0), false, []);
    NestingIsValid();
    NestingIsALifeStory();
    BothAlive();
    CallHappensOnce(db);
    hide Times, Alive, Replayed;
    RecordedPerLivingThread(db, [TRACED], NESTING, NESTED, e);
  }
}
