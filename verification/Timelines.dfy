/** The timeline: named positions in memory, mirrored into the database's
    netnodes, which are found by name only. */
module Timelines {
  import opened Positions
  import opened Sorting

  datatype Entry = Entry(name: string, position: Position)

  function Place(e: Entry): Position { e.position }

  const PREFIX := "$ttddbg."

  // Netnodes by name, including those of others; None is a node without a value.
  type Store = map<string, Option<Position>>

  lemma NodeNames(a: string, b: string)
    ensures PREFIX + a == PREFIX + b <==> a == b
    ensures (PREFIX + a)[..8] == PREFIX && (PREFIX + a)[8..] == a
  {
    assert (PREFIX + a)[8..] == a && (PREFIX + b)[8..] == b;
  }

  ghost predicate Stored(store: Store, e: Entry) {
    PREFIX + e.name in store && store[PREFIX + e.name] == Some(e.position)
  }

  predicate HasPosition(store: Store, name: string) {
    PREFIX + name in store && store[PREFIX + name].Some?
  }

  // One `set` per entry, in order: later entries overwrite earlier ones of the
  // same name.
  function SaveAll(store: Store, es: seq<Entry>): Store {
    if es == [] then store
    else
      var e := es[|es| - 1];
      SaveAll(store, es[..|es| - 1])[PREFIX + e.name := Some(e.position)]
  }

  ghost predicate Largest(es: seq<Entry>, name: string, p: Position) {
    Entry(name, p) in es && forall e :: e in es && e.name == name ==> e.position.AtMost(p)
  }

  lemma LastIsLargest(es: seq<Entry>)
    requires es != [] && Sorted(es, Place)
    ensures forall e :: e in es ==> e.position.AtMost(es[|es| - 1].position)
  {
    forall e | e in es ensures e.position.AtMost(es[|es| - 1].position) {
      var i :| 0 <= i < |es| && es[i] == e;
      assert i < |es| - 1 ==> Place(es[i]).AtMost(Place(es[|es| - 1]));
    }
  }

  // What saving leaves at one name: the largest position of that name, or what
  // was there before.
  ghost predicate SavedAt(before: Store, es: seq<Entry>, after: Store, name: string) {
    var node := PREFIX + name;
    if exists e :: e in es && e.name == name
    then node in after && after[node].Some? && Largest(es, name, after[node].value)
    else (node in after <==> node in before) && (node in after ==> after[node] == before[node])
  }

  lemma SavedExtends(before: Store, es: seq<Entry>, after: Store, last: Entry, name: string)
    requires SavedAt(before, es, after, name) && forall e :: e in es ==> e.position.AtMost(last.position)
    ensures SavedAt(before, es + [last], after[PREFIX + last.name := Some(last.position)], name)
  {
    NodeNames(name, last.name);
    assert forall e :: e in es + [last] <==> e in es || e == last;
  }

  lemma {:induction false} SavedValue(store: Store, es: seq<Entry>, name: string)
    requires Sorted(es, Place)
    ensures SavedAt(store, es, SaveAll(store, es), name)
  {
    if es != [] {
      var init, last := es[..|es| - 1], es[|es| - 1];
      SavedValue(store, init, name);
      LastIsLargest(es);
      assert es == init + [last];
      SavedExtends(store, init, SaveAll(store, init), last, name);
    }
  }

  // -------------------------------------------------------------------------
  // The mirror invariant

  datatype Timeline = Timeline(positions: seq<Entry>, store: Store)
  {
    // If the name is stored, it occurs in memory and is stored with the largest
    // position it has there.
    ghost predicate Mirrors(name: string) {
      HasPosition(store, name) ==> Largest(positions, name, store[PREFIX + name].value)
    }

    ghost predicate Mirror() {
      forall name :: name != "" ==> Mirrors(name)
    }

    ghost predicate AllStored() {
      forall e :: e in positions ==> HasPosition(store, e.name)
    }

    ghost predicate DistinctNames() {
      forall i, j :: 0 <= i < j < |positions| ==> positions[i].name != positions[j].name
    }

    ghost predicate Named() {
      forall e :: e in positions ==> e.name != ""
    }
  }

  datatype Edit = Add(name: string, position: Position) | Delete(n: nat)

  ghost predicate EditStep(s: Timeline, edit: Edit, t: Timeline) {
    match edit
    case Add(name, p) =>
      && Sorted(t.positions, Place)
      && multiset(t.positions) == multiset(s.positions) + multiset{Entry(name, p)}
      && t.store == SaveAll(s.store, t.positions)
    case Delete(n) =>
      if n < |s.positions|
      then t == Timeline(Remove(s.positions, n), s.store - {PREFIX + s.positions[n].name})
      else t == s
  }

  // What loading into an empty timeline yields: each named, stored node once.
  ghost predicate LoadedFrom(store: Store, es: seq<Entry>) {
    && Sorted(es, Place)
    && forall e :: multiset(es)[e] == if e.name != "" && Stored(store, e) then 1 else 0
  }

  lemma MembersOfPermutation<T>(s: seq<T>, t: seq<T>)
    requires multiset(s) == multiset(t)
    ensures forall x :: x in s <==> x in t
  {
    forall x ensures x in s <==> x in t {
      assert x in s <==> x in multiset(s);
      assert x in t <==> x in multiset(t);
    }
  }

  lemma AddedMembers(s: Timeline, name: string, p: Position, t: Timeline)
    requires EditStep(s, Add(name, p), t)
    ensures forall e :: e in t.positions <==> e in s.positions || e == Entry(name, p)
  {
    assert multiset(s.positions + [Entry(name, p)]) == multiset(s.positions) + multiset{Entry(name, p)};
    MembersOfPermutation(t.positions, s.positions + [Entry(name, p)]);
  }

  lemma AddKeepsMirror(s: Timeline, name: string, p: Position, t: Timeline, other: string)
    requires s.Mirrors(other) && EditStep(s, Add(name, p), t)
    ensures t.Mirrors(other)
  {
    AddedMembers(s, name, p, t);
    SavedValue(s.store, t.positions, other);
    if HasPosition(s.store, other) {
      assert Entry(other, s.store[PREFIX + other].value) in t.positions;
    }
  }

  lemma AddStoresAll(s: Timeline, name: string, p: Position, t: Timeline)
    requires EditStep(s, Add(name, p), t)
    ensures t.AllStored()
  {
    forall e | e in t.positions ensures HasPosition(t.store, e.name) {
      SavedValue(s.store, t.positions, e.name);
    }
  }

  lemma RemoveMembers(es: seq<Entry>, n: nat)
    requires n < |es|
    ensures forall e :: e in Remove(es, n) ==> e in es
    ensures forall e :: e in es && e != es[n] ==> e in Remove(es, n)
  {
    assert es == es[..n] + [es[n]] + es[n + 1..];
  }

  lemma DeleteKeepsMirror(s: Timeline, n: nat, t: Timeline, name: string)
    requires s.Mirrors(name) && EditStep(s, Delete(n), t)
    ensures t.Mirrors(name)
  {
    if n < |s.positions| {
      RemoveMembers(s.positions, n);
      NodeNames(name, s.positions[n].name);
    }
  }

  lemma EditKeepsMirror(s: Timeline, edit: Edit, t: Timeline, name: string)
    requires s.Mirrors(name) && EditStep(s, edit, t)
    ensures t.Mirrors(name)
  {
    match edit
    case Add(added, p) => AddKeepsMirror(s, added, p, t, name);
    case Delete(n) => DeleteKeepsMirror(s, n, t, name);
  }

  lemma {:induction false} OccursTwice<T>(s: seq<T>, i: nat, j: nat)
    requires i < j < |s| && s[i] == s[j]
    ensures multiset(s)[s[i]] >= 2
  {
    assert s == s[..j] + s[j..];
    assert s[..j][i] in multiset(s[..j]) && s[j..][0] in multiset(s[j..]);
  }

  /** The state right after loading mirrors the store, except for a nameless
      node, which is saved but never read back. */
  lemma LoadMirrors(store: Store, es: seq<Entry>)
    requires LoadedFrom(store, es)
    ensures forall name :: Timeline(es, store).Mirrors(name) <==> name != "" || !HasPosition(store, "")
    ensures Timeline(es, store).AllStored() && Timeline(es, store).DistinctNames() && Timeline(es, store).Named()
  {
    var loaded := Timeline(es, store);
    forall e | e in es ensures e.name != "" && Stored(store, e) {
      assert e in multiset(es);
    }
    forall i, j | 0 <= i < j < |es| ensures es[i].name != es[j].name {
      assert es[i] in es && es[j] in es;
      if es[i].name == es[j].name {
        assert es[i] == es[j];
        OccursTwice(es, i, j);
      }
    }
    forall name ensures loaded.Mirrors(name) <==> name != "" || !HasPosition(store, "") {
      if HasPosition(store, name) {
        var e := Entry(name, store[PREFIX + name].value);
        assert Stored(store, e);
        assert e in es <==> e in multiset(es);
      }
    }
  }

  // -------------------------------------------------------------------------
  // All runs

  ghost predicate IsRun(states: seq<Timeline>, edits: seq<Edit>) {
    && |states| == |edits| + 1
    && LoadedFrom(states[0].store, states[0].positions)
    && forall i :: 0 <= i < |edits| ==> EditStep(states[i], edits[i], states[i + 1])
  }

  lemma RunPrefix(states: seq<Timeline>, edits: seq<Edit>)
    requires IsRun(states, edits) && edits != []
    ensures IsRun(states[..|edits|], edits[..|edits| - 1])
    ensures EditStep(states[|edits| - 1], edits[|edits| - 1], states[|edits|])
  {
    forall i | 0 <= i < |edits| - 1
      ensures EditStep(states[..|edits|][i], edits[..|edits| - 1][i], states[..|edits|][i + 1])
    {
      assert EditStep(states[i], edits[i], states[i + 1]);
    }
  }

  /** Over any edits, duplicate names included, and whatever was stored before,
      the store mirrors memory for every name but the empty one, and right after
      an addition every name in memory is stored. */
  lemma {:induction false} MirrorHolds(states: seq<Timeline>, edits: seq<Edit>)
    requires IsRun(states, edits)
    ensures states[|edits|].Mirror()
    ensures edits != [] && edits[|edits| - 1].Add? ==> states[|edits|].AllStored()
    ensures Sorted(states[|edits|].positions, Place)
  {
    if edits == [] {
      LoadMirrors(states[0].store, states[0].positions);
    } else {
      RunPrefix(states, edits);
      MirrorHolds(states[..|edits|], edits[..|edits| - 1]);
      var s, t := states[|edits| - 1], states[|edits|];
      forall name | name != "" ensures t.Mirrors(name) {
        EditKeepsMirror(s, edits[|edits| - 1], t, name);
      }
      match edits[|edits| - 1] {
        case Add(name, p) => AddStoresAll(s, name, p, t);
        case Delete(n) =>
          if n < |s.positions| { RemoveKeepsSorted(s.positions, n, Place); }
      }
    }
  }

  /** Nodes of others, whose names lack the prefix, stay as they are over any
      edits. */
  lemma {:induction false} OtherNodesStay(states: seq<Timeline>, edits: seq<Edit>, node: string)
    requires IsRun(states, edits) && !("$ttddbg." <= node)
    ensures node in states[|edits|].store <==> node in states[0].store
    ensures node in states[0].store ==> states[|edits|].store[node] == states[0].store[node]
  {
    if edits != [] {
      RunPrefix(states, edits);
      OtherNodesStay(states[..|edits|], edits[..|edits| - 1], node);
      var s, t := states[|edits| - 1], states[|edits|];
      match edits[|edits| - 1]
      case Add(_, _) => SavingSparesOthers(s.store, t.positions, node);
      case Delete(n) =>
        if n < |s.positions| { assert "$ttddbg." <= PREFIX + s.positions[n].name; }
    }
  }

  lemma {:induction false} SavingSparesOthers(store: Store, es: seq<Entry>, node: string)
    requires !("$ttddbg." <= node)
    ensures node in SaveAll(store, es) <==> node in store
    ensures node in store ==> SaveAll(store, es)[node] == store[node]
  {
    if es != [] {
      SavingSparesOthers(store, es[..|es| - 1], node);
      assert "$ttddbg." <= PREFIX + es[|es| - 1].name;
    }
  }

  ghost predicate AddsNameless(edits: seq<Edit>) {
    exists i :: 0 <= i < |edits| && edits[i].Add? && edits[i].name == ""
  }

  lemma AddsNamelessExtends(edits: seq<Edit>)
    requires edits != []
    ensures AddsNameless(edits) <==>
              AddsNameless(edits[..|edits| - 1]) || (edits[|edits| - 1].Add? && edits[|edits| - 1].name == "")
  {
    var init := edits[..|edits| - 1];
    assert forall i :: 0 <= i < |init| ==> init[i] == edits[i];
  }

  // A nameless node from an earlier session that no edit of this one touches.
  lemma EditAroundNameless(s: Timeline, edit: Edit, t: Timeline)
    requires EditStep(s, edit, t) && s.Named() && !(edit.Add? && edit.name == "")
    ensures t.Named() && (HasPosition(t.store, "") <==> HasPosition(s.store, ""))
  {
    match edit
    case Add(name, p) =>
      AddedMembers(s, name, p, t);
      SavedValue(s.store, t.positions, "");
    case Delete(n) =>
      if n < |s.positions| {
        RemoveMembers(s.positions, n);
        NodeNames("", s.positions[n].name);
        assert s.positions[n] in s.positions;
      }
  }

  lemma AddNamelessMirrors(s: Timeline, p: Position, t: Timeline)
    requires EditStep(s, Add("", p), t)
    ensures t.Mirrors("")
  {
    AddedMembers(s, "", p, t);
    SavedValue(s.store, t.positions, "");
  }

  /** A nameless position is mirrored, too, exactly when none was left over from
      an earlier session or one was added in this one. */
  lemma {:induction false} NamelessMirror(states: seq<Timeline>, edits: seq<Edit>)
    requires IsRun(states, edits)
    ensures states[|edits|].Mirrors("") <==> !HasPosition(states[0].store, "") || AddsNameless(edits)
    ensures !AddsNameless(edits) ==>
              states[|edits|].Named() && (HasPosition(states[|edits|].store, "") <==> HasPosition(states[0].store, ""))
  {
    if edits == [] {
      LoadMirrors(states[0].store, states[0].positions);
    } else {
      RunPrefix(states, edits);
      NamelessMirror(states[..|edits|], edits[..|edits| - 1]);
      AddsNamelessExtends(edits);
      var s, edit, t := states[|edits| - 1], edits[|edits| - 1], states[|edits|];
      if !AddsNameless(edits) {
        EditAroundNameless(s, edit, t);
        assert forall p :: Entry("", p) !in t.positions;
      } else if AddsNameless(edits[..|edits| - 1]) {
        EditKeepsMirror(s, edit, t, "");
      } else {
        AddNamelessMirrors(s, edit.position, t);
      }
    }
  }

  /** Deleting an entry leaves another one unstored exactly when they share
      their name: the node they have in common goes. */
  lemma DeleteKeepsStoredIff(s: Timeline, n: nat, t: Timeline)
    requires s.AllStored() && n < |s.positions| && EditStep(s, Delete(n), t)
    ensures t.AllStored() <==> forall i :: 0 <= i < |s.positions| && i != n ==> s.positions[i].name != s.positions[n].name
  {
    var gone := s.positions[n].name;
    if i :| 0 <= i < |s.positions| && i != n && s.positions[i].name == gone {
      assert t.positions[if i < n then i else i - 1] == s.positions[i];
      assert s.positions[i] in t.positions && !HasPosition(t.store, gone);
    } else {
      forall e | e in t.positions ensures HasPosition(t.store, e.name) {
        var k :| 0 <= k < |t.positions| && t.positions[k] == e;
        assert e == s.positions[if k < n then k else k + 1];
        NodeNames(e.name, gone);
        assert e in s.positions;
      }
    }
  }

  /** The twin that lost its node is stored again by the next addition; until
      then, and in a session that ends before it, it is missing from the store. */
  lemma TwinIsLostUntilNextAdd(s: Timeline, n: nat, i: nat, t: Timeline, name: string, p: Position, u: Timeline,
                               reloaded: seq<Entry>)
    requires n < |s.positions| && i < |s.positions| && i != n && s.positions[i].name == s.positions[n].name
    requires EditStep(s, Delete(n), t) && EditStep(t, Add(name, p), u) && LoadedFrom(t.store, reloaded)
    ensures s.positions[i] in t.positions && s.positions[i] !in reloaded
    ensures s.positions[i] in u.positions && HasPosition(u.store, s.positions[i].name)
  {
    assert t.positions[if i < n then i else i - 1] == s.positions[i];
    var twin := s.positions[i];
    assert !Stored(t.store, twin);
    assert twin in reloaded <==> twin in multiset(reloaded);
    AddedMembers(t, name, p, u);
    AddStoresAll(t, name, p, u);
  }

  lemma SaveTwins(e: Entry)
    ensures SaveAll(map[], [e]) == map[PREFIX + e.name := Some(e.position)]
    ensures SaveAll(map[PREFIX + e.name := Some(e.position)], [e, e]) == map[PREFIX + e.name := Some(e.position)]
  {
    var stored: Store := map[PREFIX + e.name := Some(e.position)];
    assert stored[PREFIX + e.name := Some(e.position)] == stored;
    assert [e][..0] == [] && [e, e][..1] == [e];
    assert SaveAll(stored, [e]) == stored;
  }

  /** A run that ends so: one name added twice to an empty timeline and deleted
      once leaves an entry that the next session does not find. */
  lemma AddTwiceDeleteOnce(name: string, p: Position) returns (states: seq<Timeline>, edits: seq<Edit>)
    requires name != ""
    ensures edits == [Add(name, p), Add(name, p), Delete(0)] && IsRun(states, edits)
    ensures states[0] == Timeline([], map[]) && states[3].positions == [Entry(name, p)]
    ensures LoadedFrom(states[3].store, [])
  {
    var e := Entry(name, p);
    var stored: Store := map[PREFIX + name := Some(p)];
    edits := [Add(name, p), Add(name, p), Delete(0)];
    states := [Timeline([], map[]), Timeline([e], stored), Timeline([e, e], stored), Timeline([e], map[])];
    TwinSteps(e, states[0], states[1], states[2], states[3]);
    hide EditStep;
  }

  lemma TwinSteps(e: Entry, none: Timeline, one: Timeline, two: Timeline, twin: Timeline)
    requires none == Timeline([], map[]) && one == Timeline([e], map[PREFIX + e.name := Some(e.position)])
    requires two == Timeline([e, e], one.store) && twin == Timeline([e], map[])
    ensures EditStep(none, Add(e.name, e.position), one) && EditStep(one, Add(e.name, e.position), two)
    ensures EditStep(two, Delete(0), twin)
  {
    SaveTwins(e);
    hide SaveAll;
    assert Remove([e, e], 0) == [e];
    assert one.store - {PREFIX + e.name} == map[];
  }

  lemma {:induction false} DistinctNamesStayStored(states: seq<Timeline>, edits: seq<Edit>)
    requires IsRun(states, edits) && forall s :: s in states ==> s.DistinctNames()
    ensures states[|edits|].AllStored()
  {
    if edits == [] {
      LoadMirrors(states[0].store, states[0].positions);
    } else {
      RunPrefix(states, edits);
      assert forall s :: s in states[..|edits|] ==> s in states;
      DistinctNamesStayStored(states[..|edits|], edits[..|edits| - 1]);
      MirrorHolds(states, edits);
      var s, t := states[|edits| - 1], states[|edits|];
      assert s in states;
      match edits[|edits| - 1]
      case Add(_, _) =>
      case Delete(n) =>
        if n < |s.positions| { DeleteKeepsStoredIff(s, n, t); }
    }
  }

  lemma OccursOnce<T>(s: seq<T>, i: nat)
    requires i < |s| && forall k :: 0 <= k < |s| && k != i ==> s[k] != s[i]
    ensures multiset(s)[s[i]] == 1
  {
    assert multiset(s) == multiset(Remove(s, i)) + multiset{s[i]};
    forall k | 0 <= k < |Remove(s, i)| ensures Remove(s, i)[k] != s[i] {
      assert Remove(s, i)[k] == s[if k < i then k else k + 1];
    }
    assert s[i] !in Remove(s, i);
  }

  lemma ReloadCounts(s: Timeline, e: Entry)
    requires s.Mirror() && s.DistinctNames() && s.Named() && s.AllStored()
    ensures multiset(s.positions)[e] == if e.name != "" && Stored(s.store, e) then 1 else 0
  {
    if e in s.positions {
      var p := s.store[PREFIX + e.name].value;
      assert s.Mirrors(e.name) && Largest(s.positions, e.name, p);
      var i :| 0 <= i < |s.positions| && s.positions[i] == e;
      var j :| 0 <= j < |s.positions| && s.positions[j] == Entry(e.name, p);
      assert i == j;
      OccursOnce(s.positions, i);
    } else {
      assert e !in multiset(s.positions);
      assert e.name != "" ==> s.Mirrors(e.name);
      assert e.name != "" && Stored(s.store, e) ==> Largest(s.positions, e.name, e.position);
    }
  }

  lemma ReloadedEntries(s: Timeline, reloaded: seq<Entry>)
    requires LoadedFrom(s.store, reloaded) && multiset(reloaded) == multiset(s.positions)
    ensures forall e :: e in s.positions ==> e.name != "" && Stored(s.store, e) && multiset(s.positions)[e] == 1
  {
    forall e | e in s.positions ensures e.name != "" && Stored(s.store, e) && multiset(s.positions)[e] == 1 {
      assert e in multiset(s.positions);
      assert multiset(reloaded)[e] >= 1;
    }
  }

  /** Reloading a mirrored store gives back the timeline exactly when its names
      are distinct, not empty, and all stored. */
  lemma RoundTripIff(s: Timeline, reloaded: seq<Entry>)
    requires s.Mirror() && LoadedFrom(s.store, reloaded)
    ensures multiset(reloaded) == multiset(s.positions) <==> s.DistinctNames() && s.Named() && s.AllStored()
  {
    if s.DistinctNames() && s.Named() && s.AllStored() {
      forall e ensures multiset(reloaded)[e] == multiset(s.positions)[e] {
        ReloadCounts(s, e);
      }
    }
    if multiset(reloaded) == multiset(s.positions) {
      ReloadedEntries(s, reloaded);
      forall i, j | 0 <= i < j < |s.positions| ensures s.positions[i].name != s.positions[j].name {
        assert s.positions[i] in s.positions && s.positions[j] in s.positions;
        if s.positions[i].name == s.positions[j].name {
          assert s.positions[i] == s.positions[j];
          OccursTwice(s.positions, i, j);
        }
      }
    }
  }

  // Names whose common node was deleted since the last addition.
  function Killed(states: seq<Timeline>, edits: seq<Edit>): set<string>
    requires |states| == |edits| + 1
  {
    if edits == [] then {}
    else match edits[|edits| - 1]
      case Add(_, _) => {}
      case Delete(n) =>
        var before := states[|edits| - 1].positions;
        Killed(states[..|edits|], edits[..|edits| - 1]) + if n < |before| then {before[n].name} else {}
  }

  lemma DeleteStored(s: Timeline, n: nat, t: Timeline, e: Entry)
    requires n < |s.positions| && EditStep(s, Delete(n), t) && e in t.positions
    ensures e in s.positions
    ensures HasPosition(t.store, e.name) <==> HasPosition(s.store, e.name) && e.name != s.positions[n].name
  {
    RemoveMembers(s.positions, n);
    NodeNames(e.name, s.positions[n].name);
  }

  // An entry in memory is stored exactly when its name was not killed.
  lemma {:induction false} StoredUnlessKilled(states: seq<Timeline>, edits: seq<Edit>)
    requires IsRun(states, edits)
    ensures forall e :: e in states[|edits|].positions ==>
              (HasPosition(states[|edits|].store, e.name) <==> e.name !in Killed(states, edits))
  {
    if edits == [] {
      LoadMirrors(states[0].store, states[0].positions);
    } else {
      RunPrefix(states, edits);
      StoredUnlessKilled(states[..|edits|], edits[..|edits| - 1]);
      var s, t := states[|edits| - 1], states[|edits|];
      match edits[|edits| - 1]
      case Add(name, p) => AddStoresAll(s, name, p, t);
      case Delete(n) =>
        if n < |s.positions| {
          forall e | e in t.positions ensures HasPosition(t.store, e.name) <==> e.name !in Killed(states, edits) {
            DeleteStored(s, n, t, e);
          }
        }
    }
  }

  /** When a timeline survives: over any run, the next session loads the same
      entries exactly when their names are distinct and not empty and none of
      them was deleted under an equal name since the last addition. */
  lemma ReloadIff(states: seq<Timeline>, edits: seq<Edit>, reloaded: seq<Entry>)
    requires IsRun(states, edits) && LoadedFrom(states[|edits|].store, reloaded)
    ensures multiset(reloaded) == multiset(states[|edits|].positions) <==>
              && states[|edits|].DistinctNames() && states[|edits|].Named()
              && forall e :: e in states[|edits|].positions ==> e.name !in Killed(states, edits)
  {
    MirrorHolds(states, edits);
    StoredUnlessKilled(states, edits);
    RoundTripIff(states[|edits|], reloaded);
  }

  /** A timeline that survives shows the same column of positions: the next
      session differs at most in the order of equal ones. */
  lemma RoundTrip(states: seq<Timeline>, edits: seq<Edit>, reloaded: seq<Entry>)
    requires IsRun(states, edits) && LoadedFrom(states[|edits|].store, reloaded)
    requires states[|edits|].DistinctNames() && states[|edits|].Named()
    requires forall e :: e in states[|edits|].positions ==> e.name !in Killed(states, edits)
    ensures multiset(reloaded) == multiset(states[|edits|].positions)
    ensures |reloaded| == |states[|edits|].positions|
    ensures forall i :: 0 <= i < |reloaded| ==> reloaded[i].position == states[|edits|].positions[i].position
  {
    MirrorHolds(states, edits);
    ReloadIff(states, edits, reloaded);
    SortedPermutationsAgree(reloaded, states[|edits|].positions, Place);
    assert forall i :: 0 <= i < |reloaded| ==> Place(reloaded[i]) == reloaded[i].position;
  }

  /** Names that are distinct at all times are never killed, so with no empty name
      at the end such a timeline always survives. */
  lemma DistinctNamesSurvive(states: seq<Timeline>, edits: seq<Edit>, reloaded: seq<Entry>)
    requires IsRun(states, edits) && LoadedFrom(states[|edits|].store, reloaded)
    requires states[|edits|].Named() && forall s :: s in states ==> s.DistinctNames()
    ensures forall e :: e in states[|edits|].positions ==> e.name !in Killed(states, edits)
    ensures multiset(reloaded) == multiset(states[|edits|].positions)
  {
    DistinctNamesStayStored(states, edits);
    StoredUnlessKilled(states, edits);
    assert states[|edits|] in states;
    RoundTrip(states, edits, reloaded);
  }

  /** A run with a nameless position: the next session does not find it. */
  lemma NamelessIsNotReloaded(p: Position) returns (states: seq<Timeline>, edits: seq<Edit>)
    ensures edits == [Add("", p)] && IsRun(states, edits)
    ensures states[0] == Timeline([], map[]) && states[1].positions == [Entry("", p)]
    ensures HasPosition(states[1].store, "") && LoadedFrom(states[1].store, [])
  {
    var e := Entry("", p);
    SaveTwins(e);
    edits := [Add("", p)];
    states := [Timeline([], map[]), Timeline([e], map[PREFIX + e.name := Some(p)])];
    hide SaveAll;
    assert EditStep(states[0], edits[0], states[1]);
    forall x: Entry ensures !(x.name != "" && Stored(states[1].store, x)) {
      NodeNames(x.name, "");
    }
  }

  // -------------------------------------------------------------------------

  class PositionChooser {
    var positions: seq<Entry>
    var store: Store

    function State(): Timeline
      reads this
    {
      Timeline(positions, store)
    }

    constructor (store: Store)
      ensures this.store == store && LoadedFrom(store, positions)
    {
      this.positions, this.store := [], store;
      new;
      LoadPositions();
    }

    // Visits the nodes in the database's own order, which is left open.
    method LoadPositions()
      requires positions == []
      modifies this`positions
      ensures LoadedFrom(store, positions)
    {
      var todo := store.Keys;
      while todo != {}
        invariant todo <= store.Keys
        invariant forall e :: multiset(positions)[e] ==
                    if e.name != "" && PREFIX + e.name !in todo && Stored(store, e) then 1 else 0
        decreases |todo|
      {
        var node :| node in todo;
        ghost var before, left := positions, todo;
        todo := todo - {node};
        if |node| > 8 && node[..8] == PREFIX && store[node].Some? {
          positions := positions + [Entry(node[8..], store[node].value)];
        }
        VisitedNode(store, left, node, before, positions);
      }
      positions := Sort(positions, Place);
    }

    method AddNewPosition(name: string, p: Position)
      modifies this
      ensures EditStep(old(State()), Add(name, p), State())
      ensures multiset(positions) == old(multiset(positions)) + multiset{Entry(name, p)}
      ensures forall e :: e in positions ==> "$ttddbg." + e.name in store
    {
      positions := positions + [Entry(name, p)];
      positions := Sort(positions, Place);
      SavePositions();
      AddStoresAll(old(State()), name, p, State());
    }

    // Returns whether anything changed.
    method Del(n: nat) returns (changed: bool)
      modifies this
      ensures EditStep(old(State()), Delete(n), State())
      ensures changed <==> n < |old(positions)|
      ensures n < |old(positions)| ==>
                && multiset(positions) == old(multiset(positions)) - multiset{old(positions)[n]}
                && "$ttddbg." + old(positions)[n].name !in store
    {
      if n >= |positions| { return false; }
      store := store - {PREFIX + positions[n].name};
      positions := Remove(positions, n);
      return true;
    }

    method SavePositions()
      modifies this`store
      ensures store == SaveAll(old(store), positions)
    {
      var i := 0;
      while i < |positions|
        invariant 0 <= i <= |positions|
        invariant store == SaveAll(old(store), positions[..i])
      {
        store := store[PREFIX + positions[i].name := Some(positions[i].position)];
        assert positions[..i + 1][..i] == positions[..i];
        i := i + 1;
      }
      assert positions[..i] == positions;
    }

    method AddAll(es: seq<Entry>)
      modifies this
      ensures multiset(positions) == old(multiset(positions)) + multiset(es)
      ensures forall name :: old(State()).Mirrors(name) ==> State().Mirrors(name)
      ensures old(Sorted(positions, Place)) ==> Sorted(positions, Place)
      ensures es != [] || old(State()).AllStored() ==> State().AllStored()
    {
      ghost var before := State();
      var i := 0;
      while i < |es|
        invariant 0 <= i <= |es| && Added(before, es[..i], State())
      {
        AddOne(before, es, i);
        i := i + 1;
      }
      assert es[..i] == es;
    }

    method AddOne(ghost before: Timeline, es: seq<Entry>, i: nat)
      requires i < |es| && Added(before, es[..i], State())
      modifies this
      ensures Added(before, es[..i + 1], State())
    {
      ghost var s := State();
      hide SaveAll, Largest;
      AddNewPosition(es[i].name, es[i].position);
      AddedExtends(before, es[..i], es[i], s, State());
      assert es[..i + 1] == es[..i] + [es[i]];
    }

    /** Populating leaves a timeline that is not empty alone; an empty one
        receives every event of the five lists once, in position order, and the
        store follows. */
    method Populate(hasCursor: bool, created: seq<Entry>, exited: seq<Entry>, loaded: seq<Entry>,
                    unloaded: seq<Entry>, exceptions: seq<Entry>)
      modifies this
      ensures !hasCursor || old(positions) != [] ==> State() == old(State())
      ensures hasCursor && old(positions) == [] ==>
                && Sorted(positions, Place)
                && multiset(positions) == multiset(created + exited + loaded + unloaded + exceptions)
                && State().AllStored()
                && (forall name :: old(State()).Mirrors(name) ==> State().Mirrors(name))
    {
      if !hasCursor { return; }
      if |positions| > 0 { return; }
      AddAll(created);
      AddAll(exited);
      AddAll(loaded);
      AddAll(unloaded);
      AddAll(exceptions);
    }
  }

  // t is s after additions of es.
  ghost predicate Added(s: Timeline, es: seq<Entry>, t: Timeline) {
    && multiset(t.positions) == multiset(s.positions) + multiset(es)
    && (forall name :: s.Mirrors(name) ==> t.Mirrors(name))
    && (Sorted(s.positions, Place) ==> Sorted(t.positions, Place))
    && (es != [] || s.AllStored() ==> t.AllStored())
  }

  lemma AddedExtends(before: Timeline, es: seq<Entry>, e: Entry, s: Timeline, t: Timeline)
    requires Added(before, es, s) && EditStep(s, Add(e.name, e.position), t)
    ensures Added(before, es + [e], t)
  {
    forall name | before.Mirrors(name) ensures t.Mirrors(name) {
      AddKeepsMirror(s, e.name, e.position, t, name);
    }
    AddStoresAll(s, e.name, e.position, t);
  }

  lemma VisitedNode(store: Store, todo: set<string>, node: string, before: seq<Entry>, after: seq<Entry>)
    requires node in todo && todo <= store.Keys
    requires forall e :: multiset(before)[e] ==
               if e.name != "" && PREFIX + e.name !in todo && Stored(store, e) then 1 else 0
    requires after == if |node| > 8 && node[..8] == PREFIX && store[node].Some?
                      then before + [Entry(node[8..], store[node].value)] else before
    ensures forall e :: multiset(after)[e] ==
              if e.name != "" && PREFIX + e.name !in todo - {node} && Stored(store, e) then 1 else 0
  {
    forall e ensures multiset(after)[e] ==
                       if e.name != "" && PREFIX + e.name !in todo - {node} && Stored(store, e) then 1 else 0
    {
      NodeNames(e.name, e.name);
      if node == PREFIX + e.name {
        assert node[8..] == e.name && node[..8] == PREFIX;
      } else if |node| > 8 && node[..8] == PREFIX {
        assert node == PREFIX + node[8..];
      }
    }
  }
}
