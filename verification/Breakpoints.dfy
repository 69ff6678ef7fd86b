/** Translation of breakpoint batches into watchpoint calls. */
module Breakpoints {
  import opened Recordings
  import opened Cursors

  datatype BptType = BptWrite | BptRead | BptReadWrite | BptExec | BptDefault | BptOther

  datatype Bpt = Bpt(ea: Address, kind: BptType)

  // Reads and writes are watched if asked for, and execution in all other cases.
  function FromIdaBptType(t: BptType): (flags: set<Access>)
    ensures Read in flags <==> t == BptRead || t == BptReadWrite
    ensures Write in flags <==> t == BptWrite || t == BptReadWrite
    ensures Execute in flags <==> t == BptExec || t == BptDefault || t == BptOther
  {
    match t
    case BptWrite => {Write}
    case BptRead => {Read}
    case BptReadWrite => {Read, Write}
    case _ => {Execute}
  }

  // The flags are those of the batch's first entry, whichever entry is meant.
  function DataFor(bpts: seq<Bpt>, i: nat, size: nat): Watchpoint
    requires i < |bpts|
  {
    Watchpoint(bpts[i].ea, size, FromIdaBptType(bpts[0].kind))
  }

  function Adds(bpts: seq<Bpt>, n: nat, size: nat): seq<WatchpointCall>
    requires n <= |bpts|
  {
    seq(n, i requires 0 <= i < n => Added(DataFor(bpts, i, size)))
  }

  function Removes(bpts: seq<Bpt>, from: nat, to: nat, size: nat): seq<WatchpointCall>
    requires from <= to <= |bpts|
  {
    seq(to - from, i requires 0 <= i < to - from => Removed(DataFor(bpts, from + i, size)))
  }

  // What the source does with the first nadd entries and the next ndel: its
  // second loop goes on counting where the first one stopped.
  function CallsMade(bpts: seq<Bpt>, nadd: nat, ndel: nat, size: nat): seq<WatchpointCall>
    requires |bpts| == nadd + ndel
  {
    Adds(bpts, nadd, size) + if nadd < ndel then Removes(bpts, nadd, ndel, size) else []
  }

  /** Of a batch, the additions are made first and then so many deletions as
      exceed them in number; each for its own address, with the first entry's
      flags. */
  lemma BatchCalls(bpts: seq<Bpt>, nadd: nat, ndel: nat, size: nat)
    requires |bpts| == nadd + ndel
    ensures var calls := CallsMade(bpts, nadd, ndel, size);
            && |calls| == (if nadd < ndel then ndel else nadd)
            && (forall k :: 0 <= k < |calls| ==>
                  calls[k].data == Watchpoint(bpts[k].ea, size, FromIdaBptType(bpts[0].kind)))
            && (forall k :: 0 <= k < |calls| ==> (calls[k].Added? <==> k < nadd))
  {
    var adds := Adds(bpts, nadd, size);
    var removes := if nadd < ndel then Removes(bpts, nadd, ndel, size) else [];
    var calls := adds + removes;
    assert CallsMade(bpts, nadd, ndel, size) == calls;
    forall k | 0 <= k < |calls|
      ensures calls[k].data == DataFor(bpts, k, size) && (calls[k].Added? <==> k < nadd)
    {
      if k < nadd { assert calls[k] == adds[k]; } else { assert calls[k] == removes[k - nadd]; }
    }
  }

  // What the batch asks for: every entry with its own type.
  function CallsAskedFor(bpts: seq<Bpt>, nadd: nat, ndel: nat, size: nat): seq<WatchpointCall>
    requires |bpts| == nadd + ndel
  {
    seq(nadd + ndel, i requires 0 <= i < nadd + ndel =>
      var data := Watchpoint(bpts[i].ea, size, FromIdaBptType(bpts[i].kind));
      if i < nadd then Added(data) else Removed(data))
  }

  /** A batch is carried out as asked for exactly when it only adds or only
      deletes and its entries translate to the same flags. */
  lemma BatchIsCarriedOut(bpts: seq<Bpt>, nadd: nat, ndel: nat, size: nat)
    requires |bpts| == nadd + ndel
    ensures CallsMade(bpts, nadd, ndel, size) == CallsAskedFor(bpts, nadd, ndel, size) <==>
              && (nadd == 0 || ndel == 0)
              && forall i :: 0 <= i < |bpts| ==> FromIdaBptType(bpts[i].kind) == FromIdaBptType(bpts[0].kind)
  {
    var made, asked := CallsMade(bpts, nadd, ndel, size), CallsAskedFor(bpts, nadd, ndel, size);
    assert |made| == if nadd < ndel then ndel else nadd;
    if nadd == 0 || ndel == 0 {
      assert |made| == |asked|;
      assert forall i :: 0 <= i < |bpts| ==> made[i].data == DataFor(bpts, i, size);
      assert forall i :: 0 <= i < |bpts| ==> (made[i] == asked[i] <==> made[i].data == asked[i].data);
      if forall i :: 0 <= i < |bpts| ==> FromIdaBptType(bpts[i].kind) == FromIdaBptType(bpts[0].kind) {
        assert made == asked;
      } else {
        var i :| 0 <= i < |bpts| && FromIdaBptType(bpts[i].kind) != FromIdaBptType(bpts[0].kind);
        assert made[i] != asked[i];
      }
    }
  }
}
