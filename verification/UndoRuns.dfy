/**
 Whole lives of the undo log: any interleaving of recording and closing, with any
 commands failing. The log is compared with a journal that only remembers what was
 recorded and how every try of it came out.
 */
module UndoRuns {
  import opened Octets
  import opened Host
  import opened Restoration
  import opened UndoLog

  /** What `Close` calls for each operation, in the order of the calls. */
  function UndoCalls(ops: seq<Op>): seq<Call>
    requires Replay(ops).Some?
  {
    if ops == [] then []
    else
      var before, op := ops[..|ops| - 1], ops[|ops| - 1];
      UndoCalls(before) + if op.Closed? then CloseCalls(Replay(before).value, op.outs) else []
  }

  // ---------------------------------------------------------------- the journal

  /** A try of the undo recorded at position `at`. */
  datatype Try = Try(at: nat, r: Outcome)

  datatype Journal = Journal(recorded: seq<Command>, tries: seq<Try>)

  /** Some try of the undo at position `i` succeeded or was tolerated. */
  predicate Settled(j: Journal, i: nat) {
    i < |j.recorded| && exists k :: 0 <= k < |j.tries| && j.tries[k].at == i && Settles(j.recorded[i], j.tries[k].r)
  }

  /** The first `n` positions that are not settled, in order. */
  function Waiting(j: Journal, n: nat): seq<nat> {
    if n == 0 then [] else Waiting(j, n - 1) + if Settled(j, n - 1) then [] else [n - 1]
  }

  function TriesOf(at: seq<nat>, outs: seq<Outcome>): seq<Try> {
    if at == [] || outs == [] then [] else TriesOf(at[1..], outs[1..]) + [Try(at[0], outs[0])]
  }

  function JournalOf(ops: seq<Op>): Journal {
    if ops == [] then Journal([], [])
    else
      var j := JournalOf(ops[..|ops| - 1]);
      match ops[|ops| - 1]
      case Recorded(u) => j.(recorded := j.recorded + [u])
      case Closed(outs) => j.(tries := j.tries + TriesOf(Waiting(j, |j.recorded|), outs))
  }

  predicate Within(j: Journal, at: seq<nat>) {
    forall k :: 0 <= k < |at| ==> at[k] < |j.recorded|
  }

  function Entries(j: Journal, at: seq<nat>): (r: seq<Command>)
    requires Within(j, at)
    ensures |r| == |at|
  {
    seq(|at|, k requires 0 <= k < |at| => j.recorded[at[k]])
  }

  predicate Rising(at: seq<nat>) {
    forall k, l :: 0 <= k < l < |at| ==> at[k] < at[l]
  }

  // ---------------------------------------------------------------- rising sequences

  lemma RisingAppend(a: seq<nat>, x: nat)
    requires Rising(a) && forall i :: i in a ==> i < x
    ensures Rising(a + [x])
  {
    assert forall k :: 0 <= k < |a| ==> a[k] in a;
  }

  lemma RisingCons(x: nat, a: seq<nat>)
    requires Rising(a) && forall i :: i in a ==> x < i
    ensures Rising([x] + a)
  {
    assert forall k :: 0 <= k < |a| ==> a[k] in a;
  }

  lemma {:induction false} WaitingIs(j: Journal, n: nat)
    ensures Rising(Waiting(j, n))
    ensures forall i: nat :: i in Waiting(j, n) <==> i < n && !Settled(j, i)
  {
    hide Settled;
    if n > 0 {
      WaitingIs(j, n - 1);
      RisingAppend(Waiting(j, n - 1), n - 1);
      assert Waiting(j, n - 1) + [] == Waiting(j, n - 1);
    }
  }

  /** A rising sequence is determined by its elements. */
  lemma {:induction false} RisingUnique(a: seq<nat>, b: seq<nat>)
    requires Rising(a) && Rising(b) && forall i: nat :: i in a <==> i in b
    ensures a == b
  {
    assert b != [] ==> b[0] in b;
    if a != [] {
      assert a[0] in b;
      assert a[0] == b[0];
      var x, y := a[1..], b[1..];
      forall i: nat
        ensures i in x <==> i in y
      {
        assert i in a <==> i == a[0] || i in x;
        assert i in b <==> i == b[0] || i in y;
      }
      RisingUnique(x, y);
      assert a == [a[0]] + x && b == [b[0]] + y;
    }
  }

  /** The positions whose outcome does not settle them. */
  function Left(j: Journal, at: seq<nat>, outs: seq<Outcome>): seq<nat>
    requires Within(j, at) && |at| == |outs|
  {
    if at == [] then []
    else (if Settles(j.recorded[at[0]], outs[0]) then [] else [at[0]]) + Left(j, at[1..], outs[1..])
  }

  predicate Unsettled(j: Journal, at: seq<nat>, outs: seq<Outcome>, i: nat)
    requires Within(j, at) && |at| == |outs|
  {
    exists k :: 0 <= k < |at| && at[k] == i && !Settles(j.recorded[i], outs[k])
  }

  lemma LeftCons(j: Journal, at: seq<nat>, outs: seq<Outcome>)
    requires Within(j, at) && |at| == |outs| && at != []
    requires var rest := Left(j, at[1..], outs[1..]);
      Rising(rest) && Within(j, rest) && forall i :: i in rest ==> at[0] < i
    ensures Rising(Left(j, at, outs)) && Within(j, Left(j, at, outs))
  {
    var rest, settled := Left(j, at[1..], outs[1..]), Settles(j.recorded[at[0]], outs[0]);
    assert Left(j, at, outs) == (if settled then [] else [at[0]]) + rest;
    hide Left, Settles, Rising, Within;
    WithinCons(j, at, rest);
    RisingCons(at[0], rest);
    assert [] + rest == rest;
  }

  lemma WithinCons(j: Journal, at: seq<nat>, rest: seq<nat>)
    requires at != [] && Within(j, at) && Within(j, rest)
    ensures Within(j, [at[0]] + rest)
  {
  }

  lemma {:induction false} LeftIs(j: Journal, at: seq<nat>, outs: seq<Outcome>)
    requires Within(j, at) && |at| == |outs| && Rising(at)
    ensures Rising(Left(j, at, outs)) && Within(j, Left(j, at, outs))
    ensures forall i: nat :: i in Left(j, at, outs) <==> Unsettled(j, at, outs, i)
  {
    if at != [] {
      hide Settles, Unsettled, Left;
      var others, tail := at[1..], outs[1..];
      LeftIs(j, others, tail);
      forall i | i in Left(j, others, tail)
        ensures at[0] < i
      {
        UnsettledIn(j, others, tail, i);
        var k :| 0 <= k < |others| && others[k] == i;
        assert at[k + 1] == i;
      }
      LeftCons(j, at, outs);
      forall i: nat
        ensures i in Left(j, at, outs) <==> Unsettled(j, at, outs, i)
      {
        LeftStep(j, at, outs, i);
      }
    }
  }

  lemma UnsettledIn(j: Journal, at: seq<nat>, outs: seq<Outcome>, i: nat)
    requires Within(j, at) && |at| == |outs| && Unsettled(j, at, outs, i)
    ensures i in at
  {
  }

  lemma LeftStep(j: Journal, at: seq<nat>, outs: seq<Outcome>, i: nat)
    requires Within(j, at) && |at| == |outs| && at != []
    requires i in Left(j, at[1..], outs[1..]) <==> Unsettled(j, at[1..], outs[1..], i)
    ensures i in Left(j, at, outs) <==> Unsettled(j, at, outs, i)
  {
    hide Settles;
    var rest := Left(j, at[1..], outs[1..]);
    if i in rest {
      var k :| 0 <= k < |at| - 1 && at[1..][k] == i && !Settles(j.recorded[i], outs[1..][k]);
      assert at[k + 1] == i && outs[k + 1] == outs[1..][k];
    }
    if k :| 0 <= k < |at| && at[k] == i && !Settles(j.recorded[i], outs[k]) {
      if k > 0 {
        assert at[1..][k - 1] == i && outs[1..][k - 1] == outs[k];
      }
    }
  }

  lemma {:induction false} KeptIsLeft(j: Journal, at: seq<nat>, outs: seq<Outcome>)
    requires Within(j, at) && |at| == |outs| && Within(j, Left(j, at, outs))
    ensures Kept(Entries(j, at), outs) == Entries(j, Left(j, at, outs))
  {
    if at != [] {
      var e := Entries(j, at);
      assert e[1..] == Entries(j, at[1..]);
      assert Left(j, at, outs)[if Settles(j.recorded[at[0]], outs[0]) then 0 else 1..] == Left(j, at[1..], outs[1..]);
      KeptIsLeft(j, at[1..], outs[1..]);
    }
  }

  lemma {:induction false} TriesAre(at: seq<nat>, outs: seq<Outcome>)
    requires |at| == |outs|
    ensures |TriesOf(at, outs)| == |at|
    ensures forall k :: 0 <= k < |at| ==> TriesOf(at, outs)[|at| - 1 - k] == Try(at[k], outs[k])
  {
    if at != [] {
      TriesAre(at[1..], outs[1..]);
    }
  }

  /** Within one `Close` the later position is tried first. */
  lemma LaterFirst(at: seq<nat>, outs: seq<Outcome>, k: nat, l: nat)
    requires |at| == |outs| && Rising(at) && k < l < |TriesOf(at, outs)|
    ensures TriesOf(at, outs)[l].at < TriesOf(at, outs)[k].at
  {
    TriesAre(at, outs);
    assert TriesOf(at, outs)[|at| - 1 - (|at| - 1 - k)] == Try(at[|at| - 1 - k], outs[|at| - 1 - k]);
    assert TriesOf(at, outs)[|at| - 1 - (|at| - 1 - l)] == Try(at[|at| - 1 - l], outs[|at| - 1 - l]);
  }

  /** After a `Close` the positions left waiting are those it tried and did not settle. */
  lemma ClosingLeaves(j: Journal, outs: seq<Outcome>)
    requires |outs| == |Waiting(j, |j.recorded|)|
    ensures Within(j, Waiting(j, |j.recorded|))
    ensures var at := Waiting(j, |j.recorded|);
      Waiting(j.(tries := j.tries + TriesOf(at, outs)), |j.recorded|) == Left(j, at, outs)
  {
    hide Settles;
    var n := |j.recorded|;
    var at := Waiting(j, n);
    WaitingIs(j, n);
    assert forall k :: 0 <= k < |at| ==> at[k] in at;
    var j' := j.(tries := j.tries + TriesOf(at, outs));
    WaitingIs(j', n);
    LeftIs(j, at, outs);
    TriesAre(at, outs);
    forall i: nat
      ensures i in Waiting(j', n) <==> i in Left(j, at, outs)
    {
      if i < n {
        TriedNow(j, at, outs, i);
      }
    }
    RisingUnique(Waiting(j', n), Left(j, at, outs));
  }

  /** A try in this list settles position `i`. */
  predicate SettledBy(j: Journal, tries: seq<Try>, i: nat) {
    i < |j.recorded| && exists k :: 0 <= k < |tries| && tries[k].at == i && Settles(j.recorded[i], tries[k].r)
  }

  lemma SettledIn(j: Journal, now: seq<Try>, i: nat)
    requires i < |j.recorded|
    ensures Settled(j.(tries := j.tries + now), i) <==> Settled(j, i) || SettledBy(j, now, i)
  {
    hide Settles;
    var all := j.tries + now;
    if k :| 0 <= k < |all| && all[k].at == i && Settles(j.recorded[i], all[k].r) {
      assert if k < |j.tries| then all[k] == j.tries[k] else all[k] == now[k - |j.tries|];
    }
    if k :| 0 <= k < |j.tries| && j.tries[k].at == i && Settles(j.recorded[i], j.tries[k].r) {
      assert all[k] == j.tries[k];
    }
    if k :| 0 <= k < |now| && now[k].at == i && Settles(j.recorded[i], now[k].r) {
      assert all[|j.tries| + k] == now[k];
    }
  }

  lemma TriedNow(j: Journal, at: seq<nat>, outs: seq<Outcome>, i: nat)
    requires i < |j.recorded| && |at| == |outs| && Rising(at)
    ensures Settled(j.(tries := j.tries + TriesOf(at, outs)), i)
      <==> Settled(j, i) || exists k :: 0 <= k < |at| && at[k] == i && Settles(j.recorded[i], outs[k])
  {
    hide Settles, Settled, TriesOf, Rising;
    var now := TriesOf(at, outs);
    TriesAre(at, outs);
    SettledIn(j, now, i);
    if k :| 0 <= k < |now| && now[k].at == i && Settles(j.recorded[i], now[k].r) {
      var l := |at| - 1 - k;
      assert now[|at| - 1 - l] == Try(at[l], outs[l]);
    }
    if k :| 0 <= k < |at| && at[k] == i && Settles(j.recorded[i], outs[k]) {
      assert now[|at| - 1 - k] == Try(at[k], outs[k]);
    }
  }

  lemma {:induction false} RecordingWaits(j: Journal, u: Command, n: nat)
    requires n <= |j.recorded|
    requires forall k :: 0 <= k < |j.tries| ==> j.tries[k].at < |j.recorded|
    ensures Waiting(j.(recorded := j.recorded + [u]), n) == Waiting(j, n)
    ensures !Settled(j.(recorded := j.recorded + [u]), |j.recorded|)
  {
    hide Settles;
    if n > 0 {
      RecordingWaits(j, u, n - 1);
    }
  }

  // ---------------------------------------------------------------- conservation

  /** Only recorded undos are tried, and none again after it settled. */
  ghost predicate NoneAgain(j: Journal) {
    && (forall k :: 0 <= k < |j.tries| ==> j.tries[k].at < |j.recorded|)
    && (forall k, l :: 0 <= k < l < |j.tries| && j.tries[k].at == j.tries[l].at ==>
          !Settles(j.recorded[j.tries[k].at], j.tries[k].r))
  }

  function CallsOf(j: Journal, tries: seq<Try>): (r: seq<Call>)
    requires forall k :: 0 <= k < |tries| ==> tries[k].at < |j.recorded|
    ensures |r| == |tries|
  {
    seq(|tries|, k requires 0 <= k < |tries| => Call(j.recorded[tries[k].at], tries[k].r))
  }

  /**
   For every interleaving of `add` and `Close` and all outcomes, the log holds exactly
   the recorded undos that no try has settled, in the order they were recorded; no undo
   that settled is run again; and the tries are exactly the calls that `Close` made.
   */
  lemma {:induction false} Conservation(ops: seq<Op>)
    requires Replay(ops).Some?
    ensures NoneAgain(JournalOf(ops))
    ensures var j := JournalOf(ops); Within(j, Waiting(j, |j.recorded|))
    ensures var j := JournalOf(ops); Replay(ops).value == Entries(j, Waiting(j, |j.recorded|))
    ensures UndoCalls(ops) == CallsOf(JournalOf(ops), JournalOf(ops).tries)
  {
    hide Kept, CloseCalls, Waiting, TriesOf, Settled, Entries, NoneAgain;
    if ops == [] {
      Nothing();
    } else {
      var before, op := ops[..|ops| - 1], ops[|ops| - 1];
      var j := JournalOf(before);
      Conservation(before);
      match op {
        case Recorded(u) => Recording(j, u);
        case Closed(outs) => Closing(j, outs);
      }
    }
  }

  lemma Nothing()
    ensures var j := Journal([], []); NoneAgain(j) && Waiting(j, 0) == [] && Within(j, []) && Entries(j, []) == []
  {
  }

  lemma Recording(j: Journal, u: Command)
    requires NoneAgain(j) && Within(j, Waiting(j, |j.recorded|))
    ensures var j' := j.(recorded := j.recorded + [u]);
      && NoneAgain(j') && Within(j', Waiting(j', |j'.recorded|))
      && Entries(j', Waiting(j', |j'.recorded|)) == Entries(j, Waiting(j, |j.recorded|)) + [u]
      && CallsOf(j', j.tries) == CallsOf(j, j.tries)
  {
    var j' := j.(recorded := j.recorded + [u]);
    RecordingWaits(j, u, |j.recorded|);
    assert Waiting(j', |j'.recorded|) == Waiting(j, |j.recorded|) + [|j.recorded|];
  }

  lemma Closing(j: Journal, outs: seq<Outcome>)
    requires NoneAgain(j) && |outs| == |Waiting(j, |j.recorded|)| && Within(j, Waiting(j, |j.recorded|))
    ensures var at := Waiting(j, |j.recorded|);
      var j' := j.(tries := j.tries + TriesOf(at, outs));
      && NoneAgain(j') && Within(j', Waiting(j', |j'.recorded|))
      && Entries(j', Waiting(j', |j'.recorded|)) == Kept(Entries(j, at), outs)
      && CallsOf(j', j'.tries) == CallsOf(j, j.tries) + CloseCalls(Entries(j, at), outs)
  {
    hide Settles, Kept, Left, CloseCalls, Waiting, TriesOf;
    var n := |j.recorded|;
    var at := Waiting(j, n);
    var now := TriesOf(at, outs);
    var j' := j.(tries := j.tries + now);
    ClosingLeaves(j, outs);
    WaitingIs(j, n);
    WaitingIs(j', n);
    LeftIs(j, at, outs);
    KeptIsLeft(j, at, outs);
    TriesAre(at, outs);
    CallsAre(j, at, outs);
    ClosingNoneAgain(j, outs);
    assert CallsOf(j', j'.tries) == CallsOf(j, j.tries) + CallsOf(j, now);
  }

  lemma ClosingNoneAgain(j: Journal, outs: seq<Outcome>)
    requires NoneAgain(j) && |outs| == |Waiting(j, |j.recorded|)|
    ensures NoneAgain(j.(tries := j.tries + TriesOf(Waiting(j, |j.recorded|), outs)))
    ensures forall k :: 0 <= k < |TriesOf(Waiting(j, |j.recorded|), outs)| ==>
      TriesOf(Waiting(j, |j.recorded|), outs)[k].at < |j.recorded|
  {
    hide Settles, Waiting, TriesOf;
    var at := Waiting(j, |j.recorded|);
    var now := TriesOf(at, outs);
    var j' := j.(tries := j.tries + now);
    WaitingIs(j, |j.recorded|);
    TriesAre(at, outs);
    forall k | 0 <= k < |now|
      ensures now[k].at in at
    {
      var l := |at| - 1 - k;
      assert now[|at| - 1 - l] == Try(at[l], outs[l]);
    }
    forall k, l | 0 <= k < l < |j'.tries| && j'.tries[k].at == j'.tries[l].at
      ensures !Settles(j.recorded[j'.tries[k].at], j'.tries[k].r)
    {
      if |j.tries| <= k {
        LaterFirst(at, outs, k - |j.tries|, l - |j.tries|);
      } else if |j.tries| <= l {
        assert !Settled(j, now[l - |j.tries|].at);
      }
    }
  }

  lemma {:induction false} CallsAre(j: Journal, at: seq<nat>, outs: seq<Outcome>)
    requires Within(j, at) && |at| == |outs|
    ensures forall k :: 0 <= k < |TriesOf(at, outs)| ==> TriesOf(at, outs)[k].at < |j.recorded|
    ensures CallsOf(j, TriesOf(at, outs)) == CloseCalls(Entries(j, at), outs)
  {
    if at != [] {
      CallsAre(j, at[1..], outs[1..]);
      assert Entries(j, at)[1..] == Entries(j, at[1..]);
    }
  }
}
