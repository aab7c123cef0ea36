/** The log of undo commands: what `add` records, what `Close` runs, and what it keeps for another try. */
module UndoLog {
  import opened Octets
  import opened Host
  import opened Restoration

  /** The entries whose command did not settle, in order. */
  function Kept(undo: seq<Command>, outs: seq<Outcome>): seq<Command>
    requires |undo| == |outs|
  {
    if undo == [] then []
    else (if Settles(undo[0], outs[0]) then [] else [undo[0]]) + Kept(undo[1..], outs[1..])
  }

  function Reversed<T>(s: seq<T>): seq<T> {
    if s == [] then [] else Reversed(s[1..]) + [s[0]]
  }

  /** The calls of one `Close`: the last entry first. */
  function CloseCalls(undo: seq<Command>, outs: seq<Outcome>): seq<Call>
    requires |undo| == |outs|
  {
    if undo == [] then [] else CloseCalls(undo[1..], outs[1..]) + [Call(undo[0], outs[0])]
  }

  lemma {:induction false} ReversedAt<T>(s: seq<T>, k: nat)
    requires k < |s|
    ensures |Reversed(s)| == |s| && Reversed(s)[k] == s[|s| - 1 - k]
  {
    if |s| > 1 {
      ReversedAt(s[1..], if k < |s| - 1 then k else 0);
    }
  }

  lemma ReversedIs<T>(s: seq<T>, t: seq<T>)
    requires |t| == |s| && forall k :: 0 <= k < |s| ==> t[k] == s[|s| - 1 - k]
    ensures t == Reversed(s)
  {
    forall k | 0 <= k < |s|
      ensures |Reversed(s)| == |s| && Reversed(s)[k] == t[k]
    {
      ReversedAt(s, k);
    }
    assert s == [] ==> t == [];
  }

  lemma KeptStep(undo: seq<Command>, outs: seq<Outcome>, i: nat, r: Outcome)
    requires i < |undo| && |outs| == |undo| - i - 1
    ensures [undo[i]] + undo[i + 1..] == undo[i..]
    ensures Kept(undo[i..], [r] + outs)
      == (if Settles(undo[i], r) then [] else [undo[i]]) + Kept(undo[i + 1..], outs)
    ensures CloseCalls(undo[i..], [r] + outs) == CloseCalls(undo[i + 1..], outs) + [Call(undo[i], r)]
  {
    assert undo[i..][1..] == undo[i + 1..] && ([r] + outs)[1..] == outs;
  }

  /** Part way through `Close`, the entries not yet tried and those kept are what is still owed. */
  ghost predicate StillOwed(site: Site, w0: World, w: World, undo: seq<Command>, outs: seq<Outcome>, i: nat)
    requires i <= |undo| && |outs| == |undo| - i
  {
    var owed := undo[..i] + Kept(undo[i..], outs);
    Debt(site, w0, w, owed) && AllUndo(owed)
  }

  lemma OwedStep(site: Site, w0: World, w: World, undo: seq<Command>, outs: seq<Outcome>, i: nat, r: Outcome, w': World)
    requires i < |undo| && |outs| == |undo| - i - 1
    requires StillOwed(site, w0, w, undo, outs, i + 1) && Runs(w, undo[i], r, w')
    ensures StillOwed(site, w0, w', undo, [r] + outs, i)
  {
    hide Debt, Effect, Kept, CloseCalls;
    var kept := Kept(undo[i + 1..], outs);
    var owed := undo[..i + 1] + kept;
    KeptStep(undo, outs, i, r);
    assert owed[i] == undo[i];
    assert owed == undo[..i] + ([undo[i]] + kept);
    if Settles(undo[i], r) {
      SettlingKeepsDebt(site, w0, w, owed, i, r, w');
      var rest := undo[..i] + kept;
      assert Removed(owed, i) == rest;
      assert rest == undo[..i] + ([] + kept);
      assert forall k :: 0 <= k < |rest| ==> rest[k] == owed[if k < i then k else k + 1];
    }
  }

  lemma LogStart(site: Site, w0: World, w: World, undo: seq<Command>)
    ensures Kept(undo[|undo|..], []) == [] == Reversed<Command>([])
    ensures CloseCalls(undo[|undo|..], []) == []
    ensures StillOwed(site, w0, w, undo, [], |undo|) <==> Debt(site, w0, w, undo) && AllUndo(undo)
  {
    hide Debt;
    assert undo[..|undo|] + Kept(undo[|undo|..], []) == undo;
  }

  lemma LogEnd(site: Site, w0: World, w: World, undo: seq<Command>, outs: seq<Outcome>)
    requires |outs| == |undo|
    ensures undo[0..] == undo
    ensures StillOwed(site, w0, w, undo, outs, 0) <==> Debt(site, w0, w, Kept(undo, outs)) && AllUndo(Kept(undo, outs))
  {
    hide Debt, Kept;
    assert undo[0..] == undo;
    assert undo[..0] + Kept(undo, outs) == Kept(undo, outs);
  }

  lemma SettlesIf(c: Command, r: Outcome)
    ensures Settles(c, r) <==> r == Done || (c.RouteDelete? && r == NotInTable)
  {
  }

  lemma ReversedAll<T>(s: seq<T>)
    ensures |Reversed(s)| == |s|
  {
    if s != [] {
      ReversedAt(s, 0);
    }
  }

  /** One operation on the log: `add` recorded an undo, or `Close` ran with these outcomes, one for each entry. */
  datatype Op = Recorded(u: Command) | Closed(outs: seq<Outcome>)

  /** The log after the operations. */
  function Replay(ops: seq<Op>): Option<seq<Command>> {
    if ops == [] then Some([])
    else
      var before, op := Replay(ops[..|ops| - 1]), ops[|ops| - 1];
      if before.None? then None
      else match op
        case Recorded(u) => Some(before.value + [u])
        case Closed(outs) => if |outs| == |before.value| then Some(Kept(before.value, outs)) else None
  }

  lemma ReplayNext(ops: seq<Op>, op: Op)
    ensures Replay(ops + [op]) ==
      var before := Replay(ops);
      if before.None? then None
      else match op
        case Recorded(u) => Some(before.value + [u])
        case Closed(outs) => if |outs| == |before.value| then Some(Kept(before.value, outs)) else None
  {
    assert (ops + [op])[..|ops|] == ops;
  }

  ghost predicate Sound(site: Site, w0: World, w: World, undo: seq<Command>) {
    Clean(site, w0, w, undo) && AllUndo(undo)
  }

  /** Addressing the tunnel needs no undo; every other command is recorded with the undo of its own part. */
  predicate Undone(site: Site, w: World, undo: seq<Command>, c: Command, back: Option<Command>) {
    if back.None? then c.Configure? && c.iface == site.tun && c.own <= site.own
    else Pairs(site, w, c, back.value) && PartOf(back.value) !in Parts(undo)
  }

  lemma AddingKeepsSound(site: Site, w0: World, w: World, undo: seq<Command>, c: Command, back: Option<Command>,
      w': World)
    requires Sound(site, w0, w, undo) && Undone(site, w, undo, c, back) && Effect(w, c, w')
    ensures Sound(site, w0, w', undo + if back.Some? then [back.value] else [])
  {
    hide Clean, Parts, Effect;
    if back.Some? {
      DoingKeepsClean(site, w0, w, undo, c, back.value, w');
    } else {
      ConfiguringKeepsClean(site, w0, w, undo, c.v6, c.own, w');
      assert undo + [] == undo;
    }
  }

  /** No route appears or changes. */
  predicate OnlyLoses(w: World, w': World) {
    forall d :: d in w'.routes ==> d in w.routes && w'.routes[d] == w.routes[d]
  }

  lemma LosesNothing(w: World)
    ensures OnlyLoses(w, w)
  {
  }

  lemma UndoOnlyLoses(w0: World, w: World, undo: seq<Command>, i: nat, r: Outcome, w': World)
    requires AllUndo(undo) && i < |undo| && Runs(w, undo[i], r, w') && OnlyLoses(w0, w)
    ensures OnlyLoses(w0, w')
  {
  }

  datatype AddResult = Added | NotStarted | DoFailed | AddedThenCancelled

  class Manager {
    var undo: seq<Command>
    const host: Machine
    /** What has happened to the log. */
    ghost var past: seq<Op>

    ghost predicate Valid()
      reads this
    {
      Replay(past) == Some(undo)
    }

    constructor (host: Machine)
      ensures Valid() && this.host == host && undo == [] && past == []
    {
      this.host, undo, past := host, [], [];
    }

    /**
     Nothing runs once the context is cancelled; a command that ran is recorded even if cancellation
     struck meanwhile.
     */
    method Add(do: Command, back: Option<Command>, ghost site: Site, ghost w0: World) returns (r: AddResult)
      requires Valid()
      modifies this, host
      ensures Valid()
      ensures old(Sound(site, w0, host.w, undo) && Undone(site, host.w, undo, do, back))
        ==> Sound(site, w0, host.w, undo)
      ensures past == old(past)
        + if back.Some? && (r.Added? || r.AddedThenCancelled?) then [Recorded(back.value)] else []
      ensures old(host.cancelled) ==> r == NotStarted
      ensures old(host.cancelled) || r.NotStarted? || r.AddedThenCancelled? ==> host.cancelled
      ensures host.faults == old(host.faults) + if r.DoFailed? then 1 else 0
      ensures r.NotStarted? ==> host.w == old(host.w) && host.calls == old(host.calls) && undo == old(undo)
      ensures r.DoFailed? ==> host.w == old(host.w) && undo == old(undo)
      ensures r.DoFailed? ==> exists o :: o != Done && host.calls == old(host.calls) + [Call(do, o)]
      ensures r.Added? || r.AddedThenCancelled? ==> Effect(old(host.w), do, host.w)
      ensures r.Added? || r.AddedThenCancelled? ==> host.calls == old(host.calls) + [Call(do, Done)]
      ensures r.Added? || r.AddedThenCancelled? ==> undo == old(undo) + if back.Some? then [back.value] else []
    {
      hide Sound, Undone, Effect, Replay;
      var done := host.ContextDone();
      if done {
        return NotStarted;
      }
      ghost var w1, log := host.w, undo;
      var o := host.Run(do);
      if o != Done {
        return DoFailed;
      }
      if back.Some? {
        ReplayNext(past, Recorded(back.value));
        undo, past := undo + [back.value], past + [Recorded(back.value)];
      }
      if Sound(site, w0, w1, log) && Undone(site, w1, log, do, back) {
        assert log + [] == log;
        AddingKeepsSound(site, w0, w1, log, do, back, host.w);
      }
      done := host.ContextDone();
      r := if done then AddedThenCancelled else Added;
    }

    /** Runs every entry, last first, whatever fails; keeps exactly the entries that did not settle, in their order. */
    method Close(ghost site: Site, ghost w0: World) returns (ok: bool, ghost outs: seq<Outcome>)
      requires Valid()
      modifies this, host
      ensures Valid() && past == old(past) + [Closed(outs)]
      ensures old(Debt(site, w0, host.w, undo) && AllUndo(undo)) ==> Debt(site, w0, host.w, undo) && AllUndo(undo)
      ensures old(AllUndo(undo)) ==> OnlyLoses(old(host.w), host.w)
      ensures |outs| == |old(undo)|
      ensures undo == Kept(old(undo), outs)
      ensures host.calls == old(host.calls) + CloseCalls(old(undo), outs)
      ensures ok <==> undo == []
      ensures old(host.cancelled) ==> host.cancelled
      ensures host.faults >= old(host.faults)
    {
      hide Debt, AllUndo, Effect, Kept, CloseCalls, StillOwed, Reversed, Settles, OnlyLoses;
      var failed: seq<Command> := [];
      ok, outs := true, [];
      ghost var w1, log := host.w, undo;
      ghost var owes := Debt(site, w0, w1, log) && AllUndo(log);
      LogStart(site, w0, w1, log);
      LosesNothing(w1);
      var i := |undo|;
      while i > 0
        invariant 0 <= i <= |undo| && undo == log && Valid() && past == old(past) && |outs| == |log| - i
        invariant Reversed(failed) == Kept(log[i..], outs)
        invariant host.calls == old(host.calls) + CloseCalls(log[i..], outs)
        invariant ok <==> failed == []
        invariant AllUndo(log) ==> OnlyLoses(w1, host.w)
        invariant owes ==> StillOwed(site, w0, host.w, log, outs, i)
        invariant old(host.cancelled) ==> host.cancelled
        invariant host.faults >= old(host.faults)
      {
        i := i - 1;
        ghost var was, before := host.w, failed;
        var r := host.Run(undo[i]);
        if AllUndo(log) {
          UndoOnlyLoses(w1, was, log, i, r, host.w);
        }
        if owes {
          OwedStep(site, w0, was, log, outs, i, r, host.w);
        }
        KeptStep(log, outs, i, r);
        if r != Done {
          if !(undo[i].RouteDelete? && r == NotInTable) {
            ok := false;
            failed := failed + [undo[i]];
          }
        }
        SettlesIf(log[i], r);
        ReversedAppend(before, log[i]);
        outs := [r] + outs;
      }
      LogEnd(site, w0, host.w, log, outs);
      var a, b := 0, |failed| - 1;
      ghost var original := failed;
      while a < b
        invariant 0 <= a <= b + 1 && a + b == |failed| - 1 == |original| - 1
        invariant forall k :: 0 <= k < |original| && (k < a || k > b) ==> failed[k] == original[|original| - 1 - k]
        invariant forall k :: a <= k <= b ==> failed[k] == original[k]
        decreases b - a
      {
        var x, y := failed[a], failed[b];
        failed := failed[a := y][b := x];
        a, b := a + 1, b - 1;
      }
      ReversedIs(original, failed);
      ReversedAll(original);
      ReplayNext(past, Closed(outs));
      undo, past := failed, past + [Closed(outs)];
    }
  }

  lemma {:induction false} ReversedAppend<T>(s: seq<T>, x: T)
    ensures Reversed(s + [x]) == [x] + Reversed(s)
  {
    if s == [] {
      assert [x][1..] == [] && s + [x] == [x];
    } else {
      ReversedAppend(s[1..], x);
      assert (s + [x])[1..] == s[1..] + [x];
    }
  }
}
