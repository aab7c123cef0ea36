/**
 Whole lives of a network setup as a state machine: commands in any number, undos
 tried in any order and any number of times, the tunnel's routes vanishing at any
 moment. Whatever happened, once no undo is left the machine is what it was.
 */
module NetworkRuns {
  import opened Octets
  import opened Host
  import opened Restoration

  /** `closing` is set by the first undo; no command of the setup runs after it. */
  datatype Net = Net(w: World, undo: seq<Command>, closing: bool)

  datatype Step =
    | Addressing(v6: bool)
    | Doing(c: Command, back: Command)
    | Undoing(i: nat, r: Outcome)
    | Vanishing

  ghost predicate Takes(site: Site, s: Net, e: Step, s': Net) {
    match e
    case Addressing(v6) =>
      !s.closing && Effect(s.w, Configure(site.tun, v6, site.own), s'.w) && s' == s.(w := s'.w)
    case Doing(c, u) =>
      && !s.closing && Effect(s.w, c, s'.w) && Pairs(site, s.w, c, u) && PartOf(u) !in Parts(s.undo)
      && s' == Net(s'.w, s.undo + [u], false)
    case Undoing(i, r) =>
      && i < |s.undo| && Runs(s.w, s.undo[i], r, s'.w)
      && s' == Net(s'.w, if Settles(s.undo[i], r) then Removed(s.undo, i) else s.undo, true)
    case Vanishing =>
      Vanishes(site, s.w, s'.w) && s' == s.(w := s'.w)
  }

  /** Some routes of the tunnel went away with it. */
  ghost predicate Vanishes(site: Site, w: World, w': World) {
    && SameButRoutes(w, w')
    && (forall d :: d in w'.routes ==> d in w.routes && w'.routes[d] == w.routes[d])
    && (forall d :: d in w.routes && d !in w'.routes ==> w.routes[d].iface == site.tun)
  }

  ghost predicate IsRun(site: Site, states: seq<Net>, steps: seq<Step>) {
    && |states| == |steps| + 1
    && forall k :: 0 <= k < |steps| ==> Takes(site, states[k], steps[k], states[k + 1])
  }

  /** Before the first undo the chains are exact too; from then on the debt is all that is kept. */
  ghost predicate Owed(site: Site, w0: World, s: Net) {
    && AllUndo(s.undo)
    && Debt(site, w0, s.w, s.undo)
    && (!s.closing ==> Clean(site, w0, s.w, s.undo))
  }

  lemma PairIsUndo(site: Site, w: World, c: Command, u: Command)
    requires Pairs(site, w, c, u)
    ensures IsUndo(u)
  {
  }

  lemma StepKeepsOwed(site: Site, w0: World, s: Net, e: Step, s': Net)
    requires Owed(site, w0, s) && Takes(site, s, e, s')
    ensures Owed(site, w0, s')
  {
    hide Debt, Effect, Pairs, Parts, PartOf;
    match e {
      case Addressing(v6) =>
        ConfiguringKeepsClean(site, w0, s.w, s.undo, v6, site.own, s'.w);
        CleanOwes(site, w0, s'.w, s'.undo);
      case Doing(c, u) =>
        PairIsUndo(site, s.w, c, u);
        DoingKeepsClean(site, w0, s.w, s.undo, c, u, s'.w);
        CleanOwes(site, w0, s'.w, s'.undo);
      case Undoing(i, r) =>
        if Settles(s.undo[i], r) {
          SettlingKeepsDebt(site, w0, s.w, s.undo, i, r, s'.w);
          RemovedAt(s.undo, i);
        }
      case Vanishing =>
        VanishingKeepsDebt(site, w0, s.w, s.undo, s'.w);
    }
  }

  lemma CleanOwes(site: Site, w0: World, w: World, undo: seq<Command>)
    requires Clean(site, w0, w, undo)
    ensures Debt(site, w0, w, undo)
  {
    hide Debt, Parts;
  }

  lemma NothingDone(site: Site, w0: World)
    ensures Owed(site, w0, Net(w0, [], false))
  {
    assert Inserted([], false) == [] && Inserted([], true) == [];
    assert Parts([]) == {};
  }

  /** At every point of every run the log is exactly what the machine still owes. */
  lemma {:induction false} RunKeepsOwed(site: Site, w0: World, states: seq<Net>, steps: seq<Step>, k: nat)
    requires IsRun(site, states, steps) && states[0] == Net(w0, [], false) && k < |states|
    ensures Owed(site, w0, states[k])
  {
    hide Owed, Takes;
    if k == 0 {
      NothingDone(site, w0);
    } else {
      RunKeepsOwed(site, w0, states, steps, k - 1);
      StepKeepsOwed(site, w0, states[k - 1], steps[k - 1], states[k]);
    }
  }

  /**
   Whenever the log is empty, after any commands, failures and retries in any order,
   every lasting route, DNS server, setting and forwarding rule is the original one,
   and the masquerading chain is the original one or, only if it already held the rule
   before its end, has one copy of the rule moved to the end.
   */
  lemma {:induction false} RunRestores(site: Site, w0: World, states: seq<Net>, steps: seq<Step>, k: nat)
    requires IsRun(site, states, steps) && states[0] == Net(w0, [], false) && k < |states| && states[k].undo == []
    ensures Restored(site, w0, states[k].w)
    ensures forall d :: d in states[k].w.routes && states[k].w.routes[d].iface == site.tun ==> Brought(site, w0, d)
    ensures forall v6 :: multiset(TableOf(states[k].w, v6).postrouting) == multiset(TableOf(w0, v6).postrouting)
    ensures forall v6 :: OnlyTrailing(TableOf(w0, v6).postrouting, Masquerade(site, v6)) ==>
      TableOf(states[k].w, v6).postrouting == TableOf(w0, v6).postrouting
  {
    hide Takes, Debt;
    RunKeepsOwed(site, w0, states, steps, k);
    NothingOwed(site, w0, states[k].w);
    forall v6
      ensures var was, now := TableOf(w0, v6).postrouting, TableOf(states[k].w, v6).postrouting;
        multiset(now) == multiset(was) && (OnlyTrailing(was, Masquerade(site, v6)) ==> now == was)
    {
      AppendDelete(TableOf(w0, v6).postrouting, Masquerade(site, v6));
    }
  }

  // ---------------------------------------------------------------- exact cases

  /**
   Where the kernel cloned no routes and the tunnel had none, a restored machine has exactly the
   original routes but for the tunnel's own addresses, and exactly the original ones once those
   went away with the tunnel: no split route and no pin is left.
   */
  lemma RoutesExact(site: Site, w0: World, w: World)
    requires Restored(site, w0, w)
    requires forall d :: d in w0.routes ==> !Cloned(w0.routes[d]) && w0.routes[d].iface != site.tun
    requires forall d :: d in w.routes ==> !Cloned(w.routes[d])
    ensures Without(w.routes, site.tun) == w0.routes
    ensures forall d :: d in w.routes && w.routes[d].iface == site.tun ==> d in site.own
    ensures w.routes == w0.routes <==> forall d :: d in w.routes ==> w.routes[d].iface != site.tun
  {
    var rest := Without(w.routes, site.tun);
    forall d
      ensures d in rest <==> d in w0.routes
      ensures d in rest ==> rest[d] == w0.routes[d]
    {
      assert Own(w, d, site.tun) == Own(w0, d, site.tun);
    }
    if forall d :: d in w.routes ==> w.routes[d].iface != site.tun {
      assert rest == w.routes;
    }
  }

  /** The undo of a split route is part of what is owed: a log without it is not the machine's. */
  lemma SplitRouteIsOwed(site: Site, w0: World, w: World, undo: seq<Command>, d: Dest)
    requires Debt(site, w0, w, undo) && d in w.routes && w.routes[d].iface == site.tun && !Brought(site, w0, d)
    ensures exists k :: 0 <= k < |undo| && undo[k] == RouteDelete(d)
  {
    var k :| 0 <= k < |undo| && PartOf(undo[k]) == RoutePart(d);
  }

  /**
   A pin and its undo give back the routes exactly when there was no entry at its place: an entry
   the kernel had cloned there is not put back.
   */
  lemma PinAndUnpin(w0: World, w1: World, w2: World, d: Dest, t: Target)
    requires Effect(w0, RouteAdd(d, t), w1) && Effect(w1, RouteDelete(d), w2)
    ensures w2.routes == w0.routes <==> d !in w0.routes
    ensures w2.routes == w0.routes - {d}
  {
  }

  /**
   Appending the rule and deleting it again gives back the chain exactly when every copy of it
   already there was at the end.
   */
  lemma MasqueradeAndBack(w0: World, w1: World, w2: World, v6: bool, r: Rule)
    requires Effect(w0, NatAppend(v6, r), w1) && Effect(w1, NatDelete(v6, r), w2)
    ensures TableOf(w2, v6).postrouting == TableOf(w0, v6).postrouting <==> OnlyTrailing(TableOf(w0, v6).postrouting, r)
  {
    AppendDelete(TableOf(w0, v6).postrouting, r);
  }
}
