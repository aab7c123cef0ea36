/**
 What a log of pending undos owes to the original machine. `Debt` describes every
 part of the machine by itself, so that undos commute: each settles its own part in
 whatever order they succeed.
 */
module Restoration {
  import opened Octets
  import opened Host

  // ---------------------------------------------------------------- parts of the machine

  datatype Part = RoutePart(d: Dest) | DnsPart(s: string) | SettingPart(k: string)
    | NatPart(v6: bool) | ForwardPart(v6: bool, r: Rule) | NoPart

  function PartOf(c: Command): Part {
    match c
    case RouteDelete(d) => RoutePart(d)
    case SetDns(s, _) => DnsPart(s)
    case SysctlWrite(k, _) => SettingPart(k)
    case NatDelete(v6, _) => NatPart(v6)
    case ForwardDelete(v6, r) => ForwardPart(v6, r)
    case _ => NoPart
  }

  function Parts(undo: seq<Command>): set<Part> {
    set i | 0 <= i < |undo| :: PartOf(undo[i])
  }

  /**
   The tunnel's own interface, the destinations that come with its addresses, and the masquerading
   rule of each family.
   */
  datatype Site = Site(tun: string, own: set<Dest>, rule4: Rule, rule6: Rule)

  function Masquerade(site: Site, v6: bool): Rule {
    if v6 then site.rule6 else site.rule4
  }

  /** The lasting route at `d` that is not the tunnel's own. */
  function Own(w: World, d: Dest, tun: string): Option<Route> {
    if d in w.routes && !Cloned(w.routes[d]) && w.routes[d].iface != tun then Some(w.routes[d]) else None
  }

  /** The inserted forwarding rules that are still to be deleted, the latest first. */
  function Inserted(undo: seq<Command>, v6: bool): seq<Rule> {
    if undo == [] then []
    else
      var k := |undo| - 1;
      (if undo[k].ForwardDelete? && undo[k].v6 == v6 then [undo[k].rule] else []) + Inserted(undo[..k], v6)
  }

  /**
   Deleting the first copy of the appended rule leaves the chain as it was, or moves a copy of the
   rule to the end.
   */
  predicate SameOrRotated(original: seq<Rule>, now: seq<Rule>, r: Rule) {
    now == original || now == DeleteFirst(original + [r], r)
  }

  predicate Separate(undo: seq<Command>) {
    forall i, j :: 0 <= i < j < |undo| ==> PartOf(undo[i]) != PartOf(undo[j])
  }

  ghost predicate RouteDebt(site: Site, w0: World, w: World, undo: seq<Command>) {
    forall d :: Own(w0, d, site.tun) == if RoutePart(d) in Parts(undo) then None else Own(w, d, site.tun)
  }

  /** A route bound to the tunnel that is not the setup's to delete: one of its own addresses, or there before. */
  predicate Brought(site: Site, w0: World, d: Dest) {
    d in site.own || (d in w0.routes && w0.routes[d].iface == site.tun)
  }

  /** Every other route bound to the tunnel has an undo. */
  ghost predicate TunnelDebt(site: Site, w0: World, w: World, undo: seq<Command>) {
    forall d :: d in w.routes && w.routes[d].iface == site.tun ==> Brought(site, w0, d) || RoutePart(d) in Parts(undo)
  }

  ghost predicate DnsDebt(w0: World, w: World, undo: seq<Command>) {
    && (forall i :: 0 <= i < |undo| && undo[i].SetDns? ==> Named(undo[i].servers) == Servers(w0, undo[i].service))
    && (forall s :: DnsPart(s) !in Parts(undo) ==> Servers(w, s) == Servers(w0, s))
  }

  ghost predicate SettingDebt(w0: World, w: World, undo: seq<Command>) {
    && (forall i :: 0 <= i < |undo| && undo[i].SysctlWrite? ==> undo[i].value == Setting(w0, undo[i].key))
    && (forall k :: SettingPart(k) !in Parts(undo) ==> Setting(w, k) == Setting(w0, k))
  }

  ghost predicate ForwardDebt(w0: World, w: World, undo: seq<Command>, v6: bool) {
    TableOf(w, v6).forward == Inserted(undo, v6) + TableOf(w0, v6).forward
  }

  ghost predicate NatDebt(site: Site, w0: World, w: World, undo: seq<Command>, v6: bool) {
    && (forall i :: 0 <= i < |undo| && undo[i].NatDelete? && undo[i].v6 == v6 ==>
          undo[i].rule == Masquerade(site, v6)
          && TableOf(w, v6).postrouting == TableOf(w0, v6).postrouting + [undo[i].rule])
    && (NatPart(v6) !in Parts(undo)
        ==> SameOrRotated(TableOf(w0, v6).postrouting, TableOf(w, v6).postrouting, Masquerade(site, v6)))
  }

  /** Everything but the parts named in `undo` is as it was, and every undo will make its part so. */
  ghost predicate Debt(site: Site, w0: World, w: World, undo: seq<Command>) {
    && Separate(undo)
    && RouteDebt(site, w0, w, undo) && TunnelDebt(site, w0, w, undo)
    && DnsDebt(w0, w, undo)
    && SettingDebt(w0, w, undo)
    && ForwardDebt(w0, w, undo, false) && ForwardDebt(w0, w, undo, true)
    && NatDebt(site, w0, w, undo, false) && NatDebt(site, w0, w, undo, true)
  }

  /** Before the first undo the chains are exact as well. */
  ghost predicate Clean(site: Site, w0: World, w: World, undo: seq<Command>) {
    && Debt(site, w0, w, undo)
    && forall v6 :: NatPart(v6) !in Parts(undo) ==> TableOf(w, v6).postrouting == TableOf(w0, v6).postrouting
  }

  ghost predicate Restored(site: Site, w0: World, w: World) {
    && (forall d :: Own(w, d, site.tun) == Own(w0, d, site.tun))
    && (forall d :: d in w.routes && w.routes[d].iface == site.tun ==> Brought(site, w0, d))
    && (forall s :: Servers(w, s) == Servers(w0, s))
    && (forall k :: Setting(w, k) == Setting(w0, k))
    && (forall v6 :: TableOf(w, v6).forward == TableOf(w0, v6).forward)
    && (forall v6 :: SameOrRotated(TableOf(w0, v6).postrouting, TableOf(w, v6).postrouting, Masquerade(site, v6)))
  }

  lemma NothingOwed(site: Site, w0: World, w: World)
    requires Debt(site, w0, w, [])
    ensures Restored(site, w0, w)
  {
    assert Parts([]) == {};
    assert Inserted([], false) == [] && Inserted([], true) == [];
  }

  // ---------------------------------------------------------------- doing

  /** What `networksetup` is told so that these servers are set again. */
  function Restoring(servers: seq<string>): seq<string> {
    if servers == [] then ["Empty"] else servers
  }

  /** The undo that the setup records for a command it runs on `w`. */
  predicate Pairs(site: Site, w: World, c: Command, u: Command) {
    match c
    case RouteAdd(d, _) => u == RouteDelete(d)
    case SetDns(s, _) => u == SetDns(s, Restoring(Servers(w, s))) && Servers(w, s) != ["Empty"]
    case SysctlWrite(k, _) => u == SysctlWrite(k, Setting(w, k))
    case NatAppend(v6, r) => u == NatDelete(v6, r) && r == Masquerade(site, v6)
    case ForwardInsert(v6, r) => u == ForwardDelete(v6, r)
    case _ => false
  }

  lemma PartsAppend(undo: seq<Command>, u: Command)
    ensures Parts(undo + [u]) == Parts(undo) + {PartOf(u)}
  {
    var all := undo + [u];
    forall p | p in Parts(undo) + {PartOf(u)}
      ensures p in Parts(all)
    {
      if p == PartOf(u) {
        assert PartOf(all[|undo|]) == p;
      } else {
        var i :| 0 <= i < |undo| && PartOf(undo[i]) == p;
        assert PartOf(all[i]) == p;
      }
    }
  }

  lemma InsertedAppend(undo: seq<Command>, u: Command, v6: bool)
    ensures Inserted(undo + [u], v6) == (if u.ForwardDelete? && u.v6 == v6 then [u.rule] else []) + Inserted(undo, v6)
  {
    assert (undo + [u])[..|undo|] == undo;
  }

  lemma DoingKeepsClean(site: Site, w0: World, w: World, undo: seq<Command>, c: Command, u: Command, w': World)
    requires Clean(site, w0, w, undo) && Effect(w, c, w') && Pairs(site, w, c, u) && PartOf(u) !in Parts(undo)
    ensures Clean(site, w0, w', undo + [u])
  {
    hide Effect, Pairs, Parts, RouteDebt, TunnelDebt, DnsDebt, SettingDebt, ForwardDebt, NatDebt, TableOf, PartOf;
    DoingRoutes(site, w0, w, undo, c, u, w');
    DoingTunnel(site, w0, w, undo, c, u, w');
    DoingDns(site, w0, w, undo, c, u, w');
    DoingSettings(site, w0, w, undo, c, u, w');
    DoingSeparate(undo, u);
    forall v6
      ensures ForwardDebt(w0, w', undo + [u], v6) && NatDebt(site, w0, w', undo + [u], v6)
      ensures NatPart(v6) !in Parts(undo + [u]) ==> TableOf(w', v6).postrouting == TableOf(w0, v6).postrouting
    {
      assert ForwardDebt(w0, w, undo, v6) && NatDebt(site, w0, w, undo, v6);
      DoingChains(site, w0, w, undo, c, u, w', v6);
    }
  }

  lemma DoingSeparate(undo: seq<Command>, u: Command)
    requires Separate(undo) && PartOf(u) !in Parts(undo)
    ensures Separate(undo + [u])
  {
    hide PartOf;
    forall i | 0 <= i < |undo|
      ensures PartOf(undo[i]) != PartOf(u)
    {
      assert PartOf(undo[i]) in Parts(undo);
    }
  }

  lemma DoingDns(site: Site, w0: World, w: World, undo: seq<Command>, c: Command, u: Command, w': World)
    requires DnsDebt(w0, w, undo) && Effect(w, c, w') && Pairs(site, w, c, u) && PartOf(u) !in Parts(undo)
    ensures DnsDebt(w0, w', undo + [u])
  {
    PartsAppend(undo, u);
  }

  lemma DoingSettings(site: Site, w0: World, w: World, undo: seq<Command>, c: Command, u: Command, w': World)
    requires SettingDebt(w0, w, undo) && Effect(w, c, w') && Pairs(site, w, c, u) && PartOf(u) !in Parts(undo)
    ensures SettingDebt(w0, w', undo + [u])
  {
    PartsAppend(undo, u);
  }

  lemma DoingChains(site: Site, w0: World, w: World, undo: seq<Command>, c: Command, u: Command, w': World, v6: bool)
    requires ForwardDebt(w0, w, undo, v6) && NatDebt(site, w0, w, undo, v6)
    requires NatPart(v6) !in Parts(undo) ==> TableOf(w, v6).postrouting == TableOf(w0, v6).postrouting
    requires Effect(w, c, w') && Pairs(site, w, c, u) && PartOf(u) !in Parts(undo)
    ensures ForwardDebt(w0, w', undo + [u], v6) && NatDebt(site, w0, w', undo + [u], v6)
    ensures NatPart(v6) !in Parts(undo + [u]) ==> TableOf(w', v6).postrouting == TableOf(w0, v6).postrouting
  {
    hide ForwardDebt, NatDebt, Effect, Pairs, Parts, TableOf;
    DoingForward(site, w0, w, undo, c, u, w', v6);
    DoingNat(site, w0, w, undo, c, u, w', v6);
  }

  lemma DoingForward(site: Site, w0: World, w: World, undo: seq<Command>, c: Command, u: Command, w': World, v6: bool)
    requires ForwardDebt(w0, w, undo, v6) && Effect(w, c, w') && Pairs(site, w, c, u)
    ensures ForwardDebt(w0, w', undo + [u], v6)
  {
    hide Inserted, Parts;
    InsertedAppend(undo, u, v6);
  }

  lemma DoingNat(site: Site, w0: World, w: World, undo: seq<Command>, c: Command, u: Command, w': World, v6: bool)
    requires NatDebt(site, w0, w, undo, v6)
    requires NatPart(v6) !in Parts(undo) ==> TableOf(w, v6).postrouting == TableOf(w0, v6).postrouting
    requires Effect(w, c, w') && Pairs(site, w, c, u) && PartOf(u) !in Parts(undo)
    ensures NatDebt(site, w0, w', undo + [u], v6)
    ensures NatPart(v6) !in Parts(undo + [u]) ==> TableOf(w', v6).postrouting == TableOf(w0, v6).postrouting
  {
    hide Parts;
    PartsAppend(undo, u);
    forall i | 0 <= i < |undo|
      ensures PartOf(undo[i]) in Parts(undo)
    {
      InParts(undo, i);
    }
  }

  lemma DoingRoutes(site: Site, w0: World, w: World, undo: seq<Command>, c: Command, u: Command, w': World)
    requires RouteDebt(site, w0, w, undo) && Effect(w, c, w') && Pairs(site, w, c, u) && PartOf(u) !in Parts(undo)
    ensures RouteDebt(site, w0, w', undo + [u])
  {
    PartsAppend(undo, u);
  }

  /** A route that now leads to the tunnel has its undo in the log. */
  lemma DoingTunnel(site: Site, w0: World, w: World, undo: seq<Command>, c: Command, u: Command, w': World)
    requires TunnelDebt(site, w0, w, undo) && Effect(w, c, w') && Pairs(site, w, c, u)
    ensures TunnelDebt(site, w0, w', undo + [u])
  {
    hide Parts, Brought;
    PartsAppend(undo, u);
  }

  lemma ConfiguringKeepsClean(site: Site, w0: World, w: World, undo: seq<Command>, v6: bool, own: set<Dest>, w': World)
    requires Clean(site, w0, w, undo) && Effect(w, Configure(site.tun, v6, own), w') && own <= site.own
    ensures Clean(site, w0, w', undo)
  {
    hide Parts, Inserted;
    assert TunnelDebt(site, w0, w', undo);
    forall d
      ensures Own(w', d, site.tun) == Own(w, d, site.tun)
    {
    }
  }

  // ---------------------------------------------------------------- undoing

  function Removed(undo: seq<Command>, i: nat): seq<Command>
    requires i < |undo|
  {
    undo[..i] + undo[i + 1..]
  }

  lemma PartsRemoved(undo: seq<Command>, i: nat)
    requires i < |undo| && Separate(undo)
    ensures Parts(Removed(undo, i)) == Parts(undo) - {PartOf(undo[i])}
    ensures Separate(Removed(undo, i))
  {
    var rest := Removed(undo, i);
    forall p | p in Parts(undo) - {PartOf(undo[i])}
      ensures p in Parts(rest)
    {
      var j :| 0 <= j < |undo| && PartOf(undo[j]) == p;
      assert rest[if j < i then j else j - 1] == undo[j];
    }
    forall p | p in Parts(rest)
      ensures p in Parts(undo) && p != PartOf(undo[i])
    {
      var j :| 0 <= j < |rest| && PartOf(rest[j]) == p;
      assert rest[j] == undo[if j < i then j else j + 1];
    }
  }

  lemma {:induction false} InsertedConcat(a: seq<Command>, b: seq<Command>, v6: bool)
    ensures Inserted(a + b, v6) == Inserted(b, v6) + Inserted(a, v6)
  {
    if b == [] {
      assert a + b == a;
    } else {
      var k := |b| - 1;
      var all, mine := a + b, if b[k].ForwardDelete? && b[k].v6 == v6 then [b[k].rule] else [];
      InsertedConcat(a, b[..k], v6);
      assert all[..|all| - 1] == a + b[..k] && all[|all| - 1] == b[k];
      assert Inserted(all, v6) == mine + Inserted(a + b[..k], v6);
    }
  }

  lemma {:induction false} InsertedFrom(undo: seq<Command>, v6: bool, r: Rule)
    requires r in Inserted(undo, v6)
    ensures exists i :: 0 <= i < |undo| && undo[i] == ForwardDelete(v6, r)
  {
    if undo != [] {
      var k := |undo| - 1;
      if undo[k] != ForwardDelete(v6, r) {
        InsertedFrom(undo[..k], v6, r);
        var i :| 0 <= i < k && undo[..k][i] == ForwardDelete(v6, r);
        assert undo[i] == ForwardDelete(v6, r);
      }
    }
  }

  lemma AllInsertedFrom(undo: seq<Command>, v6: bool)
    ensures forall r :: r in Inserted(undo, v6) ==> exists i :: 0 <= i < |undo| && undo[i] == ForwardDelete(v6, r)
  {
    forall r | r in Inserted(undo, v6)
      ensures exists i :: 0 <= i < |undo| && undo[i] == ForwardDelete(v6, r)
    {
      InsertedFrom(undo, v6, r);
    }
  }

  lemma Uncons<T>(x: seq<T>, y: seq<T>)
    requires x != []
    ensures (x + y)[0] == x[0] && (x + y)[1..] == x[1..] + y && x + y == [x[0]] + (x[1..] + y)
  {
  }

  lemma {:induction false} DeletePast(x: seq<Rule>, r: Rule, y: seq<Rule>)
    requires r !in x
    ensures DeleteFirst(x + ([r] + y), r) == x + y
  {
    var rest := [r] + y;
    if x == [] {
      assert x + rest == rest && x + y == y && rest[1..] == y;
    } else {
      Uncons(x, rest);
      Uncons(x, y);
      DeletePast(x[1..], r, y);
    }
  }

  lemma InsertedAround(undo: seq<Command>, i: nat, v6: bool)
    requires i < |undo|
    ensures Inserted(Removed(undo, i), v6) == Inserted(undo[i + 1..], v6) + Inserted(undo[..i], v6)
    ensures undo[i].ForwardDelete? && undo[i].v6 == v6 ==>
      Inserted(undo, v6) == Inserted(undo[i + 1..], v6) + ([undo[i].rule] + Inserted(undo[..i], v6))
    ensures !(undo[i].ForwardDelete? && undo[i].v6 == v6) ==> Inserted(Removed(undo, i), v6) == Inserted(undo, v6)
  {
    hide Inserted;
    var a, u, b := undo[..i], undo[i], undo[i + 1..];
    assert undo == a + ([u] + b);
    InsertedConcat(a, [u] + b, v6);
    InsertedConcat([u], b, v6);
    InsertedConcat(a, b, v6);
    InsertedOne(u, v6);
  }

  /** Deleting one inserted rule takes out exactly that rule, wherever it is among the others. */
  lemma InsertedRemoved(undo: seq<Command>, i: nat, v6: bool, tail: seq<Rule>)
    requires i < |undo| && Separate(undo)
    ensures undo[i].ForwardDelete? && undo[i].v6 == v6 ==>
      DeleteFirst(Inserted(undo, v6) + tail, undo[i].rule) == Inserted(Removed(undo, i), v6) + tail
    ensures !(undo[i].ForwardDelete? && undo[i].v6 == v6) ==> Inserted(Removed(undo, i), v6) == Inserted(undo, v6)
  {
    hide Inserted, DeleteFirst, Removed;
    var a, u, b := undo[..i], undo[i], undo[i + 1..];
    InsertedAround(undo, i, v6);
    if u.ForwardDelete? && u.v6 == v6 {
      var x, z := Inserted(b, v6), Inserted(a, v6);
      assert forall j :: 0 <= j < |b| ==> b[j] == undo[i + 1 + j] && PartOf(b[j]) != PartOf(u);
      AllInsertedFrom(b, v6);
      DeletePast(x, u.rule, z + tail);
      assert (x + ([u.rule] + z)) + tail == x + ([u.rule] + (z + tail));
      assert (x + z) + tail == x + (z + tail);
    }
  }

  lemma InsertedOne(u: Command, v6: bool)
    ensures Inserted([u], v6) == if u.ForwardDelete? && u.v6 == v6 then [u.rule] else []
  {
    assert [u][..0] == [];
  }

  lemma RemovedAt(undo: seq<Command>, i: nat)
    requires i < |undo|
    ensures |Removed(undo, i)| == |undo| - 1
    ensures forall j :: 0 <= j < |Removed(undo, i)| ==> Removed(undo, i)[j] == undo[if j < i then j else j + 1]
  {
  }

  lemma UndoingRoutes(site: Site, w0: World, w: World, undo: seq<Command>, i: nat, w': World)
    requires Separate(undo) && i < |undo| && RouteDebt(site, w0, w, undo) && Effect(w, undo[i], w')
    requires !undo[i].RouteAdd? && !undo[i].Configure?
    ensures RouteDebt(site, w0, w', Removed(undo, i))
  {
    hide Parts;
    PartsRemoved(undo, i);
    assert PartOf(undo[i]) in Parts(undo) by { InParts(undo, i); }
    forall d
      ensures Own(w', d, site.tun) == if undo[i] == RouteDelete(d) then None else Own(w, d, site.tun)
    {
    }
  }

  /** An undo that settled took its route away, whether it deleted it or found it gone. */
  lemma SettlingTunnel(site: Site, w0: World, w: World, undo: seq<Command>, i: nat, r: Outcome, w': World)
    requires Separate(undo) && i < |undo| && TunnelDebt(site, w0, w, undo) && IsUndo(undo[i])
    requires Runs(w, undo[i], r, w') && Settles(undo[i], r)
    ensures TunnelDebt(site, w0, w', Removed(undo, i))
  {
    hide Parts, Brought, Removed;
    PartsRemoved(undo, i);
  }

  lemma InParts(undo: seq<Command>, i: nat)
    requires i < |undo|
    ensures PartOf(undo[i]) in Parts(undo)
  {
  }

  /** A route that is already gone is settled without running anything. */
  lemma GoneRoutes(site: Site, w0: World, w: World, undo: seq<Command>, i: nat)
    requires Separate(undo) && i < |undo| && RouteDebt(site, w0, w, undo)
    requires undo[i].RouteDelete? && undo[i].dest !in w.routes
    ensures RouteDebt(site, w0, w, Removed(undo, i))
  {
    hide Parts;
    PartsRemoved(undo, i);
    InParts(undo, i);
  }

  lemma UndoingDns(w0: World, w: World, undo: seq<Command>, i: nat, w': World)
    requires Separate(undo) && i < |undo| && DnsDebt(w0, w, undo)
    requires Effect(w, undo[i], w') || (w' == w && PartOf(undo[i]).RoutePart?)
    ensures DnsDebt(w0, w', Removed(undo, i))
  {
    hide Parts;
    PartsRemoved(undo, i);
    RemovedAt(undo, i);
    InParts(undo, i);
  }

  lemma UndoingSettings(w0: World, w: World, undo: seq<Command>, i: nat, w': World)
    requires Separate(undo) && i < |undo| && SettingDebt(w0, w, undo)
    requires Effect(w, undo[i], w') || (w' == w && PartOf(undo[i]).RoutePart?)
    ensures SettingDebt(w0, w', Removed(undo, i))
  {
    hide Parts;
    PartsRemoved(undo, i);
    RemovedAt(undo, i);
    InParts(undo, i);
  }

  predicate IsUndo(c: Command) {
    c.RouteDelete? || c.SetDns? || c.SysctlWrite? || c.NatDelete? || c.ForwardDelete?
  }

  lemma UndoingForward(w0: World, w: World, undo: seq<Command>, i: nat, w': World, v6: bool)
    requires Separate(undo) && i < |undo| && ForwardDebt(w0, w, undo, v6) && IsUndo(undo[i])
    requires Effect(w, undo[i], w') || (w' == w && PartOf(undo[i]).RoutePart?)
    ensures ForwardDebt(w0, w', Removed(undo, i), v6)
  {
    hide Inserted, DeleteFirst, Separate;
    InsertedRemoved(undo, i, v6, TableOf(w0, v6).forward);
  }

  lemma UndoingOther(w: World, u: Command, w': World, v6: bool)
    requires IsUndo(u) && !(u.NatDelete? && u.v6 == v6)
    requires Effect(w, u, w') || (w' == w && PartOf(u).RoutePart?)
    ensures TableOf(w', v6).postrouting == TableOf(w, v6).postrouting
  {
  }

  lemma UndoingNat(site: Site, w0: World, w: World, undo: seq<Command>, i: nat, w': World, v6: bool)
    requires Separate(undo) && i < |undo| && NatDebt(site, w0, w, undo, v6) && IsUndo(undo[i])
    requires Effect(w, undo[i], w') || (w' == w && PartOf(undo[i]).RoutePart?)
    ensures NatDebt(site, w0, w', Removed(undo, i), v6)
  {
    hide Parts, DeleteFirst, Separate, Removed;
    var u, rest := undo[i], Removed(undo, i);
    PartsRemoved(undo, i);
    RemovedAt(undo, i);
    InParts(undo, i);
    if u.NatDelete? && u.v6 == v6 {
      forall j | 0 <= j < |rest|
        ensures PartOf(rest[j]) != NatPart(v6)
      {
        InParts(rest, j);
      }
    } else {
      hide Effect, TableOf;
      UndoingOther(w, u, w', v6);
      forall j | 0 <= j < |rest| && rest[j].NatDelete? && rest[j].v6 == v6
        ensures rest[j].rule == Masquerade(site, v6)
        ensures TableOf(w', v6).postrouting == TableOf(w0, v6).postrouting + [rest[j].rule]
      {
        var k := if j < i then j else j + 1;
        assert rest[j] == undo[k];
      }
    }
  }

  ghost predicate AllUndo(undo: seq<Command>) {
    forall i :: 0 <= i < |undo| ==> IsUndo(undo[i])
  }

  /** Whichever entry settles, in whatever order, the rest of the log is what is still owed. */
  lemma SettlingKeepsDebt(site: Site, w0: World, w: World, undo: seq<Command>, i: nat, r: Outcome, w': World)
    requires Debt(site, w0, w, undo) && i < |undo| && IsUndo(undo[i])
    requires Runs(w, undo[i], r, w') && Settles(undo[i], r)
    ensures Debt(site, w0, w', Removed(undo, i))
  {
    hide RouteDebt, TunnelDebt, DnsDebt, SettingDebt, ForwardDebt, NatDebt, Separate, Effect, Removed, Parts;
    SettlingTunnel(site, w0, w, undo, i, r, w');
    if r == Done {
      UndoingRoutes(site, w0, w, undo, i, w');
    } else {
      GoneRoutes(site, w0, w, undo, i);
    }
    PartsRemoved(undo, i);
    UndoingDns(w0, w, undo, i, w');
    UndoingSettings(w0, w, undo, i, w');
    UndoingForward(w0, w, undo, i, w', false);
    UndoingForward(w0, w, undo, i, w', true);
    UndoingNat(site, w0, w, undo, i, w', false);
    UndoingNat(site, w0, w, undo, i, w', true);
  }

  /** Routes of the tunnel may vanish at any time. */
  lemma VanishingKeepsDebt(site: Site, w0: World, w: World, undo: seq<Command>, w': World)
    requires Debt(site, w0, w, undo) && SameButRoutes(w, w')
    requires forall d :: d in w'.routes ==> d in w.routes && w'.routes[d] == w.routes[d]
    requires forall d :: d in w.routes && d !in w'.routes ==> w.routes[d].iface == site.tun
    ensures Debt(site, w0, w', undo)
    ensures Clean(site, w0, w, undo) ==> Clean(site, w0, w', undo)
  {
    hide Parts, Inserted, DnsDebt, SettingDebt;
    assert DnsDebt(w0, w', undo) by { SameDns(w0, w, w', undo); }
    assert SettingDebt(w0, w', undo) by { SameSettings(w0, w, w', undo); }
    forall d
      ensures Own(w', d, site.tun) == Own(w, d, site.tun)
    {
    }
  }

  lemma SameDns(w0: World, w: World, w': World, undo: seq<Command>)
    requires DnsDebt(w0, w, undo) && w'.dns == w.dns
    ensures DnsDebt(w0, w', undo)
  {
  }

  lemma SameSettings(w0: World, w: World, w': World, undo: seq<Command>)
    requires SettingDebt(w0, w, undo) && w'.sysctl == w.sysctl
    ensures SettingDebt(w0, w', undo)
  {
  }

  // ---------------------------------------------------------------- firewall chains

  /** Every rule after the first copy of `r` is `r`. */
  predicate OnlyTrailing(s: seq<Rule>, r: Rule) {
    forall i, j :: 0 <= i < j < |s| && s[i] == r ==> s[j] == r
  }

  lemma {:induction false} AppendDelete(s: seq<Rule>, r: Rule)
    ensures DeleteFirst(s + [r], r) == s <==> OnlyTrailing(s, r)
    ensures multiset(DeleteFirst(s + [r], r)) == multiset(s)
  {
    if s == [] {
    } else if s[0] == r {
      assert (s + [r])[1..] == s[1..] + [r] && (s + [r])[0] == r;
      assert s == [r] + s[1..];
      if s[1..] + [r] == s {
        AllCopies(s, r);
      }
      if OnlyTrailing(s, r) {
        CopiesRotate(s, r);
      }
    } else {
      assert (s + [r])[1..] == s[1..] + [r] && (s + [r])[0] == s[0];
      AppendDelete(s[1..], r);
      assert s == [s[0]] + s[1..];
      assert OnlyTrailing(s, r) <==> OnlyTrailing(s[1..], r);
    }
  }

  lemma CopiesRotate(s: seq<Rule>, r: Rule)
    requires s != [] && s[0] == r && OnlyTrailing(s, r)
    ensures s[1..] + [r] == s
  {
    assert forall k :: 0 < k < |s| ==> s[k] == r;
  }

  lemma AllCopies(s: seq<Rule>, r: Rule)
    requires s != [] && s[0] == r && s[1..] + [r] == s
    ensures forall k :: 0 <= k < |s| ==> s[k] == r
  {
    var k := 0;
    while k < |s|
      invariant k <= |s| && forall j :: 0 <= j < k ==> s[j] == r
    {
      assert k > 0 ==> s[k - 1] == (s[1..] + [r])[k - 1];
      k := k + 1;
    }
  }
}
