/** What the pins and the split routes of the macOS client do to longest-prefix matching. */
module SplitRoutes {
  import opened Octets
  import opened Host
  import opened Restoration

  predicate Best(routes: map<Dest, Route>, a: Addr, d: Dest) {
    && d in routes && Covers(d, a)
    && forall e :: e in routes && Covers(e, a) ==>
         |e.prefix| < |d.prefix| || (|e.prefix| == |d.prefix| && (d.scoped ==> e.scoped))
  }

  lemma ResolveIsBest(routes: map<Dest, Route>, a: Addr, d: Dest)
    ensures Resolve(routes, a) == Some(d) <==> Best(routes, a, d)
  {
    LookupIsLongest(routes, a, |a.bits|);
    var r := Resolve(routes, a);
    if Best(routes, a, d) {
      assert r.Some? && Covers(r.value, a);
      assert r.value.prefix == a.bits[..|r.value.prefix|] == d.prefix;
    }
  }

  lemma UnresolvedIsUncovered(routes: map<Dest, Route>, a: Addr)
    ensures Resolve(routes, a).None? <==> forall d :: d in routes ==> !Covers(d, a)
  {
    LookupIsLongest(routes, a, |a.bits|);
  }

  function HostDest(a: Addr): Dest {
    Dest(a.v6, a.bits, false)
  }

  /** 0.0.0.0/1 and 128.0.0.0/1, or ::/1 and 8000::/1. */
  function Half(v6: bool, upper: bool): Dest {
    Dest(v6, [upper], false)
  }

  predicate IsHalf(d: Dest) {
    |d.prefix| == 1 && !d.scoped
  }

  lemma HostCoversOne(a: Addr, b: Addr)
    requires Proper(a) && Proper(b)
    ensures Covers(HostDest(a), b) <==> a == b
  {
  }

  /**
   Except where the log has an undo, the original routes are there, and whatever else is there is
   bound to the tunnel.
   */
  ghost predicate Layered(tun: string, w0: World, w: World, undo: seq<Command>) {
    forall d :: RoutePart(d) !in Parts(undo) ==> Kept(tun, w0.routes, w.routes, d)
  }

  predicate Kept(tun: string, routes0: map<Dest, Route>, routes: map<Dest, Route>, d: Dest) {
    && (d in routes0 ==> d in routes && routes[d] == routes0[d])
    && (d in routes && d !in routes0 ==> routes[d].iface == tun)
  }

  lemma ConfigureLayers(tun: string, w0: World, w: World, undo: seq<Command>, v6: bool, own: set<Dest>, w': World)
    requires Layered(tun, w0, w, undo) && Effect(w, Configure(tun, v6, own), w')
    ensures Layered(tun, w0, w', undo)
  {
    hide Parts;
    forall d | RoutePart(d) !in Parts(undo)
      ensures Kept(tun, w0.routes, w'.routes, d)
    {
      assert Kept(tun, w0.routes, w.routes, d);
    }
  }

  lemma DoingLayers(tun: string, w0: World, w: World, undo: seq<Command>, c: Command, u: Command, w': World)
    requires Layered(tun, w0, w, undo) && Effect(w, c, w') && !c.RouteDelete? && !c.Configure?
    requires c.RouteAdd? ==> u == RouteDelete(c.dest)
    ensures Layered(tun, w0, w', undo + [u])
  {
    hide Parts;
    PartsAppend(undo, u);
    forall d | RoutePart(d) !in Parts(undo + [u])
      ensures Kept(tun, w0.routes, w'.routes, d)
    {
      assert Kept(tun, w0.routes, w.routes, d);
    }
  }

  /** Every route with an undo is a pin of one of `ips`, or a half. */
  ghost predicate PinsAndHalves(undo: seq<Command>, ips: set<Addr>) {
    forall d :: RoutePart(d) in Parts(undo) ==> IsHalf(d) || exists a :: a in ips && d == HostDest(a)
  }

  /** Before the halves: a route to an address not yet pinned is the original one, unless it leads to the tunnel. */
  lemma OriginalRoute(tun: string, w0: World, w: World, undo: seq<Command>, done: set<Addr>, a: Addr)
    requires Layered(tun, w0, w, undo) && Proper(a) && a !in done && forall b :: b in done ==> Proper(b)
    requires forall d :: RoutePart(d) in Parts(undo) ==> exists b :: b in done && d == HostDest(b)
    requires RouteTo(w.routes, a).Some? && RouteTo(w.routes, a).value.iface != tun
    ensures RouteTo(w0.routes, a) == RouteTo(w.routes, a)
  {
    hide Parts, Resolve;
    var d := Resolve(w.routes, a).value;
    ResolveIsBest(w.routes, a, d);
    forall e | Covers(e, a)
      ensures RoutePart(e) !in Parts(undo) && Kept(tun, w0.routes, w.routes, e)
    {
      if RoutePart(e) in Parts(undo) {
        var b :| b in done && e == HostDest(b);
        HostCoversOne(b, a);
      }
    }
    assert Best(w0.routes, a, d);
    ResolveIsBest(w0.routes, a, d);
  }

  ghost predicate HalvesUp(tun: string, w: World, v6: bool) {
    forall upper :: Half(v6, upper) in w.routes && w.routes[Half(v6, upper)].iface == tun
  }

  /** An address that had no route longer than a default route, and is not pinned, now leads to the tunnel. */
  lemma DefaultGoesToTunnel(tun: string, w0: World, w: World, undo: seq<Command>, ips: set<Addr>, b: Addr)
    requires Layered(tun, w0, w, undo) && PinsAndHalves(undo, ips) && HalvesUp(tun, w, b.v6)
    requires Proper(b) && b !in ips && forall a :: a in ips ==> Proper(a)
    requires Resolve(w0.routes, b).Some? ==> |Resolve(w0.routes, b).value.prefix| == 0
    ensures RouteTo(w.routes, b).Some? && RouteTo(w.routes, b).value.iface == tun
  {
    hide Parts, Resolve;
    var half := Half(b.v6, b.bits[0]);
    assert Covers(half, b);
    UnresolvedIsUncovered(w.routes, b);
    var d := Resolve(w.routes, b).value;
    ResolveIsBest(w.routes, b, d);
    if IsHalf(d) {
      assert d == half;
    } else {
      OffTheLog(undo, ips, b, d);
      assert Kept(tun, w0.routes, w.routes, d);
      if d in w0.routes {
        ShortAtFirst(w0.routes, b, d);
        assert false;
      }
    }
  }

  lemma OffTheLog(undo: seq<Command>, ips: set<Addr>, b: Addr, d: Dest)
    requires PinsAndHalves(undo, ips) && Proper(b) && b !in ips && forall a :: a in ips ==> Proper(a)
    requires Covers(d, b) && !IsHalf(d)
    ensures RoutePart(d) !in Parts(undo)
  {
    hide Parts;
    if RoutePart(d) in Parts(undo) {
      var a :| a in ips && d == HostDest(a);
      HostCoversOne(a, b);
    }
  }

  lemma ShortAtFirst(routes: map<Dest, Route>, b: Addr, d: Dest)
    requires d in routes && Covers(d, b)
    ensures Resolve(routes, b).Some? && |d.prefix| <= |Resolve(routes, b).value.prefix|
  {
    LookupIsLongest(routes, b, |b.bits|);
  }

  /**
   An address that had a route longer than the halves, and is not pinned, keeps it, unless the
   tunnel's own addresses cover it more closely.
   */
  lemma SpecificStays(tun: string, w0: World, w: World, undo: seq<Command>, ips: set<Addr>, b: Addr)
    requires Layered(tun, w0, w, undo) && PinsAndHalves(undo, ips)
    requires Proper(b) && b !in ips && forall a :: a in ips ==> Proper(a)
    requires Resolve(w0.routes, b).Some? && |Resolve(w0.routes, b).value.prefix| > 1
    requires forall d :: d in w.routes && Covers(d, b) && w.routes[d].iface == tun ==> |d.prefix| <= 1
    ensures RouteTo(w.routes, b) == RouteTo(w0.routes, b)
  {
    hide Parts, Resolve;
    var d := Resolve(w0.routes, b).value;
    ResolveIsBest(w0.routes, b, d);
    forall e | Covers(e, b) && !IsHalf(e)
      ensures Kept(tun, w0.routes, w.routes, e)
    {
      OffTheLog(undo, ips, b, e);
    }
    assert Best(w.routes, b, d);
    ResolveIsBest(w.routes, b, d);
  }
}
