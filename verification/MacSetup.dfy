/** The macOS client's network transaction: addresses, pins, name servers, split routes, and a last look at the pins. */
module MacSetup {
  import opened Octets
  import opened Host
  import opened Restoration
  import opened UndoLog
  import S = SplitRoutes

  // ---------------------------------------------------------------- routes to the servers

  /** Where the route to a server led before the setup, and whether it must end up a persistent host route. */
  datatype Want = Want(a: Addr, route: Route, requireStatic: bool)

  predicate PersistentHost(r: Route) {
    HOST in r.flags && STATIC in r.flags && WASCLONED !in r.flags && DYNAMIC !in r.flags && IFSCOPE !in r.flags
  }

  predicate DirectlyConnected(r: Route) {
    HOST in r.flags && GATEWAY !in r.flags && (LLINFO in r.flags || LOCAL in r.flags)
  }

  predicate Usable(r: Route, tun: string) {
    r.iface != tun && REJECT !in r.flags && BLACKHOLE !in r.flags
  }

  /** What the last look demands of the route found now. */
  predicate Meets(want: Want, got: Route, tun: string) {
    && Usable(got, tun) && got.iface == want.route.iface
    && (want.route.gateway.Via? ==> got.gateway == want.route.gateway)
    && (want.requireStatic ==> HOST in got.flags && STATIC in got.flags)
    && (want.requireStatic ==> WASCLONED !in got.flags && DYNAMIC !in got.flags)
  }

  /** A pin goes by the route's gateway if that is an address, and by its interface otherwise. */
  function PinTarget(r: Route): Target {
    if r.gateway.Via? then ToGateway(r.gateway.a) else ToInterface(r.iface)
  }

  predicate Preserved(r: Route) {
    PersistentHost(r) || DirectlyConnected(r)
  }

  /** By its flags: a static host route of its own, or a host entry of a connected subnet. */
  lemma PreservedFlags(r: Route)
    ensures PersistentHost(r) <==> r.flags * {HOST, STATIC, WASCLONED, DYNAMIC, IFSCOPE} == {HOST, STATIC}
    ensures DirectlyConnected(r) <==> r.flags * {HOST, GATEWAY} == {HOST} && r.flags * {LLINFO, LOCAL} != {}
  {
    var p := r.flags * {HOST, STATIC, WASCLONED, DYNAMIC, IFSCOPE};
    var c, l := r.flags * {HOST, GATEWAY}, r.flags * {LLINFO, LOCAL};
    if p == {HOST, STATIC} {
      assert HOST in p && STATIC in p && WASCLONED !in p && DYNAMIC !in p && IFSCOPE !in p;
    }
    if c == {HOST} {
      assert HOST in c && GATEWAY !in c;
    }
    if LLINFO in r.flags || LOCAL in r.flags {
      assert LLINFO in l || LOCAL in l;
    }
  }

  ghost predicate Wanted(w0: World, want: Want, tun: string) {
    && RouteTo(w0.routes, want.a) == Some(want.route) && Usable(want.route, tun) && want.route.iface != ""
    && (want.requireStatic <==> PersistentHost(want.route) || !DirectlyConnected(want.route))
  }

  /** Only pins so far. */
  ghost predicate OnlyPins(undo: seq<Command>, done: set<Addr>) {
    && (forall a :: a in done ==> Proper(a))
    && (forall d :: RoutePart(d) in Parts(undo) ==> exists a :: a in done && d == S.HostDest(a))
  }

  lemma PinsAppend(undo: seq<Command>, u: Command, done: set<Addr>, a: Addr)
    requires OnlyPins(undo, done) && Proper(a)
    requires u == RouteDelete(S.HostDest(a)) || !PartOf(u).RoutePart?
    ensures OnlyPins(undo + [u], done + {a})
    ensures !PartOf(u).RoutePart? ==> OnlyPins(undo + [u], done)
  {
    PartsAppend(undo, u);
  }

  lemma PinsMore(undo: seq<Command>, done: set<Addr>, a: Addr)
    requires OnlyPins(undo, done) && Proper(a)
    ensures OnlyPins(undo, done + {a})
  {
    hide Parts;
  }

  lemma NotPinned(undo: seq<Command>, done: set<Addr>, a: Addr)
    requires OnlyPins(undo, done) && a !in done && Proper(a)
    ensures RoutePart(S.HostDest(a)) !in Parts(undo)
  {
    hide Parts;
    assert forall b :: b in done && S.HostDest(b) == S.HostDest(a) ==> b == a;
  }

  predicate NoDns(undo: seq<Command>) {
    forall k :: 0 <= k < |undo| ==> !undo[k].SetDns?
  }

  /** Every state of the transaction up to the halves. */
  ghost predicate Pinning(site: Site, w0: World, w: World, undo: seq<Command>, done: set<Addr>) {
    Sound(site, w0, w, undo) && S.Layered(site.tun, w0, w, undo) && OnlyPins(undo, done)
  }

  lemma PinningNext(site: Site, w0: World, w: World, undo: seq<Command>, done: set<Addr>, a: Addr, c: Command,
      u: Command, w': World)
    requires Pinning(site, w0, w, undo, done) && Proper(a) && Effect(w, c, w') && Sound(site, w0, w', undo + [u])
    requires Pairs(site, w, c, u) && (c.RouteAdd? ==> c.dest == S.HostDest(a))
    ensures Pinning(site, w0, w', undo + [u], done + {a})
    ensures !c.RouteAdd? ==> Pinning(site, w0, w', undo + [u], done)
  {
    hide Sound, Parts, S.Layered, OnlyPins, Effect;
    S.DoingLayers(site.tun, w0, w, undo, c, u, w');
    PinsAppend(undo, u, done, a);
  }

  lemma RouteAddOnly(w: World, d: Dest, t: Target, w': World)
    requires Effect(w, RouteAdd(d, t), w')
    ensures w'.dns == w.dns
  {
  }

  /** No route a server could be reached by. */
  predicate NoWay(w: World, a: Addr, tun: string) {
    var r := RouteTo(w.routes, a);
    r.None? || r.value.iface == "" || r.value.iface == tun || REJECT in r.value.flags || BLACKHOLE in r.value.flags
  }

  /** Reads the route to a server and pins it, unless it is already persistent or directly connected. */
  method PinRoute(m: Manager, a: Addr, ghost site: Site, tun: string, ghost w0: World, ghost done: set<Addr>)
    returns (r: Option<Want>)
    requires m.Valid() && site.tun == tun && Proper(a) && a !in done
    requires Pinning(site, w0, m.host.w, m.undo, done)
    modifies m, m.host
    ensures m.Valid() && Pinning(site, w0, m.host.w, m.undo, done + {a})
    ensures old(m.host.cancelled) ==> m.host.cancelled
    ensures m.host.calls == old(m.host.calls)
      || exists t, o :: m.host.calls == old(m.host.calls) + [Call(RouteAdd(S.HostDest(a), t), o)]
    ensures m.undo == old(m.undo) || m.undo == old(m.undo) + [RouteDelete(S.HostDest(a))]
    ensures r.Some? ==> r.value.a == a && Wanted(w0, r.value, tun)
    ensures r.Some? && Preserved(r.value.route) ==> m.undo == old(m.undo) && m.host.calls == old(m.host.calls)
    ensures r.Some? && !Preserved(r.value.route) ==> m.undo == old(m.undo) + [RouteDelete(S.HostDest(a))]
    ensures r.Some? && !Preserved(r.value.route) ==>
      m.host.calls == old(m.host.calls) + [Call(RouteAdd(S.HostDest(a), PinTarget(r.value.route)), Done)]
    ensures m.host.w.dns == old(m.host.w.dns)
    ensures m.host.faults >= old(m.host.faults)
    ensures r.None? ==> m.host.cancelled || m.host.faults > old(m.host.faults) || NoWay(m.host.w, a, tun)
  {
    hide Sound, Parts, S.Layered, OnlyPins, Effect, Resolve;
    PinsMore(m.undo, done, a);
    NotPinned(m.undo, done, a);
    var got := m.host.GetRoute(a);
    if got.None? || got.value.iface == "" {
      return None;
    }
    var route := got.value;
    if route.iface == tun || REJECT in route.flags || BLACKHOLE in route.flags {
      return None;
    }
    OriginalHere(tun, w0, m.host.w, m.undo, done, a);
    if PersistentHost(route) {
      return Some(Want(a, route, true));
    }
    if DirectlyConnected(route) {
      return Some(Want(a, route, false));
    }
    var target := PinTarget(route);
    var dest := S.HostDest(a);
    ghost var w, log := m.host.w, m.undo;
    var added := m.Add(RouteAdd(dest, target), Some(RouteDelete(dest)), site, w0);
    if added.Added? || added.AddedThenCancelled? {
      PinningNext(site, w0, w, log, done, a, RouteAdd(dest, target), RouteDelete(dest), m.host.w);
      RouteAddOnly(w, dest, target, m.host.w);
    }
    if !added.Added? {
      return None;
    }
    r := Some(Want(a, route, true));
  }

  lemma OriginalHere(tun: string, w0: World, w: World, undo: seq<Command>, done: set<Addr>, a: Addr)
    requires S.Layered(tun, w0, w, undo) && OnlyPins(undo, done) && Proper(a) && a !in done
    requires RouteTo(w.routes, a).Some? && RouteTo(w.routes, a).value.iface != tun
    ensures RouteTo(w0.routes, a) == RouteTo(w.routes, a)
  {
    hide Parts, Resolve, S.Layered;
    S.OriginalRoute(tun, w0, w, undo, done, a);
  }

  /** The route found now does not do. */
  predicate Strayed(want: Want, w: World, tun: string) {
    var r := RouteTo(w.routes, want.a);
    r.None? || r.value.iface == "" || !Meets(want, r.value, tun)
  }

  /** After the split routes every server must still be reached as before. */
  method VerifyRoutes(host: Machine, wants: seq<Want>, tun: string) returns (ok: bool)
    modifies host`cancelled, host`faults
    ensures host.faults >= old(host.faults)
    ensures !ok ==>
      host.cancelled || host.faults > old(host.faults) || exists k :: 0 <= k < |wants| && Strayed(wants[k], host.w, tun)
    ensures old(host.cancelled) ==> host.cancelled
    ensures ok ==> forall k :: 0 <= k < |wants| ==>
      RouteTo(host.w.routes, wants[k].a).Some? && Meets(wants[k], RouteTo(host.w.routes, wants[k].a).value, tun)
    ensures ok && |wants| > 0 ==> !old(host.cancelled)
  {
    hide Resolve;
    var k := 0;
    while k < |wants|
      invariant 0 <= k <= |wants| && host.w == old(host.w)
      invariant old(host.cancelled) ==> host.cancelled
      invariant host.faults >= old(host.faults)
      invariant k > 0 ==> !old(host.cancelled)
      invariant forall i :: 0 <= i < k ==>
        RouteTo(host.w.routes, wants[i].a).Some? && Meets(wants[i], RouteTo(host.w.routes, wants[i].a).value, tun)
    {
      var want := wants[k];
      var done := host.ContextDone();
      if done {
        return false;
      }
      var got := host.GetRoute(want.a);
      if got.None? || got.value.iface == "" {
        return false;
      }
      var g := got.value;
      if g.iface == tun || g.iface != want.route.iface || REJECT in g.flags || BLACKHOLE in g.flags {
        return false;
      }
      if want.route.gateway.Via? && g.gateway != want.route.gateway {
        return false;
      }
      if want.requireStatic && (HOST !in g.flags || STATIC !in g.flags || WASCLONED in g.flags || DYNAMIC in g.flags) {
        return false;
      }
      k := k + 1;
    }
    ok := true;
  }

  // ---------------------------------------------------------------- the servers' addresses

  /** A configured server: an address, or a name with what the resolver answers. */
  datatype Name = Literal(a: Addr) | Looked(answer: Option<seq<Addr>>)

  function AddressesOf(n: Name): seq<Addr> {
    match n
    case Literal(a) => [a]
    case Looked(answer) => if answer.Some? then answer.value else []
  }

  predicate IsServer(names: seq<Name>, a: Addr) {
    exists k :: 0 <= k < |names| && a in AddressesOf(names[k])
  }

  /** All addresses of all servers, or nothing when one name has no answer. */
  method Gather(names: seq<Name>) returns (ips: Option<set<Addr>>)
    ensures ips.None? <==> Looked(None) in names
    ensures ips.Some? ==> forall a :: a in ips.value <==> IsServer(names, a)
  {
    var all: set<Addr> := {};
    var k := 0;
    while k < |names|
      invariant 0 <= k <= |names| && Looked(None) !in names[..k]
      invariant forall a :: a in all <==> exists i :: 0 <= i < k && a in AddressesOf(names[i])
    {
      match names[k] {
        case Literal(a) =>
          all := all + {a};
        case Looked(answer) =>
          if answer.None? {
            return None;
          }
          all := all + set a | a in answer.value;
      }
      k := k + 1;
    }
    ips := Some(all);
  }

  /** 127.0.0.0 to 127.255.255.255, or ::1. */
  predicate OnThisMachine(a: Addr) {
    if a.v6 then Value(a.bits) == 1 else 2130706432 <= Value(a.bits) <= 2147483647
  }

  /** By the prefix 127.0.0.0/8, or as ::1. */
  predicate Loopback(a: Addr) {
    if a.v6 then a.bits == seq(127, _ => false) + [true]
    else [false, true, true, true, true, true, true, true] <= a.bits
  }

  lemma {:induction false} ZerosAreZero(n: nat)
    ensures Value(seq(n, _ => false)) == 0
  {
    if n > 0 {
      ZerosAreZero(n - 1);
      assert seq(n, _ => false)[..n - 1] == seq(n - 1, _ => false);
    }
  }

  /** The test by bits finds exactly these numbers. */
  lemma LoopbackIff(a: Addr)
    requires Proper(a)
    ensures Loopback(a) <==> OnThisMachine(a)
  {
    if a.v6 {
      var one := seq(127, _ => false) + [true];
      ZerosAreZero(127);
      assert one[..127] == seq(127, _ => false) && Value(one) == 1;
      if Value(a.bits) == 1 {
        ValueIsOne(a.bits, one);
      }
    } else {
      Loopback4(a.bits);
    }
  }

  lemma Loopback4(bits: seq<bool>)
    requires |bits| == 32
    ensures [false, true, true, true, true, true, true, true] <= bits <==> 2130706432 <= Value(bits) <= 2147483647
  {
    hide Value, Pow2;
    var net, rest := bits[..8], bits[8..];
    var loop := [false, true, true, true, true, true, true, true];
    assert bits == net + rest;
    ValueSplits(net, rest);
    Pow24();
    Value127();
    if Value(net) == 127 {
      ValueIsOne(net, loop);
    }
    assert loop <= bits <==> net == loop;
    FirstOctet(Value(net), Value(rest));
  }

  lemma FirstOctet(x: nat, y: nat)
    requires y < 16777216
    ensures x == 127 <==> 2130706432 <= x * 16777216 + y <= 2147483647
  {
  }

  lemma Pow24()
    ensures Pow2(24) == 16777216
  {
    assert Pow2(8) == 256;
    assert Pow2(16) == 65536;
  }

  lemma Value127()
    ensures Value([false, true, true, true, true, true, true, true]) == 127
  {
    assert [false, true, true, true, true, true, true, true][..7] == [false, true, true, true, true, true, true];
    assert [false, true, true, true, true, true, true][..6] == [false, true, true, true, true, true];
    assert [false, true, true, true, true, true][..5] == [false, true, true, true, true];
    assert [false, true, true, true, true][..4] == [false, true, true, true];
    assert [false, true, true, true][..3] == [false, true, true];
    assert [false, true, true][..2] == [false, true];
    assert [false, true][..1] == [false];
  }

  // ---------------------------------------------------------------- the transaction

  /** `own` are the destinations that come with the tunnel's addresses. */
  datatype MacConfig = MacConfig(own: set<Dest>, v6: bool, names: seq<Name>, service: string, dns: seq<string>)

  function MacSite(tun: string, own: set<Dest>): Site {
    Site(tun, own, [], [])
  }

  predicate Splits(c: Command) {
    c.RouteAdd? && S.IsHalf(c.dest)
  }

  /** From call `n` on: once a split route was tried, only split routes are. */
  predicate PinsFirst(calls: seq<Call>, n: nat) {
    forall i, j :: n <= i < j < |calls| && Splits(calls[i].c) ==> Splits(calls[j].c)
  }

  predicate NoSplits(calls: seq<Call>, n: nat) {
    forall i :: n <= i < |calls| ==> !Splits(calls[i].c)
  }

  /**
   A server is reached as before the setup and not through the tunnel, and unless it is a neighbour
   on a connected subnet, by a static host route.
   */
  ghost predicate ServerKept(w0: World, w: World, a: Addr, tun: string) {
    && RouteTo(w0.routes, a).Some? && RouteTo(w.routes, a).Some?
    && var was, now := RouteTo(w0.routes, a).value, RouteTo(w.routes, a).value;
    && now.iface == was.iface && now.iface != tun && now.iface != ""
    && REJECT !in now.flags && BLACKHOLE !in now.flags
    && (was.gateway.Via? ==> now.gateway == was.gateway)
    && (IsNeighbour(was) || now.flags * {HOST, STATIC, WASCLONED, DYNAMIC} == {HOST, STATIC})
  }

  /** A host entry of a connected subnet that is not a static route of its own. */
  predicate IsNeighbour(r: Route) {
    && r.flags * {HOST, GATEWAY} == {HOST} && r.flags * {LLINFO, LOCAL} != {}
    && r.flags * {HOST, STATIC, WASCLONED, DYNAMIC, IFSCOPE} != {HOST, STATIC}
  }

  ghost predicate ServersKept(w0: World, w: World, names: seq<Name>, tun: string) {
    forall a :: IsServer(names, a) && !OnThisMachine(a) ==> ServerKept(w0, w, a, tun)
  }

  lemma StaticFlags(flags: set<Flag>)
    ensures flags * {HOST, STATIC, WASCLONED, DYNAMIC} == {HOST, STATIC}
      <==> HOST in flags && STATIC in flags && WASCLONED !in flags && DYNAMIC !in flags
  {
    var s := flags * {HOST, STATIC, WASCLONED, DYNAMIC};
    if s == {HOST, STATIC} {
      assert HOST in s && STATIC in s && WASCLONED !in s && DYNAMIC !in s;
    }
  }

  /** What the last look demands is that the server is kept. */
  lemma KeptIff(w0: World, w: World, want: Want, tun: string)
    requires Wanted(w0, want, tun)
    ensures ServerKept(w0, w, want.a, tun) <==> !Strayed(want, w, tun)
  {
    hide Resolve, RouteTo, PersistentHost, DirectlyConnected;
    PreservedFlags(want.route);
    if RouteTo(w.routes, want.a).Some? {
      StaticFlags(RouteTo(w.routes, want.a).value.flags);
    }
  }

  lemma NoWayIsNotKept(w0: World, w: World, a: Addr, tun: string)
    requires NoWay(w, a, tun)
    ensures !ServerKept(w0, w, a, tun)
  {
    hide Resolve, RouteTo;
  }

  /** What had at most a default route goes into the tunnel. */
  ghost predicate DefaultTaken(w0: World, w: World, c: MacConfig, tun: string) {
    forall b :: Proper(b) && (b.v6 ==> c.v6) && !IsServer(c.names, b)
                && (Resolve(w0.routes, b).Some? ==> |Resolve(w0.routes, b).value.prefix| == 0)
      ==> RouteTo(w.routes, b).Some? && RouteTo(w.routes, b).value.iface == tun
  }

  /** What had a more specific route keeps it, but for the tunnel's own subnet. */
  ghost predicate SpecificKept(w0: World, w: World, c: MacConfig, tun: string) {
    forall b :: Proper(b) && !IsServer(c.names, b)
                && Resolve(w0.routes, b).Some? && |Resolve(w0.routes, b).value.prefix| > 1
                && (forall d :: d in w.routes && Covers(d, b) && w.routes[d].iface == tun ==> |d.prefix| <= 1)
      ==> RouteTo(w.routes, b) == RouteTo(w0.routes, b)
  }

  lemma SplitHolds(w0: World, w: World, undo: seq<Command>, ips: set<Addr>, c: MacConfig, tun: string)
    requires S.Layered(tun, w0, w, undo) && S.PinsAndHalves(undo, ips)
    requires forall a :: a in ips ==> Proper(a) && IsServer(c.names, a)
    requires S.HalvesUp(tun, w, false) && (c.v6 ==> S.HalvesUp(tun, w, true))
    ensures DefaultTaken(w0, w, c, tun) && SpecificKept(w0, w, c, tun)
  {
    hide Resolve, Parts, S.Layered, S.PinsAndHalves, S.HalvesUp, IsServer;
    forall b | Proper(b) && (b.v6 ==> c.v6) && !IsServer(c.names, b)
               && (Resolve(w0.routes, b).Some? ==> |Resolve(w0.routes, b).value.prefix| == 0)
      ensures RouteTo(w.routes, b).Some? && RouteTo(w.routes, b).value.iface == tun
    {
      S.DefaultGoesToTunnel(tun, w0, w, undo, ips, b);
    }
    forall b | Proper(b) && !IsServer(c.names, b)
               && Resolve(w0.routes, b).Some? && |Resolve(w0.routes, b).value.prefix| > 1
               && (forall d :: d in w.routes && Covers(d, b) && w.routes[d].iface == tun ==> |d.prefix| <= 1)
      ensures RouteTo(w.routes, b) == RouteTo(w0.routes, b)
    {
      S.SpecificStays(tun, w0, w, undo, ips, b);
    }
  }

  /** A route that had to be pinned has its undo in the log and its command among those done. */
  predicate Pinned(want: Want, undo: seq<Command>, calls: seq<Call>) {
    var dest, r := Dest(want.a.v6, want.a.bits, false), want.route;
    || r.flags * {HOST, STATIC, WASCLONED, DYNAMIC, IFSCOPE} == {HOST, STATIC}
    || (r.flags * {HOST, GATEWAY} == {HOST} && r.flags * {LLINFO, LOCAL} != {})
    || (&& RouteDelete(dest) in undo
        && Call(RouteAdd(dest, if r.gateway.Via? then ToGateway(r.gateway.a) else ToInterface(r.iface)), Done) in calls)
  }

  lemma PinnedNow(want: Want, undo: seq<Command>, calls: seq<Call>, undo': seq<Command>, calls': seq<Call>)
    requires !Preserved(want.route) ==> undo' == undo + [RouteDelete(S.HostDest(want.a))]
    requires !Preserved(want.route)
      ==> calls' == calls + [Call(RouteAdd(S.HostDest(want.a), PinTarget(want.route)), Done)]
    ensures Pinned(want, undo', calls')
  {
    PreservedFlags(want.route);
    if !Preserved(want.route) {
      assert undo'[|undo|] == RouteDelete(S.HostDest(want.a));
      assert calls'[|calls|] == Call(RouteAdd(S.HostDest(want.a), PinTarget(want.route)), Done);
    }
  }

  lemma PinnedStays(want: Want, undo: seq<Command>, calls: seq<Call>, undo': seq<Command>, calls': seq<Call>)
    requires Pinned(want, undo, calls) && undo <= undo' && calls <= calls'
    ensures Pinned(want, undo', calls')
  {
    hide Preserved, PinTarget;
  }

  /** Pins every server that is not this machine itself. */
  method PinAll(m: Manager, ips: set<Addr>, ghost site: Site, tun: string, ghost w0: World, ghost n: nat)
    returns (wants: Option<seq<Want>>)
    requires m.Valid() && site.tun == tun && n <= |m.host.calls| && NoSplits(m.host.calls, n)
    requires forall a :: a in ips ==> Proper(a)
    requires Pinning(site, w0, m.host.w, m.undo, {}) && NoDns(m.undo)
    modifies m, m.host
    ensures m.Valid() && Pinning(site, w0, m.host.w, m.undo, ips) && NoDns(m.undo)
    ensures old(m.host.cancelled) ==> m.host.cancelled
    ensures old(m.host.calls) <= m.host.calls && NoSplits(m.host.calls, n)
    ensures m.host.w.dns == old(m.host.w.dns)
    ensures wants.Some? ==> forall k :: 0 <= k < |wants.value| ==> Wanted(w0, wants.value[k], tun)
    ensures wants.Some? ==> forall k :: 0 <= k < |wants.value| ==>
      wants.value[k].a in ips && !OnThisMachine(wants.value[k].a)
    ensures m.host.faults >= old(m.host.faults)
    ensures wants.None? ==>
      || m.host.cancelled || m.host.faults > old(m.host.faults)
      || exists a :: a in ips && !OnThisMachine(a) && NoWay(m.host.w, a, tun)
    ensures wants.Some? ==> forall a :: a in ips && !OnThisMachine(a) ==>
      exists k :: 0 <= k < |wants.value| && wants.value[k].a == a
    ensures wants.Some? ==> forall k :: 0 <= k < |wants.value| ==> Pinned(wants.value[k], m.undo, m.host.calls)
  {
    hide Pinning, Wanted, Splits, Loopback, OnThisMachine, Pinned, Preserved, PinTarget, NoWay;
    var todo := ips;
    ghost var done: set<Addr> := {};
    var all: seq<Want> := [];
    while todo != {}
      invariant done + todo == ips && done !! todo
      invariant m.Valid() && Pinning(site, w0, m.host.w, m.undo, done) && NoDns(m.undo)
      invariant old(m.host.cancelled) ==> m.host.cancelled
      invariant old(m.host.calls) <= m.host.calls && NoSplits(m.host.calls, n)
      invariant m.host.w.dns == old(m.host.w.dns) && m.host.faults >= old(m.host.faults)
      invariant forall k :: 0 <= k < |all| ==> Wanted(w0, all[k], tun)
      invariant forall k :: 0 <= k < |all| ==> all[k].a in done && !OnThisMachine(all[k].a)
      invariant forall k :: 0 <= k < |all| ==> Pinned(all[k], m.undo, m.host.calls)
      invariant forall a :: a in done && !OnThisMachine(a) ==> exists k :: 0 <= k < |all| && all[k].a == a
      decreases todo
    {
      var a :| a in todo;
      todo := todo - {a};
      LoopbackIff(a);
      if Loopback(a) {
        PinningMore(site, w0, m.host.w, m.undo, done, a);
      } else {
        ghost var before, log := m.host.calls, m.undo;
        var r := PinRoute(m, a, site, tun, w0, done);
        PinNotSplit(before, m.host.calls, n, a);
        if r.None? {
          PinningAll(site, w0, m.host.w, m.undo, done + {a}, ips);
          return None;
        }
        ghost var was := all;
        all := all + [r.value];
        PinnedNow(r.value, log, before, m.undo, m.host.calls);
        forall k | 0 <= k < |was|
          ensures Pinned(all[k], m.undo, m.host.calls)
        {
          PinnedStays(was[k], log, before, m.undo, m.host.calls);
        }
        forall b | b in done + {a} && !OnThisMachine(b)
          ensures exists k :: 0 <= k < |all| && all[k].a == b
        {
          if b in done {
            var k :| 0 <= k < |was| && was[k].a == b;
            assert all[k].a == b;
          } else {
            assert all[|was|].a == b;
          }
        }
      }
      done := done + {a};
    }
    assert done == ips;
    wants := Some(all);
  }

  lemma PinningMore(site: Site, w0: World, w: World, undo: seq<Command>, done: set<Addr>, a: Addr)
    requires Pinning(site, w0, w, undo, done) && Proper(a)
    ensures Pinning(site, w0, w, undo, done + {a})
  {
    hide Sound, Parts, S.Layered;
  }

  lemma PinningAll(site: Site, w0: World, w: World, undo: seq<Command>, done: set<Addr>, ips: set<Addr>)
    requires Pinning(site, w0, w, undo, done) && done <= ips && forall a :: a in ips ==> Proper(a)
    ensures Pinning(site, w0, w, undo, ips)
  {
    hide Sound, Parts, S.Layered;
  }

  lemma PinNotSplit(before: seq<Call>, calls: seq<Call>, n: nat, a: Addr)
    requires NoSplits(before, n) && Proper(a)
    requires calls == before || exists t, o :: calls == before + [Call(RouteAdd(S.HostDest(a), t), o)]
    ensures NoSplits(calls, n) && before <= calls
  {
  }

  predicate AllAddresses(servers: seq<string>, isIp: string -> bool) {
    forall k :: 0 <= k < |servers| ==> isIp(servers[k])
  }

  /** The present name servers, if they can be read and are addresses. */
  method PresentServers(host: Machine, service: string, isIp: string -> bool) returns (r: Option<seq<string>>)
    modifies host`cancelled, host`faults
    ensures r.Some? ==> r.value == Servers(host.w, service) && AllAddresses(r.value, isIp)
    ensures r.None? ==> host.faults > old(host.faults) || !AllAddresses(Servers(host.w, service), isIp)
    ensures host.faults >= old(host.faults) && (old(host.cancelled) ==> host.cancelled)
  {
    r := host.GetServers(service);
    if r.None? {
      return;
    }
    var k := 0;
    while k < |r.value|
      invariant 0 <= k <= |r.value| && AllAddresses(r.value[..k], isIp)
    {
      if !isIp(r.value[k]) {
        return None;
      }
      k := k + 1;
    }
    assert r.value[..k] == r.value;
  }

  lemma ServersReady(site: Site, w: World, undo: seq<Command>, service: string, dns: seq<string>, isIp: string -> bool)
    requires NoDns(undo) && AllAddresses(Servers(w, service), isIp) && !isIp("Empty")
    ensures Undone(site, w, undo, SetDns(service, dns), Some(SetDns(service, Restoring(Servers(w, service)))))
  {
    hide Parts;
    NoDnsPart(undo, service);
    var servers := Servers(w, service);
    if |servers| == 1 {
      assert servers[0] != "Empty";
    }
  }

  lemma ServersSet(w: World, service: string, dns: seq<string>, w': World)
    requires Effect(w, SetDns(service, dns), w')
    ensures Servers(w', service) == Host.Named(dns)
  {
  }

  /** Sets the name servers, if the present ones can be read and given back. */
  method SetServers(m: Manager, service: string, dns: seq<string>, isIp: string -> bool, ghost site: Site,
      ghost w0: World, ghost ips: set<Addr>, ghost n: nat)
    returns (ok: bool)
    requires m.Valid() && !isIp("Empty") && n <= |m.host.calls| && NoSplits(m.host.calls, n)
    requires Pinning(site, w0, m.host.w, m.undo, ips) && NoDns(m.undo)
    modifies m, m.host
    ensures m.Valid() && Pinning(site, w0, m.host.w, m.undo, ips)
    ensures old(m.host.cancelled) ==> m.host.cancelled
    ensures old(m.host.calls) <= m.host.calls && NoSplits(m.host.calls, n)
    ensures m.host.faults >= old(m.host.faults)
    ensures !ok ==>
      || m.host.cancelled || m.host.faults > old(m.host.faults)
      || !AllAddresses(Servers(old(m.host.w), service), isIp)
    ensures ok ==> m.undo != old(m.undo)
    ensures m.undo == old(m.undo) ==> m.host.w.dns == old(m.host.w.dns)
    ensures m.undo != old(m.undo) ==>
      && m.undo == old(m.undo) + [SetDns(service, Restoring(Servers(old(m.host.w), service)))]
      && Servers(m.host.w, service) == Host.Named(dns)
      && AllAddresses(Servers(old(m.host.w), service), isIp)
  {
    hide Sound, Parts, S.Layered, OnlyPins, AllAddresses, Undone, Effect, Servers, Replay;
    var got := PresentServers(m.host, service, isIp);
    if got.None? {
      return false;
    }
    var change, back := SetDns(service, dns), SetDns(service, Restoring(got.value));
    ghost var w, log := m.host.w, m.undo;
    ServersReady(site, w, log, service, dns, isIp);
    var added := m.Add(change, Some(back), site, w0);
    if added.Added? || added.AddedThenCancelled? {
      ServersPaired(site, w, log, change, back);
      PinningServers(site, w0, w, log, ips, change, back, m.host.w);
      ServersSet(w, service, dns, m.host.w);
    }
    ok := added.Added?;
  }

  lemma ServersPaired(site: Site, w: World, undo: seq<Command>, c: Command, u: Command)
    requires Undone(site, w, undo, c, Some(u))
    ensures Pairs(site, w, c, u)
  {
  }

  /** The servers an undo gives: the ones there were, or the word for none; and either sets those again. */
  lemma RestoringIs(servers: seq<string>)
    ensures Restoring(servers) == if |servers| == 0 then ["Empty"] else servers
    ensures servers != ["Empty"] ==> Host.Named(Restoring(servers)) == servers
  {
  }

  lemma NoDnsPart(undo: seq<Command>, service: string)
    requires NoDns(undo)
    ensures DnsPart(service) !in Parts(undo)
  {
  }

  lemma PinningServers(site: Site, w0: World, w: World, undo: seq<Command>, done: set<Addr>, c: Command, u: Command,
      w': World)
    requires Pinning(site, w0, w, undo, done) && Effect(w, c, w') && Sound(site, w0, w', undo + [u])
    requires c.SetDns? && Pairs(site, w, c, u)
    ensures Pinning(site, w0, w', undo + [u], done)
  {
    hide Sound, Parts, S.Layered, Effect;
    S.DoingLayers(site.tun, w0, w, undo, c, u, w');
    PartsAppend(undo, u);
  }

  // ---------------------------------------------------------------- the halves

  /** The split routes in `up` are installed, and nothing else was since the pins. */
  ghost predicate Halving(site: Site, w0: World, w: World, undo: seq<Command>, ips: set<Addr>, up: set<Dest>) {
    && Sound(site, w0, w, undo) && S.Layered(site.tun, w0, w, undo)
    && (forall a :: a in ips ==> Proper(a))
    && (forall d :: RoutePart(d) in Parts(undo) ==>
          (d in up && S.IsHalf(d)) || exists a :: a in ips && d == S.HostDest(a))
    && (forall d :: d in up ==> d in w.routes && w.routes[d].iface == site.tun)
  }

  lemma PinsBeforeHalves(site: Site, w0: World, w: World, undo: seq<Command>, ips: set<Addr>)
    requires Pinning(site, w0, w, undo, ips)
    ensures Halving(site, w0, w, undo, ips, {})
  {
    hide Sound, S.Layered, Parts;
  }

  lemma HalfFree(site: Site, w0: World, w: World, undo: seq<Command>, ips: set<Addr>, up: set<Dest>, half: Dest)
    requires Halving(site, w0, w, undo, ips, up) && half !in up && S.IsHalf(half)
    ensures RoutePart(half) !in Parts(undo)
  {
    hide Sound, S.Layered, Parts;
  }

  lemma HalvingNext(site: Site, w0: World, w: World, undo: seq<Command>, ips: set<Addr>, up: set<Dest>, half: Dest,
      w': World)
    requires Halving(site, w0, w, undo, ips, up) && S.IsHalf(half)
    requires Effect(w, RouteAdd(half, ToInterface(site.tun)), w') && Sound(site, w0, w', undo + [RouteDelete(half)])
    ensures Halving(site, w0, w', undo + [RouteDelete(half)], ips, up + {half})
  {
    hide Sound, S.Layered, Parts;
    S.DoingLayers(site.tun, w0, w, undo, RouteAdd(half, ToInterface(site.tun)), RouteDelete(half), w');
    PartsAppend(undo, RouteDelete(half));
  }

  function Raised(v6: bool, k: nat): set<Dest> {
    (if k >= 1 then {S.Half(v6, false)} else {}) + if k >= 2 then {S.Half(v6, true)} else {}
  }

  lemma SplitNext(calls: seq<Call>, n: nat, half: Dest, t: Target, o: Outcome)
    requires n <= |calls| && PinsFirst(calls, n) && S.IsHalf(half)
    ensures PinsFirst(calls + [Call(RouteAdd(half, t), o)], n)
  {
  }

  /** Installs one split route. */
  method RaiseHalf(m: Manager, half: Dest, ghost site: Site, tun: string, ghost w0: World, ghost ips: set<Addr>,
      ghost up: set<Dest>, ghost n: nat)
    returns (ok: bool)
    requires m.Valid() && site.tun == tun && n <= |m.host.calls| && PinsFirst(m.host.calls, n)
    requires Halving(site, w0, m.host.w, m.undo, ips, up) && half !in up && S.IsHalf(half)
    modifies m, m.host
    ensures m.Valid() && Sound(site, w0, m.host.w, m.undo)
    ensures ok ==> Halving(site, w0, m.host.w, m.undo, ips, up + {half})
    ensures old(m.host.cancelled) ==> m.host.cancelled
    ensures old(m.host.calls) <= m.host.calls && PinsFirst(m.host.calls, n)
    ensures m.host.w.dns == old(m.host.w.dns)
    ensures m.host.faults >= old(m.host.faults)
    ensures !ok ==> m.host.cancelled || m.host.faults > old(m.host.faults)
  {
    hide Halving, Sound, Parts, Effect, PinsFirst, Replay, S.IsHalf;
    ghost var w, log, calls := m.host.w, m.undo, m.host.calls;
    HalfFree(site, w0, w, log, ips, up, half);
    HalvingSound(site, w0, w, log, ips, up);
    var added := m.Add(RouteAdd(half, ToInterface(tun)), Some(RouteDelete(half)), site, w0);
    forall o {
      SplitNext(calls, n, half, ToInterface(tun), o);
    }
    if added.Added? || added.AddedThenCancelled? {
      HalvingNext(site, w0, w, log, ips, up, half, m.host.w);
      RouteAddOnly(w, half, ToInterface(tun), m.host.w);
    }
    ok := added.Added?;
  }

  lemma RaisedNext(up: set<Dest>, v6: bool, k: nat)
    requires k < 2
    ensures up + Raised(v6, 0) == up
    ensures up + Raised(v6, k) + {S.Half(v6, k == 1)} == up + Raised(v6, k + 1)
    ensures (forall d :: d in up ==> d.v6 != v6) ==> S.Half(v6, k == 1) !in up + Raised(v6, k)
  {
  }

  /** Installs the two split routes of one family. */
  method RaiseHalves(m: Manager, v6: bool, ghost site: Site, tun: string, ghost w0: World, ghost ips: set<Addr>,
      ghost up: set<Dest>, ghost n: nat)
    returns (ok: bool)
    requires m.Valid() && site.tun == tun && n <= |m.host.calls| && PinsFirst(m.host.calls, n)
    requires Halving(site, w0, m.host.w, m.undo, ips, up) && forall d :: d in up ==> d.v6 != v6
    modifies m, m.host
    ensures m.Valid() && Sound(site, w0, m.host.w, m.undo)
    ensures ok ==> Halving(site, w0, m.host.w, m.undo, ips, up + Raised(v6, 2))
    ensures old(m.host.cancelled) ==> m.host.cancelled
    ensures old(m.host.calls) <= m.host.calls && PinsFirst(m.host.calls, n)
    ensures m.host.w.dns == old(m.host.w.dns)
    ensures m.host.faults >= old(m.host.faults)
    ensures !ok ==> m.host.cancelled || m.host.faults > old(m.host.faults)
  {
    hide Halving, Sound, PinsFirst, Raised, Replay;
    RaisedNext(up, v6, 0);
    var k := 0;
    while k < 2
      invariant 0 <= k <= 2 && m.Valid() && m.host.w.dns == old(m.host.w.dns)
      invariant Halving(site, w0, m.host.w, m.undo, ips, up + Raised(v6, k))
      invariant old(m.host.cancelled) ==> m.host.cancelled
      invariant m.host.faults >= old(m.host.faults)
      invariant old(m.host.calls) <= m.host.calls && PinsFirst(m.host.calls, n)
    {
      RaisedNext(up, v6, k);
      ok := RaiseHalf(m, S.Half(v6, k == 1), site, tun, w0, ips, up + Raised(v6, k), n);
      if !ok {
        return;
      }
      k := k + 1;
    }
    HalvingSound(site, w0, m.host.w, m.undo, ips, up + Raised(v6, 2));
    ok := true;
  }

  lemma HalvingSound(site: Site, w0: World, w: World, undo: seq<Command>, ips: set<Addr>, up: set<Dest>)
    requires Halving(site, w0, w, undo, ips, up)
    ensures Sound(site, w0, w, undo)
  {
    hide Sound, S.Layered, Parts;
  }

  // ---------------------------------------------------------------- the whole transaction

  predicate ProperNames(names: seq<Name>) {
    forall k, a :: 0 <= k < |names| && a in AddressesOf(names[k]) ==> Proper(a)
  }

  lemma Starting(site: Site, w0: World)
    ensures Pinning(site, w0, w0, [], {})
  {
    assert Inserted([], false) == [] && Inserted([], true) == [];
    assert Parts([]) == {};
  }

  lemma Addressing(site: Site, w0: World, w: World, v6: bool, w': World)
    requires Pinning(site, w0, w, [], {}) && Effect(w, Configure(site.tun, v6, site.own), w')
    ensures Pinning(site, w0, w', [], {})
  {
    hide Parts, Clean, Effect, S.Layered;
    ConfiguringKeepsClean(site, w0, w, [], v6, site.own, w');
    S.ConfigureLayers(site.tun, w0, w, [], v6, site.own, w');
  }

  lemma NoneYet(calls: seq<Call>)
    ensures NoSplits(calls, |calls|)
  {
  }

  /** Before the halves, a stop leaves the log sound and no split route tried. */
  lemma Stopping(site: Site, w0: World, w: World, undo: seq<Command>, done: set<Addr>, calls: seq<Call>, n: nat)
    requires Pinning(site, w0, w, undo, done) && NoSplits(calls, n) && n <= |calls|
    ensures Sound(site, w0, w, undo) && PinsFirst(calls, n)
  {
    hide Sound, S.Layered, OnlyPins;
  }

  lemma Gathered(names: seq<Name>, ips: set<Addr>)
    requires ProperNames(names) && forall a :: a in ips <==> IsServer(names, a)
    ensures forall a :: a in ips ==> Proper(a)
  {
  }

  lemma LowerHalves()
    ensures forall d :: d in {} + Raised(false, 2) ==> !d.v6
  {
  }

  lemma HalvesRaised(site: Site, w0: World, w: World, undo: seq<Command>, ips: set<Addr>, up: set<Dest>, v6: bool)
    requires Halving(site, w0, w, undo, ips, up)
    requires up == if v6 then {} + Raised(false, 2) + Raised(true, 2) else {} + Raised(false, 2)
    ensures S.Layered(site.tun, w0, w, undo) && S.PinsAndHalves(undo, ips)
    ensures S.HalvesUp(site.tun, w, false) && (v6 ==> S.HalvesUp(site.tun, w, true))
    ensures forall a :: a in ips ==> Proper(a)
    ensures !v6 ==> forall upper :: RoutePart(S.Half(true, upper)) !in Parts(undo)
  {
    hide Sound, S.Layered, Parts;
    forall upper
      ensures S.Half(false, upper) in up && (v6 ==> S.Half(true, upper) in up)
    {
    }
  }

  lemma MeetsIsKept(w0: World, w: World, want: Want, tun: string)
    requires Wanted(w0, want, tun)
    requires RouteTo(w.routes, want.a).Some? && Meets(want, RouteTo(w.routes, want.a).value, tun)
    ensures ServerKept(w0, w, want.a, tun)
  {
    hide ServerKept, Resolve, RouteTo;
    KeptIff(w0, w, want, tun);
  }

  /** A server without a usable route, or with one that strayed, is not kept. */
  lemma NotAllKept(w0: World, w: World, names: seq<Name>, ips: set<Addr>, wants: seq<Want>, tun: string)
    requires forall a :: a in ips ==> IsServer(names, a)
    requires forall k :: 0 <= k < |wants| ==> wants[k].a in ips && !OnThisMachine(wants[k].a)
    requires forall k :: 0 <= k < |wants| ==> Wanted(w0, wants[k], tun)
    requires (exists a :: a in ips && !OnThisMachine(a) && NoWay(w, a, tun))
      || exists k :: 0 <= k < |wants| && Strayed(wants[k], w, tun)
    ensures !ServersKept(w0, w, names, tun)
  {
    hide IsServer, OnThisMachine, ServerKept, Wanted, NoWay, Strayed;
    if a :| a in ips && !OnThisMachine(a) && NoWay(w, a, tun) {
      NoWayIsNotKept(w0, w, a, tun);
    } else {
      var k :| 0 <= k < |wants| && Strayed(wants[k], w, tun);
      KeptIff(w0, w, wants[k], tun);
    }
  }

  lemma AllServersKept(w0: World, w: World, names: seq<Name>, ips: set<Addr>, wants: seq<Want>, tun: string)
    requires forall a :: a in ips <==> IsServer(names, a)
    requires forall a :: a in ips && !OnThisMachine(a) ==> exists k :: 0 <= k < |wants| && wants[k].a == a
    requires forall k :: 0 <= k < |wants| ==> Wanted(w0, wants[k], tun)
    requires forall k :: 0 <= k < |wants| ==>
        RouteTo(w.routes, wants[k].a).Some? && Meets(wants[k], RouteTo(w.routes, wants[k].a).value, tun)
    ensures ServersKept(w0, w, names, tun)
  {
    hide Resolve, RouteTo, IsServer, OnThisMachine, ServerKept, Wanted;
    forall a | IsServer(names, a) && !OnThisMachine(a)
      ensures ServerKept(w0, w, a, tun)
    {
      var k :| 0 <= k < |wants| && wants[k].a == a;
      MeetsIsKept(w0, w, wants[k], tun);
    }
  }

  /** The calls that give the tunnel its addresses. */
  function Addresses(tun: string, own: set<Dest>, v6: bool): seq<Call> {
    [Call(Configure(tun, false, own), Done)] + if v6 then [Call(Configure(tun, true, own), Done)] else []
  }

  /** Gives the tunnel its address of one family. */
  method Address(m: Manager, v6: bool, own: set<Dest>, ghost site: Site, tun: string, ghost w0: World, ghost n: nat)
    returns (ok: bool)
    requires m.Valid() && site.tun == tun && site.own == own && m.undo == [] && Pinning(site, w0, m.host.w, [], {})
    requires n <= |m.host.calls| && NoSplits(m.host.calls, n)
    modifies m, m.host
    ensures m.Valid() && m.undo == [] && Pinning(site, w0, m.host.w, [], {})
    ensures old(m.host.cancelled)
      ==> m.host.cancelled && !ok && m.host.w == old(m.host.w) && m.host.calls == old(m.host.calls)
    ensures old(m.host.calls) <= m.host.calls && NoSplits(m.host.calls, n)
    ensures ok ==> m.host.calls == old(m.host.calls) + [Call(Configure(tun, v6, own), Done)]
    ensures m.host.w.dns == old(m.host.w.dns)
    ensures m.host.faults >= old(m.host.faults)
    ensures !ok ==> m.host.cancelled || m.host.faults > old(m.host.faults)
  {
    hide Pinning, Sound;
    ghost var w := m.host.w;
    var added := m.Add(Configure(tun, v6, own), None, site, w0);
    if added.Added? || added.AddedThenCancelled? {
      Addressing(site, w0, w, v6, m.host.w);
    }
    ok := added.Added?;
  }

  /** Installs the split routes of all configured families. */
  method RaiseAll(m: Manager, v6: bool, ghost site: Site, tun: string, ghost w0: World, ghost ips: set<Addr>,
      ghost n: nat)
    returns (ok: bool)
    requires m.Valid() && site.tun == tun && n <= |m.host.calls| && PinsFirst(m.host.calls, n)
    requires Halving(site, w0, m.host.w, m.undo, ips, {})
    modifies m, m.host
    ensures m.Valid() && Sound(site, w0, m.host.w, m.undo)
    ensures ok ==> S.Layered(tun, w0, m.host.w, m.undo) && S.PinsAndHalves(m.undo, ips)
    ensures ok ==> S.HalvesUp(tun, m.host.w, false) && (v6 ==> S.HalvesUp(tun, m.host.w, true))
    ensures ok && !v6 ==> forall upper :: RoutePart(S.Half(true, upper)) !in Parts(m.undo)
    ensures old(m.host.cancelled) ==> m.host.cancelled
    ensures old(m.host.calls) <= m.host.calls && PinsFirst(m.host.calls, n)
    ensures m.host.w.dns == old(m.host.w.dns)
    ensures m.host.faults >= old(m.host.faults)
    ensures !ok ==> m.host.cancelled || m.host.faults > old(m.host.faults)
  {
    hide Halving, Sound, PinsFirst, Raised, Replay, Parts, PartOf, S.Layered, S.PinsAndHalves, S.HalvesUp;
    ok := RaiseHalves(m, false, site, tun, w0, ips, {}, n);
    if !ok {
      return;
    }
    ghost var up := {} + Raised(false, 2);
    if v6 {
      LowerHalves();
      ok := RaiseHalves(m, true, site, tun, w0, ips, up, n);
      if !ok {
        return;
      }
      up := up + Raised(true, 2);
    }
    HalvesRaised(site, w0, m.host.w, m.undo, ips, up, v6);
  }

  /** Installs the split routes and looks at the servers' routes once more. */
  method RaiseAndVerify(m: Manager, c: MacConfig, wants: seq<Want>, ghost site: Site, tun: string, ghost w0: World,
      ghost ips: set<Addr>, ghost n: nat)
    returns (ok: bool)
    requires m.Valid() && site.tun == tun && n <= |m.host.calls| && PinsFirst(m.host.calls, n)
    requires Pinning(site, w0, m.host.w, m.undo, ips)
    requires forall a :: a in ips <==> IsServer(c.names, a)
    requires forall a :: a in ips && !OnThisMachine(a) ==> exists k :: 0 <= k < |wants| && wants[k].a == a
    requires forall k :: 0 <= k < |wants| ==> wants[k].a in ips && !OnThisMachine(wants[k].a)
    requires forall k :: 0 <= k < |wants| ==> Wanted(w0, wants[k], tun)
    requires forall a :: a in ips ==> Proper(a)
    modifies m, m.host
    ensures m.Valid() && Sound(site, w0, m.host.w, m.undo)
    ensures ok ==> ServersKept(w0, m.host.w, c.names, tun)
    ensures ok ==> DefaultTaken(w0, m.host.w, c, tun) && SpecificKept(w0, m.host.w, c, tun)
    ensures ok && !c.v6 ==> forall upper :: RoutePart(S.Half(true, upper)) !in Parts(m.undo)
    ensures old(m.host.cancelled) ==> m.host.cancelled
    ensures old(m.host.calls) <= m.host.calls && PinsFirst(m.host.calls, n)
    ensures m.host.w.dns == old(m.host.w.dns)
    ensures m.host.faults >= old(m.host.faults)
    ensures !ok ==>
      m.host.cancelled || m.host.faults > old(m.host.faults) || !ServersKept(w0, m.host.w, c.names, tun)
  {
    hide Pinning, Halving, Sound, NoSplits, PinsFirst, ServersKept, DefaultTaken, SpecificKept, IsServer, Wanted,
      Meets, S.Layered, S.HalvesUp, S.PinsAndHalves, Resolve, RouteTo, OnThisMachine, Strayed, Replay, PartOf, Parts;
    PinsBeforeHalves(site, w0, m.host.w, m.undo, ips);
    ok := RaiseAll(m, c.v6, site, tun, w0, ips, n);
    if !ok {
      return;
    }
    SplitHolds(w0, m.host.w, m.undo, ips, c, tun);
    ok := VerifyRoutes(m.host, wants, tun);
    if ok {
      AllServersKept(w0, m.host.w, c.names, ips, wants, tun);
    } else if k :| 0 <= k < |wants| && Strayed(wants[k], m.host.w, tun) {
      NotAllKept(w0, m.host.w, c.names, ips, wants, tun);
    }
  }

  /**
   Why a setup may stop although every command succeeds: a name without an answer, name servers that
   are not addresses, or a server that is not reached as before.
   */
  ghost predicate CannotRun(w0: World, w: World, c: MacConfig, isIp: string -> bool, tun: string) {
    || Looked(None) in c.names
    || (c.service != "" && |c.dns| > 0
        && exists k :: 0 <= k < |Servers(w0, c.service)| && !isIp(Servers(w0, c.service)[k]))
    || !ServersKept(w0, w, c.names, tun)
  }

  /**
   The transaction. Wherever it stops, the log holds exactly what the machine is owed, and
   no split route was tried before the last pin. If it succeeds, every server is reached
   as before, and all else that had at most a default route goes into the tunnel.
   */
  method Mac(m: Manager, tun: string, c: MacConfig, isIp: string -> bool) returns (ok: bool)
    requires m.Valid() && m.undo == [] && ProperNames(c.names) && !isIp("Empty")
    modifies m, m.host
    ensures m.Valid() && Sound(MacSite(tun, c.own), old(m.host.w), m.host.w, m.undo)
    ensures old(m.host.calls) <= m.host.calls && PinsFirst(m.host.calls, |old(m.host.calls)|)
    ensures old(m.host.cancelled)
      ==> m.host.cancelled && !ok && m.host.w == old(m.host.w) && m.host.calls == old(m.host.calls)
    ensures Looked(None) in c.names ==> !ok && m.undo == []
    ensures m.host.faults >= old(m.host.faults)
    ensures !ok ==>
      m.host.cancelled || m.host.faults > old(m.host.faults) || CannotRun(old(m.host.w), m.host.w, c, isIp, tun)
    ensures ok ==> ServersKept(old(m.host.w), m.host.w, c.names, tun)
    ensures ok ==> DefaultTaken(old(m.host.w), m.host.w, c, tun) && SpecificKept(old(m.host.w), m.host.w, c, tun)
    ensures ok ==> old(m.host.calls) + Addresses(tun, c.own, c.v6) <= m.host.calls
    ensures ok && !c.v6 ==> forall upper :: RoutePart(S.Half(true, upper)) !in Parts(m.undo)
    ensures ok && c.service != "" && |c.dns| > 0 ==> Servers(m.host.w, c.service) == Host.Named(c.dns)
    ensures c.service == "" || c.dns == [] ==> m.host.w.dns == old(m.host.w.dns)
  {
    hide Pinning, Halving, Sound, NoSplits, PinsFirst, ServersKept, DefaultTaken, SpecificKept, IsServer, Wanted,
      Meets, Raised, ProperNames, S.Layered, S.HalvesUp, S.PinsAndHalves, Resolve, Effect,
      Host.Named, OnThisMachine, NoWay, Strayed, Replay, PartOf, Parts;
    ghost var site, w0, n := MacSite(tun, c.own), m.host.w, |m.host.calls|;
    NoneYet(m.host.calls);
    Starting(site, w0);
    ok := Address(m, false, c.own, site, tun, w0, n);
    if ok && c.v6 {
      ok := Address(m, true, c.own, site, tun, w0, n);
    }
    Stopping(site, w0, m.host.w, m.undo, {}, m.host.calls, n);
    if !ok {
      return;
    }
    var ips := Gather(c.names);
    if ips.None? {
      return false;
    }
    Gathered(c.names, ips.value);
    var wants := PinAll(m, ips.value, site, tun, w0, n);
    Stopping(site, w0, m.host.w, m.undo, ips.value, m.host.calls, n);
    if wants.None? {
      if a :| a in ips.value && !OnThisMachine(a) && NoWay(m.host.w, a, tun) {
        NotAllKept(w0, m.host.w, c.names, ips.value, [], tun);
      }
      return false;
    }
    if c.service != "" && |c.dns| > 0 {
      assert Servers(m.host.w, c.service) == Servers(w0, c.service);
      ok := SetServers(m, c.service, c.dns, isIp, site, w0, ips.value, n);
      Stopping(site, w0, m.host.w, m.undo, ips.value, m.host.calls, n);
      if !ok {
        return;
      }
    }
    ok := RaiseAndVerify(m, c, wants.value, site, tun, w0, ips.value, n);
  }
}
