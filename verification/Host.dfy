/**
 The machine the network setup works on: routes, DNS servers, kernel settings and
 firewall chains, and what the commands of the setup do to them. Any command may
 fail, and then it changes nothing.
 */
module Host {
  import opened Octets

  /** An address as its bits, 32 of them or 128. */
  datatype Addr = Addr(v6: bool, bits: seq<bool>)

  predicate Proper(a: Addr) {
    |a.bits| == if a.v6 then 128 else 32
  }

  /** The bits as a number, the first the most significant. */
  function Value(bits: seq<bool>): nat {
    if bits == [] then 0 else 2 * Value(bits[..|bits| - 1]) + if bits[|bits| - 1] then 1 else 0
  }

  function Pow2(n: nat): nat {
    if n == 0 then 1 else 2 * Pow2(n - 1)
  }

  lemma {:induction false} ValueSplits(a: seq<bool>, b: seq<bool>)
    ensures Value(a + b) == Value(a) * Pow2(|b|) + Value(b) && Value(b) < Pow2(|b|)
  {
    if b == [] {
      assert a + b == a;
    } else {
      var c, last := b[..|b| - 1], if b[|b| - 1] then 1 else 0;
      ValueSplits(a, c);
      assert (a + b)[..|a + b| - 1] == a + c && (a + b)[|a + b| - 1] == b[|b| - 1];
      assert Value(a + b) == 2 * Value(a + c) + last && Value(b) == 2 * Value(c) + last;
      assert Pow2(|b|) == 2 * Pow2(|c|);
      hide Value, Pow2;
      Doubled(Value(a), Pow2(|c|));
    }
  }

  lemma Doubled(x: nat, y: nat)
    ensures 2 * (x * y) == x * (2 * y)
  {
  }

  lemma {:induction false} ValueIsOne(a: seq<bool>, b: seq<bool>)
    requires |a| == |b| && Value(a) == Value(b)
    ensures a == b
  {
    if a != [] {
      var n := |a| - 1;
      assert a[n] == b[n];
      ValueIsOne(a[..n], b[..n]);
      assert a == a[..n] + [a[n]] && b == b[..n] + [b[n]];
    }
  }

  /** What a route is for. Routes scoped to one interface are kept beside the others. */
  datatype Dest = Dest(v6: bool, prefix: seq<bool>, scoped: bool)

  datatype Flag = HOST | STATIC | WASCLONED | DYNAMIC | IFSCOPE | GATEWAY | LLINFO | LOCAL | REJECT | BLACKHOLE

  datatype Gateway = NoGateway | Link(text: string) | Via(a: Addr)

  datatype Route = Route(gateway: Gateway, iface: string, flags: set<Flag>)

  type Rule = seq<string>

  datatype Chains = Chains(forward: seq<Rule>, postrouting: seq<Rule>)

  datatype World = World(
    routes: map<Dest, Route>,
    dns: map<string, seq<string>>,
    sysctl: map<string, string>,
    ip4: Chains, ip6: Chains)

  function TableOf(w: World, v6: bool): Chains {
    if v6 then w.ip6 else w.ip4
  }

  function WithTable(w: World, v6: bool, t: Chains): World {
    if v6 then w.(ip6 := t) else w.(ip4 := t)
  }

  function Servers(w: World, service: string): seq<string> {
    if service in w.dns then w.dns[service] else []
  }

  function Setting(w: World, key: string): string {
    if key in w.sysctl then w.sysctl[key] else ""
  }

  function DeleteFirst(s: seq<Rule>, r: Rule): seq<Rule> {
    if s == [] then [] else if s[0] == r then s[1..] else [s[0]] + DeleteFirst(s[1..], r)
  }

  // ---------------------------------------------------------------- commands

  datatype Target = ToGateway(a: Addr) | ToInterface(iface: string)

  datatype Command =
    /** `own` are the destinations of the routes that may come with the address. */
    | Configure(iface: string, v6: bool, own: set<Dest>)
    | RouteAdd(dest: Dest, target: Target) | RouteDelete(dest: Dest)
    | SetDns(service: string, servers: seq<string>)
    | SysctlWrite(key: string, value: string)
    | NatAppend(v6: bool, rule: Rule) | NatDelete(v6: bool, rule: Rule)
    | ForwardInsert(v6: bool, rule: Rule) | ForwardDelete(v6: bool, rule: Rule)

  /** Entries the kernel clones from others; an added route replaces them. */
  predicate Cloned(r: Route) {
    WASCLONED in r.flags
  }

  /** `networksetup` takes the word Empty for no servers. */
  function Named(servers: seq<string>): seq<string> {
    if servers == ["Empty"] then [] else servers
  }

  ghost predicate SameButRoutes(w: World, w': World) {
    w' == w.(routes := w'.routes)
  }

  /** Only routes bound to `iface` appear, only to its own destinations, and none is replaced. */
  ghost predicate OnlyAdds(routes: map<Dest, Route>, routes': map<Dest, Route>, iface: string, own: set<Dest>) {
    && (forall d :: d in routes ==> d in routes' && routes'[d] == routes[d])
    && (forall d :: d in routes' && d !in routes ==> routes'[d].iface == iface && d in own)
  }

  ghost predicate NewRoute(c: Command, r: Route)
    requires c.RouteAdd?
  {
    && STATIC in r.flags && !Cloned(r) && IFSCOPE !in r.flags && DYNAMIC !in r.flags
    && REJECT !in r.flags && BLACKHOLE !in r.flags
    && match c.target
       case ToInterface(i) => r.iface == i
       case ToGateway(a) => r.gateway == Via(a)
  }

  /** What a command does when it succeeds. */
  ghost predicate Effect(w: World, c: Command, w': World) {
    match c
    case Configure(iface, _, own) => SameButRoutes(w, w') && OnlyAdds(w.routes, w'.routes, iface, own)
    case RouteAdd(d, _) =>
      && !(d in w.routes && !Cloned(w.routes[d]))
      && d in w'.routes && NewRoute(c, w'.routes[d]) && w' == w.(routes := w.routes[d := w'.routes[d]])
    case RouteDelete(d) => d in w.routes && w' == w.(routes := w.routes - {d})
    case SetDns(s, servers) => w' == w.(dns := w.dns[s := Named(servers)])
    case SysctlWrite(k, v) => w' == w.(sysctl := w.sysctl[k := v])
    case NatAppend(v6, r) =>
      var t := TableOf(w, v6); w' == WithTable(w, v6, t.(postrouting := t.postrouting + [r]))
    case NatDelete(v6, r) =>
      var t := TableOf(w, v6);
      r in t.postrouting && w' == WithTable(w, v6, t.(postrouting := DeleteFirst(t.postrouting, r)))
    case ForwardInsert(v6, r) =>
      var t := TableOf(w, v6); w' == WithTable(w, v6, t.(forward := [r] + t.forward))
    case ForwardDelete(v6, r) =>
      var t := TableOf(w, v6);
      r in t.forward && w' == WithTable(w, v6, t.(forward := DeleteFirst(t.forward, r)))
  }

  datatype Outcome = Done | Failed | NotInTable

  /** One run of a command. The kernel says "not in table" only of a route it does not have. */
  ghost predicate Runs(w: World, c: Command, r: Outcome, w': World) {
    match r
    case Done => Effect(w, c, w')
    case Failed => w' == w
    case NotInTable => w' == w && (c.RouteDelete? ==> c.dest !in w.routes)
  }

  /** A route that went away with its interface needs no deleting. */
  predicate Tolerated(c: Command, r: Outcome) {
    c.RouteDelete? && r == NotInTable
  }

  predicate Settles(c: Command, r: Outcome) {
    r == Done || Tolerated(c, r)
  }

  // ---------------------------------------------------------------- lookup

  /** The entry for `a` among prefixes of at most `n` bits: the longest, and an unscoped one before a scoped one. */
  function Lookup(routes: map<Dest, Route>, a: Addr, n: nat): Option<Dest>
    requires n <= |a.bits|
  {
    if Dest(a.v6, a.bits[..n], false) in routes then Some(Dest(a.v6, a.bits[..n], false))
    else if Dest(a.v6, a.bits[..n], true) in routes then Some(Dest(a.v6, a.bits[..n], true))
    else if n == 0 then None
    else Lookup(routes, a, n - 1)
  }

  function Resolve(routes: map<Dest, Route>, a: Addr): Option<Dest> {
    Lookup(routes, a, |a.bits|)
  }

  function RouteTo(routes: map<Dest, Route>, a: Addr): Option<Route> {
    var d := Resolve(routes, a);
    if d.Some? && d.value in routes then Some(routes[d.value]) else None
  }

  predicate Covers(d: Dest, a: Addr) {
    d.v6 == a.v6 && d.prefix <= a.bits
  }

  /**
   Longest-prefix match: the entry found covers the address, and no entry that covers it is longer,
   or equally long and unscoped beside a scoped one.
   */
  lemma {:induction false} LookupIsLongest(routes: map<Dest, Route>, a: Addr, n: nat)
    requires n <= |a.bits|
    ensures var r := Lookup(routes, a, n);
      && (r.Some? ==> r.value in routes && Covers(r.value, a) && |r.value.prefix| <= n)
      && (forall d :: d in routes && Covers(d, a) && |d.prefix| <= n ==>
            r.Some? && (|d.prefix| < |r.value.prefix|
            || (|d.prefix| == |r.value.prefix| && (r.value.scoped ==> d.scoped))))
  {
    forall d | d in routes && Covers(d, a) && |d.prefix| == n
      ensures d == Dest(a.v6, a.bits[..n], d.scoped)
    {
    }
    if n > 0 {
      LookupIsLongest(routes, a, n - 1);
    }
  }

  // ---------------------------------------------------------------- the machine

  datatype Call = Call(c: Command, r: Outcome)

  class Machine {
    var w: World
    /** The context of the setup; cancellation may strike during any command and is never undone. */
    var cancelled: bool
    var calls: seq<Call>
    /** How many commands did not succeed and how many answers could not be read. */
    var faults: nat

    constructor (w: World)
      ensures this.w == w && !cancelled && calls == [] && faults == 0
    {
      this.w, cancelled, calls, faults := w, false, [], 0;
    }

    /** `ctx.Err() != nil`. */
    method ContextDone() returns (done: bool)
      modifies this`cancelled
      ensures old(cancelled) ==> cancelled
      ensures done == cancelled
    {
      var strike := *;
      cancelled := cancelled || strike;
      done := cancelled;
    }

    /** The kernel and the tools decide whether a command succeeds, and what route a new address or gateway leads to. */
    method Execute(c: Command) returns (r: Outcome)
      modifies this`w
      ensures Runs(old(w), c, r, w)
    {
      var able, anyIface, anyRoutes := *, *, *;
      r := Failed;
      if able {
        match c {
          case Configure(iface, _, own) =>
            var added: map<Dest, Route> := anyRoutes;
            w := w.(routes := (map d | d in added && d in own && d !in w.routes :: added[d].(iface := iface))
            + w.routes);
            r := Done;
          case RouteAdd(d, target) =>
            if d !in w.routes || Cloned(w.routes[d]) {
              var host := if |d.prefix| == (if d.v6 then 128 else 32) then {HOST, STATIC} else {STATIC};
              var route := match target
                case ToInterface(i) => Route(NoGateway, i, host)
                case ToGateway(a) => Route(Via(a), anyIface, host + {GATEWAY});
              w := w.(routes := w.routes[d := route]);
              r := Done;
            }
          case RouteDelete(d) =>
            if d in w.routes {
              w := w.(routes := w.routes - {d});
              r := Done;
            } else {
              r := NotInTable;
            }
          case SetDns(s, servers) =>
            w := w.(dns := w.dns[s := Named(servers)]);
            r := Done;
          case SysctlWrite(k, v) =>
            w := w.(sysctl := w.sysctl[k := v]);
            r := Done;
          case NatAppend(v6, rule) =>
            var t := TableOf(w, v6);
            w := WithTable(w, v6, t.(postrouting := t.postrouting + [rule]));
            r := Done;
          case NatDelete(v6, rule) =>
            var t := TableOf(w, v6);
            if rule in t.postrouting {
              w := WithTable(w, v6, t.(postrouting := DeleteFirst(t.postrouting, rule)));
              r := Done;
            }
          case ForwardInsert(v6, rule) =>
            var t := TableOf(w, v6);
            w := WithTable(w, v6, t.(forward := [rule] + t.forward));
            r := Done;
          case ForwardDelete(v6, rule) =>
            var t := TableOf(w, v6);
            if rule in t.forward {
              w := WithTable(w, v6, t.(forward := DeleteFirst(t.forward, rule)));
              r := Done;
            }
        }
      }
    }

    /** One command, its record, and cancellation that may strike meanwhile. */
    method Run(c: Command) returns (r: Outcome)
      modifies this
      ensures Runs(old(w), c, r, w) && calls == old(calls) + [Call(c, r)]
      ensures old(cancelled) ==> cancelled
      ensures faults == old(faults) + if r == Done then 0 else 1
    {
      hide Runs;
      var strike := *;
      r := Execute(c);
      calls := calls + [Call(c, r)];
      cancelled := cancelled || strike;
      faults := faults + if r == Done then 0 else 1;
    }

    /** `route get`, when it can be read. */
    method GetRoute(a: Addr) returns (r: Option<Route>)
      modifies this`cancelled, this`faults
      ensures old(cancelled) ==> cancelled
      ensures r.Some? ==> r == RouteTo(w.routes, a)
      ensures faults >= old(faults) && (r.None? ==> faults > old(faults) || RouteTo(w.routes, a).None?)
    {
      var able, strike := *, *;
      cancelled := cancelled || strike;
      faults := faults + if able then 0 else 1;
      r := if able then RouteTo(w.routes, a) else None;
    }

    method GetServers(service: string) returns (r: Option<seq<string>>)
      modifies this`cancelled, this`faults
      ensures old(cancelled) ==> cancelled
      ensures r.Some? ==> r.value == Servers(w, service)
      ensures faults == old(faults) + if r.None? then 1 else 0
    {
      var able, strike := *, *;
      faults := faults + if able then 0 else 1;
      cancelled := cancelled || strike;
      r := if able then Some(Servers(w, service)) else None;
    }

    method GetSetting(key: string) returns (r: Option<string>)
      modifies this`cancelled, this`faults
      ensures old(cancelled) ==> cancelled
      ensures r.Some? ==> r.value == Setting(w, key)
      ensures faults == old(faults) + if r.None? then 1 else 0
    {
      var able, strike := *, *;
      faults := faults + if able then 0 else 1;
      cancelled := cancelled || strike;
      r := if able then Some(Setting(w, key)) else None;
    }

    /** Creates the tunnel interface, which gives it no route yet. */
    method Create() returns (ok: bool)
      modifies this`faults
      ensures faults == old(faults) + if ok then 0 else 1
    {
      ok := *;
      faults := faults + if ok then 0 else 1;
    }

    /** Destroying a tunnel interface takes its routes with it. */
    method Destroy(iface: string)
      modifies this`w
      ensures w == old(w).(routes := Without(old(w).routes, iface))
    {
      w := w.(routes := Without(w.routes, iface));
    }
  }

  function Without(routes: map<Dest, Route>, iface: string): map<Dest, Route> {
    map d | d in routes && routes[d].iface != iface :: routes[d]
  }
}
