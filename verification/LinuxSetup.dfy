/**
 The Linux server's network transaction: addresses, forwarding settings, masquerading and two
 forwarding rules for each family.
 */
module LinuxSetup {
  import opened Octets
  import opened Host
  import opened Restoration
  import opened UndoLog

  /** One family: its subnet and the client's address. */
  datatype Family = Family(subnet: string, peer: string)

  /** `own` are the destinations that come with the tunnel's addresses. */
  datatype LinuxConfig = LinuxConfig(own: set<Dest>, server: bool, egress: string, v4: Family, v6: Option<Family>)

  /** The interface to the outside: as configured, or the device of the first default route. */
  function Egress(c: LinuxConfig, device: Option<string>): Option<string> {
    if c.egress != "" then Some(c.egress) else device
  }

  function Key(v6: bool): string {
    if v6 then "net.ipv6.conf.all.forwarding" else "net.ipv4.ip_forward"
  }

  function MasqueradeRule(f: Family, egress: string): Rule {
    ["-s", f.subnet, "-o", egress, "-j", "MASQUERADE"]
  }

  function OutRule(f: Family, tun: string, egress: string): Rule {
    ["-i", tun, "-o", egress, "-s", f.peer, "-j", "ACCEPT"]
  }

  function BackRule(f: Family, tun: string, egress: string): Rule {
    ["-i", egress, "-o", tun, "-d", f.peer, "-m", "conntrack", "--ctstate", "RELATED,ESTABLISHED", "-j", "ACCEPT"]
  }

  function LinuxSite(c: LinuxConfig, tun: string, device: Option<string>): Site {
    match Egress(c, device)
    case Some(e) => Site(tun, c.own, MasqueradeRule(c.v4, e), if c.v6.Some? then MasqueradeRule(c.v6.value, e) else [])
    case None => Site(tun, c.own, [], [])
  }

  /** The part of an undo that belongs to one family. */
  predicate InFamily(u: Command, v6: bool) {
    match u
    case SysctlWrite(k, _) => k == Key(v6)
    case NatDelete(f, _) => f == v6
    case ForwardDelete(f, _) => f == v6
    case _ => false
  }

  /** Nothing of this family is in the log yet. */
  predicate Untouched(undo: seq<Command>, v6: bool) {
    forall k :: 0 <= k < |undo| ==> !InFamily(undo[k], v6)
  }

  /** What the server needs of one family. */
  ghost predicate Forwards(w0: World, w: World, f: Family, v6: bool, tun: string, egress: string) {
    && Setting(w, Key(v6)) == "1"
    && TableOf(w, v6).postrouting == TableOf(w0, v6).postrouting + [MasqueradeRule(f, egress)]
    && TableOf(w, v6).forward == [BackRule(f, tun, egress), OutRule(f, tun, egress)] + TableOf(w0, v6).forward
  }

  /**
   In plain words: forwarding is switched on, the chain after routing ends with the masquerading of
   the tunnel's subnet, and the forwarding chain starts with the two rules of the client's address.
   The way out is the configured interface, or else the device of the default route.
   */
  lemma ForwardsMeans(w0: World, w: World, c: LinuxConfig, device: Option<string>, f: Family, v6: bool, tun: string)
    requires Egress(c, device).Some? && Forwards(w0, w, f, v6, tun, Egress(c, device).value)
    ensures c.egress == "" ==> device.Some?
    ensures var out := if c.egress == "" then device.value else c.egress;
      var chains, before := if v6 then w.ip6 else w.ip4, if v6 then w0.ip6 else w0.ip4;
      && Setting(w, if v6 then "net.ipv6.conf.all.forwarding" else "net.ipv4.ip_forward") == "1"
      && chains.postrouting == before.postrouting + [["-s", f.subnet, "-o", out, "-j", "MASQUERADE"]]
      && |chains.forward| == 2 + |before.forward| && chains.forward[2..] == before.forward
      && chains.forward[1] == ["-i", tun, "-o", out, "-s", f.peer, "-j", "ACCEPT"]
      && chains.forward[0] == ["-i", out, "-o", tun, "-d", f.peer, "-m", "conntrack", "--ctstate",
                               "RELATED,ESTABLISHED", "-j", "ACCEPT"]
  {
  }

  ghost predicate SameFamily(w: World, w': World, v6: bool) {
    Setting(w', Key(v6)) == Setting(w, Key(v6)) && TableOf(w', v6) == TableOf(w, v6)
  }

  lemma FamilyParts(undo: seq<Command>, v6: bool, u: Command)
    requires Untouched(undo, v6) && InFamily(u, v6)
    ensures PartOf(u) !in Parts(undo)
  {
  }

  /** The rules of one family, in the order they are added. */
  function Rules(f: Family, v6: bool, tun: string, egress: string): (r: seq<Command>)
    ensures |r| == 3
  {
    [NatAppend(v6, MasqueradeRule(f, egress)), ForwardInsert(v6, OutRule(f, tun, egress)),
     ForwardInsert(v6, BackRule(f, tun, egress))]
  }

  predicate Adds(c: Command, v6: bool) {
    (c.NatAppend? || c.ForwardInsert?) && c.v6 == v6
  }

  /** The same command with `-D` in place of `-A` or `-I`. */
  function Deletion(c: Command): Command {
    match c
    case NatAppend(v6, r) => NatDelete(v6, r)
    case ForwardInsert(v6, r) => ForwardDelete(v6, r)
    case _ => c
  }

  function Added(t: Chains, c: Command): Chains {
    match c
    case NatAppend(_, r) => t.(postrouting := t.postrouting + [r])
    case ForwardInsert(_, r) => t.(forward := [r] + t.forward)
    case _ => t
  }

  function AllAdded(t: Chains, rules: seq<Command>): Chains {
    if rules == [] then t else Added(AllAdded(t, rules[..|rules| - 1]), rules[|rules| - 1])
  }

  lemma AddedEffect(w: World, c: Command, v6: bool, w': World)
    requires Adds(c, v6) && Effect(w, c, w')
    ensures TableOf(w', v6) == Added(TableOf(w, v6), c) && TableOf(w', !v6) == TableOf(w, !v6) && w'.sysctl == w.sysctl
  {
  }

  lemma NoneAdded(t: Chains, rules: seq<Command>)
    ensures AllAdded(t, rules[..0]) == t
  {
  }

  lemma AllAddedNext(t: Chains, rules: seq<Command>, k: nat)
    requires k < |rules|
    ensures AllAdded(t, rules[..k + 1]) == Added(AllAdded(t, rules[..k]), rules[k])
  {
    assert rules[..k + 1][..k] == rules[..k];
  }

  /** The rules do not touch each other's parts. */
  lemma RulesApart(f: Family, v6: bool, tun: string, egress: string, i: nat, j: nat)
    requires i < j < 3
    ensures var r := Rules(f, v6, tun, egress);
      Adds(r[i], v6) && Adds(r[j], v6) && PartOf(Deletion(r[i])) != PartOf(Deletion(r[j]))
  {
    assert |OutRule(f, tun, egress)| != |BackRule(f, tun, egress)|;
  }

  lemma AllThree(w0: World, w: World, f: Family, v6: bool, tun: string, egress: string)
    requires Setting(w, Key(v6)) == "1"
    requires TableOf(w, v6) == AllAdded(TableOf(w0, v6), Rules(f, v6, tun, egress))
    ensures Forwards(w0, w, f, v6, tun, egress)
  {
    var t, r := TableOf(w0, v6), Rules(f, v6, tun, egress);
    AllAddedNext(t, r, 0);
    AllAddedNext(t, r, 1);
    AllAddedNext(t, r, 2);
    assert r[..3] == r && r[..0] == [];
    assert AllAdded(t, r[..0]) == t;
    var masq, out, back := MasqueradeRule(f, egress), OutRule(f, tun, egress), BackRule(f, tun, egress);
    assert AllAdded(t, r[..1]) == t.(postrouting := t.postrouting + [masq]);
    assert AllAdded(t, r[..2]).forward == [out] + t.forward;
    assert AllAdded(t, r).forward == [back] + ([out] + t.forward) == [back, out] + t.forward;
  }

  /** Of the rules from number `k` on, none is in the log yet. */
  predicate Ahead(undo: seq<Command>, rules: seq<Command>, v6: bool, k: nat) {
    forall i :: k <= i < |rules| ==> Adds(rules[i], v6) && PartOf(Deletion(rules[i])) !in Parts(undo)
  }

  lemma AllAhead(undo: seq<Command>, f: Family, v6: bool, tun: string, egress: string)
    requires Untouched(undo, v6)
    ensures Ahead(undo, Rules(f, v6, tun, egress), v6, 0)
  {
    hide Parts;
    forall i | 0 <= i < 3
      ensures Adds(Rules(f, v6, tun, egress)[i], v6) && PartOf(Deletion(Rules(f, v6, tun, egress)[i])) !in Parts(undo)
    {
      FamilyParts(undo, v6, Deletion(Rules(f, v6, tun, egress)[i]));
    }
  }

  lemma AheadPastSetting(undo: seq<Command>, rules: seq<Command>, v6: bool, u: Command)
    requires Ahead(undo, rules, v6, 0) && u.SysctlWrite?
    ensures Ahead(undo + [u], rules, v6, 0)
  {
    hide Parts;
    PartsAppend(undo, u);
  }

  lemma AheadNext(undo: seq<Command>, f: Family, v6: bool, tun: string, egress: string, k: nat)
    requires k < 3 && Ahead(undo, Rules(f, v6, tun, egress), v6, k)
    ensures Ahead(undo + [Deletion(Rules(f, v6, tun, egress)[k])], Rules(f, v6, tun, egress), v6, k + 1)
  {
    hide Parts;
    var rules := Rules(f, v6, tun, egress);
    PartsAppend(undo, Deletion(rules[k]));
    forall i | k + 1 <= i < 3
      ensures Adds(rules[i], v6) && PartOf(Deletion(rules[i])) !in Parts(undo + [Deletion(rules[k])])
    {
      hide Rules;
      RulesApart(f, v6, tun, egress, k, i);
    }
  }

  lemma RuleReady(site: Site, w: World, undo: seq<Command>, f: Family, v6: bool, tun: string, egress: string, k: nat)
    requires k < 3 && Ahead(undo, Rules(f, v6, tun, egress), v6, k) && Masquerade(site, v6) == MasqueradeRule(f, egress)
    ensures var c := Rules(f, v6, tun, egress)[k];
      Adds(c, v6) && InFamily(Deletion(c), v6) && Undone(site, w, undo, c, Some(Deletion(c)))
  {
    hide Parts;
  }

  lemma StaysUntouched(undo: seq<Command>, v6: bool, u: Command)
    requires Untouched(undo, !v6) && InFamily(u, v6)
    ensures Untouched(undo + [u], !v6)
  {
    assert Key(false) != Key(true);
  }

  lemma SwitchReady(site: Site, w: World, undo: seq<Command>, v6: bool)
    requires Untouched(undo, v6)
    ensures Undone(site, w, undo, SysctlWrite(Key(v6), "1"), Some(SysctlWrite(Key(v6), Setting(w, Key(v6)))))
  {
    hide Untouched, Parts, Key;
    FamilyParts(undo, v6, SysctlWrite(Key(v6), Setting(w, Key(v6))));
  }

  lemma SwitchedOn(w: World, v6: bool, w': World)
    requires Effect(w, SysctlWrite(Key(v6), "1"), w')
    ensures Setting(w', Key(v6)) == "1" && Setting(w', Key(!v6)) == Setting(w, Key(!v6))
    ensures w'.ip4 == w.ip4 && w'.ip6 == w.ip6
  {
    assert Key(false) != Key(true);
  }

  /** Turns forwarding on, unless it is on. */
  method Forwarding(m: Manager, v6: bool, ghost site: Site, ghost w0: World) returns (ok: bool)
    requires m.Valid() && Sound(site, w0, m.host.w, m.undo) && Untouched(m.undo, v6)
    modifies m, m.host
    ensures m.Valid() && Sound(site, w0, m.host.w, m.undo)
    ensures old(m.host.cancelled) ==> m.host.cancelled
    ensures ok ==> Setting(m.host.w, Key(v6)) == "1"
    ensures Setting(m.host.w, Key(!v6)) == Setting(old(m.host.w), Key(!v6))
    ensures m.host.w.ip4 == old(m.host.w).ip4 && m.host.w.ip6 == old(m.host.w).ip6
    ensures m.undo == old(m.undo) || m.undo == old(m.undo) + [SysctlWrite(Key(v6), Setting(old(m.host.w), Key(v6)))]
    ensures Setting(old(m.host.w), Key(v6)) == "1" ==> m.undo == old(m.undo) && m.host.calls == old(m.host.calls)
    ensures old(m.host.calls) <= m.host.calls
    ensures m.host.faults >= old(m.host.faults)
    ensures !ok ==> m.host.cancelled || m.host.faults > old(m.host.faults)
  {
    hide Sound, Undone, Untouched, Effect, Setting, Key, Replay;
    var was := m.host.GetSetting(Key(v6));
    if was.None? {
      return false;
    }
    if was.value == "1" {
      return true;
    }
    ghost var w := m.host.w;
    SwitchReady(site, w, m.undo, v6);
    var added := m.Add(SysctlWrite(Key(v6), "1"), Some(SysctlWrite(Key(v6), was.value)), site, w0);
    if added.Added? || added.AddedThenCancelled? {
      SwitchedOn(w, v6, m.host.w);
    }
    ok := added.Added?;
  }

  /** Adds the three rules of one family, each with its deletion as the undo. */
  method AddRules(m: Manager, f: Family, v6: bool, tun: string, egress: string, ghost site: Site, ghost w0: World)
    returns (ok: bool)
    requires m.Valid() && Sound(site, w0, m.host.w, m.undo) && Ahead(m.undo, Rules(f, v6, tun, egress), v6, 0)
    requires Masquerade(site, v6) == MasqueradeRule(f, egress)
    modifies m, m.host
    ensures m.Valid() && Sound(site, w0, m.host.w, m.undo)
    ensures old(m.host.cancelled) ==> m.host.cancelled
    ensures old(m.host.calls) <= m.host.calls
    ensures ok ==> TableOf(m.host.w, v6) == AllAdded(TableOf(old(m.host.w), v6), Rules(f, v6, tun, egress))
    ensures TableOf(m.host.w, !v6) == TableOf(old(m.host.w), !v6) && m.host.w.sysctl == old(m.host.w.sysctl)
    ensures Untouched(old(m.undo), !v6) ==> Untouched(m.undo, !v6)
    ensures m.host.faults >= old(m.host.faults)
    ensures !ok ==> m.host.cancelled || m.host.faults > old(m.host.faults)
  {
    hide Sound, Parts, Untouched, Ahead, Adds, Added, AllAdded, Effect, Rules, Masquerade, PartOf, Replay, TableOf;
    ghost var start, spare := m.host.w, Untouched(m.undo, !v6);
    var rules := Rules(f, v6, tun, egress);
    var k := 0;
    NoneAdded(TableOf(start, v6), rules);
    while k < |rules|
      invariant 0 <= k <= |rules| && m.Valid() && Sound(site, w0, m.host.w, m.undo)
      invariant old(m.host.cancelled) ==> m.host.cancelled
      invariant old(m.host.calls) <= m.host.calls && m.host.faults >= old(m.host.faults)
      invariant Ahead(m.undo, rules, v6, k) && (spare ==> Untouched(m.undo, !v6))
      invariant TableOf(m.host.w, !v6) == TableOf(start, !v6) && m.host.w.sysctl == start.sysctl
      invariant TableOf(m.host.w, v6) == AllAdded(TableOf(start, v6), rules[..k])
    {
      ghost var w, log := m.host.w, m.undo;
      RuleReady(site, w, log, f, v6, tun, egress, k);
      var added := m.Add(rules[k], Some(Deletion(rules[k])), site, w0);
      if added.Added? || added.AddedThenCancelled? {
        AddedEffect(w, rules[k], v6, m.host.w);
        AllAddedNext(TableOf(start, v6), rules, k);
        AheadNext(log, f, v6, tun, egress, k);
        if spare {
          StaysUntouched(log, v6, Deletion(rules[k]));
        }
      }
      if !added.Added? {
        return false;
      }
      k := k + 1;
    }
    assert rules[..k] == rules;
    ok := true;
  }

  /** Turns forwarding on and adds the rules of one family. */
  method OpenFamily(m: Manager, f: Family, v6: bool, tun: string, egress: string, ghost site: Site, ghost w0: World)
    returns (ok: bool)
    requires m.Valid() && Sound(site, w0, m.host.w, m.undo) && Untouched(m.undo, v6)
    requires Masquerade(site, v6) == MasqueradeRule(f, egress)
    modifies m, m.host
    ensures m.Valid() && Sound(site, w0, m.host.w, m.undo)
    ensures old(m.host.cancelled) ==> m.host.cancelled
    ensures old(m.host.calls) <= m.host.calls
    ensures ok ==> Forwards(old(m.host.w), m.host.w, f, v6, tun, egress)
    ensures SameFamily(old(m.host.w), m.host.w, !v6)
    ensures Untouched(old(m.undo), !v6) ==> Untouched(m.undo, !v6)
    ensures m.host.faults >= old(m.host.faults)
    ensures !ok ==> m.host.cancelled || m.host.faults > old(m.host.faults)
  {
    hide Sound, Parts, Untouched, Ahead, Forwards, Adds, Added, AllAdded, Rules, Masquerade, PartOf, Replay;
    ghost var start, log := m.host.w, m.undo;
    AllAhead(log, f, v6, tun, egress);
    ok := Forwarding(m, v6, site, w0);
    if m.undo != log {
      AheadPastSetting(log, Rules(f, v6, tun, egress), v6, m.undo[|log|]);
      if Untouched(log, !v6) {
        StaysUntouched(log, v6, m.undo[|log|]);
      }
    }
    if !ok {
      return;
    }
    ok := AddRules(m, f, v6, tun, egress, site, w0);
    if ok {
      AllThree(start, m.host.w, f, v6, tun, egress);
    }
  }

  lemma Starting(site: Site, w0: World)
    ensures Sound(site, w0, w0, [])
  {
    assert Inserted([], false) == [] && Inserted([], true) == [];
    assert Parts([]) == {};
  }

  /** The calls that address the tunnel and bring it up. */
  function Preparation(tun: string, own: set<Dest>, v6: bool): seq<Call> {
    var up := Call(Configure(tun, false, own), Done);
    [up] + (if v6 then [Call(Configure(tun, true, own), Done)] else []) + [up]
  }

  /** Nothing but the tunnel's addresses and its state. */
  method Prepare(m: Manager, v6: bool, own: set<Dest>, tun: string, ghost site: Site, ghost w0: World)
    returns (ok: bool)
    requires m.Valid() && Sound(site, w0, m.host.w, m.undo) && site.tun == tun && site.own == own
    modifies m, m.host
    ensures m.Valid() && Sound(site, w0, m.host.w, m.undo) && m.undo == old(m.undo)
    ensures old(m.host.cancelled)
      ==> m.host.cancelled && !ok && m.host.w == old(m.host.w) && m.host.calls == old(m.host.calls)
    ensures SameButRoutes(old(m.host.w), m.host.w)
    ensures ok ==> m.host.calls == old(m.host.calls) + [Call(Configure(tun, v6, own), Done)]
    ensures m.host.faults >= old(m.host.faults)
    ensures !ok ==> m.host.cancelled || m.host.faults > old(m.host.faults)
  {
    hide Sound, Replay;
    var added := m.Add(Configure(tun, v6, own), None, site, w0);
    ok := added.Added?;
  }

  lemma StillForwards(w0: World, w1: World, w2: World, f: Family, v6: bool, tun: string, egress: string)
    requires Forwards(w0, w1, f, v6, tun, egress) && SameFamily(w1, w2, v6)
    ensures Forwards(w0, w2, f, v6, tun, egress)
  {
  }

  lemma ForwardsFrom(w0: World, w1: World, w2: World, f: Family, v6: bool, tun: string, egress: string)
    requires Forwards(w1, w2, f, v6, tun, egress) && TableOf(w1, v6) == TableOf(w0, v6)
    ensures Forwards(w0, w2, f, v6, tun, egress)
  {
  }

  /**
   The transaction. Wherever it stops, the log holds exactly what the machine is owed; if it
   succeeds, every configured family forwards.
   */
  method Linux(m: Manager, tun: string, c: LinuxConfig, device: Option<string>) returns (ok: bool)
    requires m.Valid() && m.undo == []
    modifies m, m.host
    ensures m.Valid() && Sound(LinuxSite(c, tun, device), old(m.host.w), m.host.w, m.undo)
    ensures old(m.host.cancelled)
      ==> m.host.cancelled && !ok && m.host.w == old(m.host.w) && m.host.calls == old(m.host.calls)
    ensures !c.server || Egress(c, device).None? ==> !ok && m.undo == [] && SameButRoutes(old(m.host.w), m.host.w)
    ensures ok ==> Forwards(old(m.host.w), m.host.w, c.v4, false, tun, Egress(c, device).value)
    ensures ok && c.v6.Some? ==> Forwards(old(m.host.w), m.host.w, c.v6.value, true, tun, Egress(c, device).value)
    ensures ok && c.v6.None? ==> SameFamily(old(m.host.w), m.host.w, true)
    ensures ok ==> old(m.host.calls) + Preparation(tun, c.own, c.v6.Some?) <= m.host.calls
    ensures m.host.faults >= old(m.host.faults)
    ensures !ok ==>
      m.host.cancelled || m.host.faults > old(m.host.faults) || !c.server || Egress(c, device).None?
  {
    hide Sound, Forwards, Replay, Untouched, MasqueradeRule;
    ghost var site, w0 := LinuxSite(c, tun, device), m.host.w;
    Starting(site, w0);
    ok := Prepare(m, false, c.own, tun, site, w0);
    if !ok {
      return;
    }
    if c.v6.Some? {
      ok := Prepare(m, true, c.own, tun, site, w0);
      if !ok {
        return;
      }
    }
    ok := Prepare(m, false, c.own, tun, site, w0);
    if !ok {
      return;
    }
    if !c.server {
      return false;
    }
    var egress := Egress(c, device);
    if egress.None? {
      return false;
    }
    NoneTouched(m.undo);
    ghost var w1 := m.host.w;
    ok := OpenFamily(m, c.v4, false, tun, egress.value, site, w0);
    if !ok {
      return;
    }
    ForwardsFrom(w0, w1, m.host.w, c.v4, false, tun, egress.value);
    if c.v6.Some? {
      ghost var w2 := m.host.w;
      ok := OpenFamily(m, c.v6.value, true, tun, egress.value, site, w0);
      if ok {
        StillForwards(w0, w2, m.host.w, c.v4, false, tun, egress.value);
        ForwardsFrom(w0, w2, m.host.w, c.v6.value, true, tun, egress.value);
      }
    }
  }

  lemma NoneTouched(undo: seq<Command>)
    requires undo == []
    ensures Untouched(undo, false) && Untouched(undo, true)
  {
  }
}
