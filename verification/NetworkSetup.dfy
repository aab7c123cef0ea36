/** Choosing the transaction for the platform, and undoing it at once if it does not get through. */
module NetworkSetup {
  import opened Octets
  import opened Host
  import opened Restoration
  import opened UndoLog
  import Errors
  import UndoRuns
  import M = MacSetup
  import L = LinuxSetup

  datatype Platform =
    | MacClient(mac: M.MacConfig, isIp: string -> bool)
    | LinuxMachine(linux: L.LinuxConfig, device: Option<string>)
    | Unsupported

  ghost predicate Usable(p: Platform) {
    p.MacClient? ==> M.ProperNames(p.mac.names) && !p.isIp("Empty")
  }

  function SiteOf(p: Platform, tun: string): Site {
    match p
    case MacClient(c, _) => M.MacSite(tun, c.own)
    case LinuxMachine(c, device) => L.LinuxSite(c, tun, device)
    case Unsupported => M.MacSite(tun, {})
  }

  /** What is left of a setup: the machine owes exactly the undos in `left`. */
  ghost predicate Owes(site: Site, w0: World, w: World, left: seq<Command>) {
    Debt(site, w0, w, left) && AllUndo(left)
  }

  lemma SoundOwes(site: Site, w0: World, w: World, undo: seq<Command>)
    requires Sound(site, w0, w, undo)
    ensures Owes(site, w0, w, undo)
  {
    hide Debt, Parts;
  }

  lemma NothingOwes(site: Site, w0: World)
    ensures Sound(site, w0, w0, [])
  {
    assert Inserted([], false) == [] && Inserted([], true) == [];
    assert Parts([]) == {};
  }

  /** Closes the manager; the undos it could not run stay owed. */
  method CloseManager(m: Manager, ghost site: Site, ghost w0: World) returns (err: Option<Errors.Error>)
    requires m.Valid() && Owes(site, w0, m.host.w, m.undo)
    modifies m, m.host
    ensures m.Valid() && Owes(site, w0, m.host.w, m.undo)
    ensures Errors.CleanupFailed(err) <==> m.undo != []
    ensures err.None? <==> m.undo == []
    ensures OnlyLoses(old(m.host.w), m.host.w)
    ensures old(m.host.cancelled) ==> m.host.cancelled
    ensures m.host.faults >= old(m.host.faults)
  {
    hide Debt, AllUndo, Kept, CloseCalls, Replay, OnlyLoses;
    var ok, outs := m.Close(site, w0);
    err := if ok then None else Some(Errors.Cleanup(Errors.Plain("undo failed")));
  }

  /** What a successful setup has achieved. */
  ghost predicate Established(p: Platform, w0: World, w: World, tun: string) {
    match p
    case MacClient(c, _) =>
      && M.ServersKept(w0, w, c.names, tun) && M.DefaultTaken(w0, w, c, tun) && M.SpecificKept(w0, w, c, tun)
      && (c.service != "" && |c.dns| > 0 ==> Servers(w, c.service) == Host.Named(c.dns))
    case LinuxMachine(c, device) =>
      && L.Egress(c, device).Some?
      && L.Forwards(w0, w, c.v4, false, tun, L.Egress(c, device).value)
      && (c.v6.Some? ==> L.Forwards(w0, w, c.v6.value, true, tun, L.Egress(c, device).value))
    case Unsupported => false
  }

  /** Why a setup may fail although every command succeeds; `w` is the machine when it stopped. */
  ghost predicate CannotRun(p: Platform, w0: World, w: World, tun: string) {
    match p
    case MacClient(c, isIp) => M.CannotRun(w0, w, c, isIp, tun)
    case LinuxMachine(c, device) => !c.server || (c.egress == "" && device.None?)
    case Unsupported => true
  }

  /**
   A setup that fails is undone before it returns, and what could not be undone shows in
   the error; a setup that succeeds returns the manager whose log is what it owes. It fails
   only for a reason. `tried` is the machine when the transaction stopped.
   */
  method Setup(host: Machine, auto: bool, p: Platform, tun: string)
    returns (m: Manager?, err: Option<Errors.Error>, ghost left: seq<Command>, ghost tried: World)
    requires Usable(p)
    modifies host
    ensures err.None? <==> m != null
    ensures m != null ==> fresh(m) && m.host == host && m.Valid() && left == m.undo
    ensures Owes(SiteOf(p, tun), old(host.w), host.w, left)
    ensures m != null && auto ==> Established(p, old(host.w), host.w, tun)
    ensures err.Some? ==> (Errors.CleanupFailed(err) <==> left != [])
    ensures old(host.cancelled)
      ==> host.cancelled && err.Some? && host.w == old(host.w) && host.calls == old(host.calls) && left == []
    ensures !auto ==> host.w == old(host.w) && host.calls == old(host.calls) && left == []
    ensures OnlyLoses(tried, host.w) && host.faults >= old(host.faults)
    ensures err.Some? ==>
      host.cancelled || host.faults > old(host.faults) || (auto && CannotRun(p, old(host.w), tried, tun))
  {
    hide Owes, Sound, OnlyLoses, M.CannotRun, M.PinsFirst, M.ServersKept, M.DefaultTaken, M.SpecificKept,
      L.Forwards, Replay;
    ghost var site, w0 := SiteOf(p, tun), host.w;
    NothingOwes(site, w0);
    SoundOwes(site, w0, w0, []);
    tried := w0;
    LosesNothing(w0);
    var done := host.ContextDone();
    if done {
      return null, Some(Errors.Plain("context canceled")), [], w0;
    }
    m := new Manager(host);
    left := [];
    if !auto {
      return m, None, [], w0;
    }
    var ok;
    match p {
      case MacClient(c, isIp) => ok := M.Mac(m, tun, c, isIp);
      case LinuxMachine(c, device) => ok := L.Linux(m, tun, c, device);
      case Unsupported => ok := false;
    }
    SoundOwes(site, w0, host.w, m.undo);
    tried := host.w;
    LosesNothing(tried);
    if ok {
      return m, None, m.undo, tried;
    }
    var closing := CloseManager(m, site, w0);
    Errors.JoinTwo(Some(Errors.Plain("setup failed")), closing);
    left := m.undo;
    err := Errors.Join([Some(Errors.Plain("setup failed")), closing]);
    m := null;
  }

  /**
   A transaction and then any number of `Close` calls: the log is always exactly what the
   machine owes, it holds the recorded undos that no try has settled, none of which was run
   again after it settled, and once it is empty the machine is restored.
   */
  method TransactAndClose(m: Manager, p: Platform, tun: string, times: nat)
    returns (ok: bool, ghost tried: World)
    requires Usable(p) && m.Valid() && m.undo == [] && m.past == []
    modifies m, m.host
    ensures m.Valid() && Owes(SiteOf(p, tun), old(m.host.w), m.host.w, m.undo)
    ensures m.undo == [] ==> Restored(SiteOf(p, tun), old(m.host.w), m.host.w)
    ensures if ok then Established(p, old(m.host.w), tried, tun)
      else m.host.cancelled || m.host.faults > old(m.host.faults) || CannotRun(p, old(m.host.w), tried, tun)
    ensures UndoRuns.NoneAgain(UndoRuns.JournalOf(m.past))
    ensures var j := UndoRuns.JournalOf(m.past);
      UndoRuns.Within(j, UndoRuns.Waiting(j, |j.recorded|))
      && m.undo == UndoRuns.Entries(j, UndoRuns.Waiting(j, |j.recorded|))
  {
    hide Owes, Sound, Restored, M.CannotRun, M.PinsFirst, M.ServersKept, M.DefaultTaken, M.SpecificKept,
      L.Forwards, Replay, UndoRuns.NoneAgain, UndoRuns.JournalOf, UndoRuns.Waiting, UndoRuns.Within, UndoRuns.Entries;
    ghost var site, w0 := SiteOf(p, tun), m.host.w;
    NothingOwes(site, w0);
    match p {
      case MacClient(c, isIp) => ok := M.Mac(m, tun, c, isIp);
      case LinuxMachine(c, device) => ok := L.Linux(m, tun, c, device);
      case Unsupported => ok := false;
    }
    SoundOwes(site, w0, m.host.w, m.undo);
    tried := m.host.w;
    ghost var stopped, faults := m.host.cancelled, m.host.faults;
    var k := 0;
    while k < times
      invariant m.host.faults >= faults && (stopped ==> m.host.cancelled)
      invariant 0 <= k <= times && m.Valid() && Owes(site, w0, m.host.w, m.undo)
    {
      var err := CloseManager(m, site, w0);
      k := k + 1;
    }
    if m.undo == [] {
      EmptyLogRestores(site, w0, m.host.w);
    }
    UndoRuns.Conservation(m.past);
  }

  lemma EmptyLogRestores(site: Site, w0: World, w: World)
    requires Owes(site, w0, w, [])
    ensures Restored(site, w0, w)
  {
    hide Debt, Restored;
    NothingOwed(site, w0, w);
  }
}
