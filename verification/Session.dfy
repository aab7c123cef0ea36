/** One tunnel session from the interface to the last cleanup, and the client that reconnects. */
module Session {
  import opened Octets
  import opened Host
  import opened Restoration
  import opened UndoLog
  import opened NetworkSetup
  import opened NetworkRuns
  import E = Errors

  lemma DestroyKeepsOwes(site: Site, w0: World, w: World, left: seq<Command>, w': World)
    requires Owes(site, w0, w, left) && w' == w.(routes := Without(w.routes, site.tun))
    ensures Owes(site, w0, w', left)
  {
    hide Debt;
    VanishingKeepsDebt(site, w0, w, left, w');
  }

  /** No route leads to the interface. */
  predicate NoTunnel(w: World, tun: string) {
    forall d :: d in w.routes ==> w.routes[d].iface != tun
  }

  lemma DestroyedIsGone(w: World, tun: string, w': World)
    requires w' == w.(routes := Without(w.routes, tun))
    ensures NoTunnel(w', tun)
  {
  }

  /** Undoing more does not bring a route to the tunnel. */
  lemma StaysGone(w: World, tun: string, w': World)
    requires NoTunnel(w, tun) && OnlyLoses(w, w')
    ensures NoTunnel(w', tun)
  {
  }

  lemma NothingLeft(site: Site, w0: World, w: World)
    requires Owes(site, w0, w, [])
    ensures Restored(site, w0, w)
  {
    hide Debt, Restored;
    NothingOwed(site, w0, w);
  }

  /**
   A session. `during` is the machine while packets were copied, if it came to that. `left` are
   the undos that were still owed at the end and `tunOk` says whether the interface could be
   closed: the result shows a failed cleanup exactly when one of the two went wrong. Without one
   the machine is as it was, and no route leads to the interface if there was one. A cancelled
   session runs no command at all.
   */
  method RunTun(host: Machine, auto: bool, p: Platform, tun: string)
    returns (result: Option<E.Error>, ghost left: seq<Command>, ghost tunOk: bool, ghost during: Option<World>)
    requires Usable(p) && SiteOf(p, tun).tun == tun
    modifies host
    ensures E.CleanupFailed(result) <==> left != [] || !tunOk
    ensures Owes(SiteOf(p, tun), old(host.w), host.w, left)
    ensures !E.CleanupFailed(result) ==> Restored(SiteOf(p, tun), old(host.w), host.w)
    ensures !E.CleanupFailed(result) ==> host.w == old(host.w) || NoTunnel(host.w, tun)
    ensures old(host.cancelled)
      ==> host.cancelled && result.Some? && host.w == old(host.w) && host.calls == old(host.calls)
    ensures old(host.cancelled) ==> !E.CleanupFailed(result) && during.None?
    ensures during.Some? && auto ==> Established(p, old(host.w), during.value, tun)
    ensures result.None? ==> during.Some?
    ensures host.faults >= old(host.faults)
    ensures during.None? ==>
      host.cancelled || host.faults > old(host.faults) || (auto && exists w :: CannotRun(p, old(host.w), w, tun))
  {
    hide Owes, Restored, E.Failed, E.Join, Established, CannotRun, Replay, NoTunnel, OnlyLoses;
    ghost var site, w0 := SiteOf(p, tun), host.w;
    left, tunOk, during := [], true, None;
    NothingOwes(site, w0);
    SoundOwes(site, w0, w0, []);
    NothingLeft(site, w0, w0);
    PlainIsNotCleanup("context canceled");
    var done := host.ContextDone();
    if done {
      return Some(E.Plain("context canceled")), [], true, None;
    }
    var closes, bridged := *, *;
    var created := host.Create();
    if !created {
      WrappedIsNotCleanup("create TUN", "not permitted");
      return Some(E.Wrapped("create TUN", E.Plain("not permitted"))), [], true, None;
    }
    tunOk := closes;
    var m, err;
    ghost var tried;
    m, err, left, tried := Setup(host, auto, p, tun);
    if m == null {
      result := err;
      if closes {
        ghost var w := host.w;
        host.Destroy(tun);
        DestroyKeepsOwes(site, w0, w, left, host.w);
        DestroyedIsGone(w, tun, host.w);
      }
    } else {
      during := Some(host.w);
      // The bridge ends when either end fails or the context is done, and closes the interface.
      result := if bridged then Some(E.Plain("packet copying ended")) else None;
      PlainIsNotCleanup("packet copying ended");
      if closes {
        ghost var w := host.w;
        host.Destroy(tun);
        DestroyKeepsOwes(site, w0, w, left, host.w);
        DestroyedIsGone(w, tun, host.w);
      }
      ghost var w := host.w;
      var closing := CloseManager(m, site, w0);
      if closes {
        StaysGone(w, tun, host.w);
      }
      left := m.undo;
      if closing.Some? {
        E.JoinTwo(result, closing);
        result := E.Join([result, closing]);
      }
    }
    if !closes {
      var closeErr := Some(E.Cleanup(E.Wrapped("close TUN", E.Plain("close failed"))));
      E.JoinTwo(result, closeErr);
      CleanupIs(closeErr.value.cause);
      result := E.Join([result, closeErr]);
    }
    if left == [] {
      NothingLeft(site, w0, host.w);
    }
  }

  lemma PlainIsNotCleanup(text: string)
    ensures !E.Failed(E.Plain(text))
  {
  }

  lemma WrappedIsNotCleanup(text: string, inner: string)
    ensures !E.Failed(E.Wrapped(text, E.Plain(inner)))
  {
  }

  lemma CleanupIs(cause: E.Error)
    ensures E.Failed(E.Cleanup(cause))
  {
  }

  // ---------------------------------------------------------------- the reconnecting client

  /** Restored, with no new route to the tunnel, but for the order of the masquerading chain. */
  ghost predicate Alike(site: Site, w0: World, w: World) {
    && (forall d :: d in w.routes && w.routes[d].iface == site.tun ==> d in w0.routes && w0.routes[d].iface == site.tun)
    && (forall d :: Own(w, d, site.tun) == Own(w0, d, site.tun))
    && (forall s :: Servers(w, s) == Servers(w0, s))
    && (forall k :: Setting(w, k) == Setting(w0, k))
    && (forall v6 :: TableOf(w, v6).forward == TableOf(w0, v6).forward)
    && (forall v6 :: multiset(TableOf(w, v6).postrouting) == multiset(TableOf(w0, v6).postrouting))
  }

  lemma AlikeSame(site: Site, w: World)
    ensures Alike(site, w, w)
  {
  }

  lemma RestoredAlike(site: Site, w0: World, w1: World, w2: World)
    requires Alike(site, w0, w1) && Restored(site, w1, w2) && (w2 == w1 || NoTunnel(w2, site.tun))
    ensures Alike(site, w0, w2)
  {
    forall v6
      ensures multiset(TableOf(w2, v6).postrouting) == multiset(TableOf(w1, v6).postrouting)
    {
      AppendDelete(TableOf(w1, v6).postrouting, Masquerade(site, v6));
    }
  }

  /** How one round of the client ended, the commands run so far, and the machine while it copied packets, if it did. */
  datatype End = End(e: Option<E.Error>, calls: seq<Call>, during: Option<World>)

  /**
   A round without a connection says so, and one with a connection copied packets, unless there was
   trouble or the machine refuses this setup.
   */
  ghost predicate Explained(ends: seq<End>, auto: bool, ps: nat -> Platform, dials: nat -> bool, tun: string,
                            trouble: bool)
  {
    && (forall k :: 0 <= k < |ends| && !dials(k) ==>
          ends[k].during.None? && ends[k].e == Some(E.Plain("dial failed")))
    && (forall k :: 0 <= k < |ends| && dials(k) && ends[k].during.None? ==>
          trouble || (auto && exists w0, w :: CannotRun(ps(k), w0, w, tun)))
  }

  lemma ExplainedNext(ends: seq<End>, auto: bool, ps: nat -> Platform, dials: nat -> bool, tun: string,
      before: bool, trouble: bool, end: End)
    requires Explained(ends, auto, ps, dials, tun, before) && (before ==> trouble)
    requires !dials(|ends|) ==> end.during.None? && end.e == Some(E.Plain("dial failed"))
    requires dials(|ends|) && end.during.None? ==>
      trouble || (auto && exists w0, w :: CannotRun(ps(|ends|), w0, w, tun))
    ensures Explained(ends + [end], auto, ps, dials, tun, trouble)
  {
    hide CannotRun;
  }

  lemma NothingToExplain(auto: bool, ps: nat -> Platform, dials: nat -> bool, tun: string)
    ensures Explained([], auto, ps, dials, tun, false) && Explained([], auto, ps, dials, tun, true)
  {
  }

  /** Cancellation that strikes later is trouble as well. */
  lemma ExplainedStill(ends: seq<End>, auto: bool, ps: nat -> Platform, dials: nat -> bool, tun: string,
      before: bool, trouble: bool)
    requires Explained(ends, auto, ps, dials, tun, before) && (before ==> trouble)
    ensures Explained(ends, auto, ps, dials, tun, trouble)
  {
    hide CannotRun;
  }

  /** One round of the client: a session, if it gets a connection. */
  method Round(host: Machine, auto: bool, p: Platform, dialled: bool, ghost site: Site, tun: string, ghost w0: World)
    returns (e: Option<E.Error>, ghost during: Option<World>)
    requires Usable(p) && SiteOf(p, tun) == site && site.tun == tun && Alike(site, w0, host.w)
    modifies host
    ensures !E.CleanupFailed(e) ==> Alike(site, w0, host.w)
    ensures host.faults >= old(host.faults)
    ensures old(host.cancelled) ==> !E.CleanupFailed(e) && host.cancelled
    ensures old(host.cancelled) ==> host.w == old(host.w) && host.calls == old(host.calls)
    ensures !dialled ==> during.None? && e == Some(E.Plain("dial failed"))
    ensures dialled && during.None? ==>
      host.cancelled || host.faults > old(host.faults) || (auto && exists w0, w :: CannotRun(p, w0, w, tun))
  {
    hide Restored, Alike, E.Failed, NoTunnel, CannotRun;
    PlainIsNotCleanup("dial failed");
    e, during := Some(E.Plain("dial failed")), None;
    if dialled {
      ghost var w, left, tunOk := host.w, [], true;
      e, left, tunOk, during := RunTun(host, auto, p, tun);
      if !E.CleanupFailed(e) {
        RestoredAlike(site, w0, w, host.w);
      }
    }
  }

  /**
   The client's loop, for any number of rounds; `ps(k)` is what round `k` reads of the
   configuration's names and the connection's addresses, and `dials(k)` whether it gets a
   connection. A failed cleanup can only be that of the last round: it is returned, and no command
   runs after it. Without one the machine is, after however many rounds, as it was before the first.
   Only cancellation, a failed cleanup or a client that is not to reconnect ends the loop, and a
   round with a connection copies packets unless the machine refuses.
   */
  method Client(host: Machine, auto: bool, ps: nat -> Platform, dials: nat -> bool, site: Site, tun: string,
      reconnect: bool, rounds: nat)
    returns (result: Option<E.Error>, ghost ends: seq<End>)
    requires site.tun == tun && forall k :: Usable(ps(k)) && SiteOf(ps(k), tun) == site
    modifies host
    ensures forall k :: 0 <= k < |ends| - 1 ==> !E.CleanupFailed(ends[k].e)
    ensures E.CleanupFailed(result) <==> |ends| > 0 && E.CleanupFailed(ends[|ends| - 1].e)
    ensures E.CleanupFailed(result) ==> result == ends[|ends| - 1].e && host.calls == ends[|ends| - 1].calls
    ensures !E.CleanupFailed(result) ==> Alike(site, old(host.w), host.w)
    ensures old(host.cancelled) ==> host.w == old(host.w) && host.calls == old(host.calls) && |ends| <= 1
    ensures rounds > 0 ==> |ends| > 0
    ensures |ends| < rounds ==> host.cancelled || E.CleanupFailed(result) || !reconnect
    ensures !reconnect ==> |ends| <= 1
    ensures !reconnect && |ends| == 1 && !host.cancelled ==> result == ends[0].e
    ensures reconnect && !E.CleanupFailed(result) ==> result.None?
    ensures Explained(ends, auto, ps, dials, tun, host.cancelled || host.faults > old(host.faults))
  {
    hide Restored, Alike, E.Failed, NoTunnel, CannotRun, Explained, SiteOf;
    ends, result := [], None;
    NothingToExplain(auto, ps, dials, tun);
    AlikeSame(site, host.w);
    var round := 0;
    while round < rounds
      invariant 0 <= round <= rounds && |ends| == round && result.None? && (round > 0 ==> reconnect)
      invariant forall k :: 0 <= k < |ends| ==> !E.CleanupFailed(ends[k].e)
      invariant Alike(site, old(host.w), host.w) && host.faults >= old(host.faults)
      invariant Explained(ends, auto, ps, dials, tun, host.cancelled || host.faults > old(host.faults))
      invariant old(host.cancelled)
        ==> host.cancelled && round == 0 && host.w == old(host.w) && host.calls == old(host.calls)
    {
      ghost var before := host.cancelled || host.faults > old(host.faults);
      var e;
      ghost var during;
      e, during := Round(host, auto, ps(round), dials(round), site, tun, old(host.w));
      ExplainedNext(ends, auto, ps, dials, tun, before, host.cancelled || host.faults > old(host.faults),
                    End(e, host.calls, during));
      ends := ends + [End(e, host.calls, during)];
      if E.CleanupFailed(e) {
        return e, ends;
      }
      before := host.cancelled || host.faults > old(host.faults);
      var done := host.ContextDone();
      ExplainedStill(ends, auto, ps, dials, tun, before, host.cancelled || host.faults > old(host.faults));
      if done {
        return None, ends;
      }
      if !reconnect {
        return e, ends;
      }
      before := host.cancelled || host.faults > old(host.faults);
      done := host.ContextDone();
      ExplainedStill(ends, auto, ps, dials, tun, before, host.cancelled || host.faults > old(host.faults));
      if done {
        return None, ends;
      }
      round := round + 1;
    }
  }
}
