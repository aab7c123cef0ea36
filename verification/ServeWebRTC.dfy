/**
 The WebRTC server as a state machine: offers that take the `busy` flag and give it back or
 hand it to a session, the sessions down to the cleanup of their handlers, and the shutdown,
 which waits three seconds for offers in progress and then for all sessions.
 */
module ServeWebRTC {
  import opened Octets

  /** One offer, from its request handler to the goroutine of its session. */
  datatype Offer =
    | Arrived
    | Refused                 // wrong method, no token, or another client is active
    | Held(peer: bool)        // `busy` is taken, nothing is handed over; there may be a peer
    | Dropping(peer: bool)    // the request handler returns without handing over
    | Dropped
    | Connecting              // handed over: the session waits for its peer
    | Entered                 // the handler is called; it has not looked at the context yet
    | Working                 // past the check: interface, setup, copying, cleanup
    | Bad                     // cleanup failed; not yet reported nor the context cancelled
    | Ended                   // the handler is over or was not reached
    | PeerClosed              // the peer is closed
    | Released                // `busy` is given back
    | Done                    // counted off the wait group

  predicate HoldsBusy(o: Offer) {
    o.Held? || o.Dropping? || (InSession(o) && !o.Released?)
  }

  /** In its request handler. */
  predicate InRequest(o: Offer) {
    o.Arrived? || o.Held? || o.Dropping?
  }

  /** Counted by the wait group. */
  predicate InSession(o: Offer) {
    o.Connecting? || InHandler(o) || o.Ended? || o.PeerClosed? || o.Released?
  }

  predicate InHandler(o: Offer) {
    o.Entered? || o.Working? || o.Bad?
  }

  predicate PeerOpen(o: Offer) {
    match o
    case Held(peer) => peer
    case Dropping(peer) => peer
    case _ => o.Connecting? || InHandler(o) || o.Ended?
  }

  datatype Loop = Serving | Stopping | Draining | Waiting | Over

  /**
   `closing` is set when the shutdown of the HTTP server begins, `stopped` when it has ended,
   `graceful` if no offer was left in its request handler by then. `wg` is the wait group's counter.
   */
  datatype Server = Server(
    cancelled: bool, loop: Loop, closing: bool, stopped: bool, graceful: bool,
    busy: bool, offers: seq<Offer>, wg: int, commands: nat, failedAt: Option<nat>, cleanupErr: bool)

  const START := Server(false, Serving, false, false, false, false, [], 0, 0, None, false)

  /** What one offer does. */
  datatype Move =
    | Admit(allowed: bool)    // method and token
    | MakePeer
    | Fail                    // any error before the answer is written
    | ClosePeer               // the deferred close of an offer not handed over
    | Drop                    // the deferred release of an offer not handed over
    | HandOver
    | Connect(ok: bool)
    | Check
    | Command
    | End(clean: bool)
    | Report
    | CloseSession
    | Release
    | Finish

  datatype Step =
    | Signal
    | ServeReturns            // the listener fails, or the shutdown has begun
    | Cancel                  // the call of cancel after it
    | BeginShutdown           // the context's goroutine
    | Drained                 // all request handlers returned in time
    | TimedOut                // three seconds passed; the HTTP server is closed
    | Stopped                 // the loop has seen the end of the shutdown
    | Return                  // the wait for the sessions is over
    | Arrive
    | Of(i: nat, m: Move)

  predicate Fits(o: Offer, m: Move) {
    match m
    case Admit(_) => o.Arrived?
    case MakePeer => o == Held(false)
    case Fail => o.Held?
    case ClosePeer => o == Dropping(true)
    case Drop => o == Dropping(false)
    case HandOver => o == Held(true)
    case Connect(_) => o.Connecting?
    case Check => o.Entered?
    case Command => o.Working?
    case End(_) => o.Working?
    case Report => o.Bad?
    case CloseSession => o.Ended?
    case Release => o.PeerClosed?
    case Finish => o.Released?
  }

  function Moved(o: Offer, m: Move, busy: bool, cancelled: bool): Offer
    requires Fits(o, m)
  {
    match m
    case Admit(allowed) => if !allowed || busy then Refused else Held(false)
    case MakePeer => Held(true)
    case Fail => Dropping(o.peer)
    case ClosePeer => Dropping(false)
    case Drop => Dropped
    case HandOver => Connecting
    case Connect(ok) => if ok then Entered else Ended
    case Check => if cancelled then Ended else Working
    case Command => o
    case End(clean) => if clean then Ended else Bad
    case Report => Ended
    case CloseSession => PeerClosed
    case Release => Released
    case Finish => Done
  }

  predicate Can(s: Server, e: Step) {
    match e
    case Signal => true
    case ServeReturns => s.loop.Serving?
    case Cancel => s.loop.Stopping?
    case BeginShutdown => s.cancelled && !s.closing
    case Drained => s.closing && !s.stopped && forall i :: 0 <= i < |s.offers| ==> !InRequest(s.offers[i])
    case TimedOut => s.closing && !s.stopped
    case Stopped => s.loop.Draining? && s.stopped
    case Return => s.loop.Waiting? && s.wg == 0
    case Arrive => !s.closing
    case Of(i, m) => i < |s.offers| && Fits(s.offers[i], m)
  }

  /** An admitted offer takes `busy`; the two releases clear it, whoever has it. */
  function BusyAfter(busy: bool, m: Move): bool {
    match m
    case Admit(allowed) => busy || allowed
    case Drop => false
    case Release => false
    case _ => busy
  }

  function Do(s: Server, e: Step): Server
    requires Can(s, e)
  {
    match e
    case Signal => s.(cancelled := true)
    case ServeReturns => s.(loop := Stopping)
    case Cancel => s.(loop := Draining, cancelled := true)
    case BeginShutdown => s.(closing := true)
    case Drained => s.(stopped := true, graceful := true)
    case TimedOut => s.(stopped := true)
    case Stopped => s.(loop := Waiting)
    case Return => s.(loop := Over)
    case Arrive => s.(offers := s.offers + [Arrived])
    case Of(i, m) =>
      s.(offers := s.offers[i := Moved(s.offers[i], m, s.busy, s.cancelled)],
         busy := BusyAfter(s.busy, m),
         wg := if m.HandOver? then s.wg + 1 else if m.Finish? then s.wg - 1 else s.wg,
         commands := if m.Command? then s.commands + 1 else s.commands,
         failedAt := if m == End(false) && s.failedAt.None? then Some(s.commands) else s.failedAt,
         cleanupErr := s.cleanupErr || m.Report?,
         cancelled := s.cancelled || m.Report?)
  }

  /** A run that goes on from `s`. */
  predicate Follows(s: Server, states: seq<Server>, steps: seq<Step>) {
    && |states| == |steps| + 1 && states[0] == s
    && forall k :: 0 <= k < |steps| ==> Can(states[k], steps[k]) && states[k + 1] == Do(states[k], steps[k])
  }

  predicate IsRun(states: seq<Server>, steps: seq<Step>) {
    Follows(START, states, steps)
  }

  // ---------------------------------------------------------------- the busy flag

  /** `busy` is set exactly while one offer, and only one, has it to give back. */
  predicate OneHolder(busy: bool, offers: seq<Offer>) {
    && (forall i, j :: 0 <= i < j < |offers| ==> !(HoldsBusy(offers[i]) && HoldsBusy(offers[j])))
    && (busy <==> exists i :: 0 <= i < |offers| && HoldsBusy(offers[i]))
  }

  /** One offer moves: it takes `busy` only if that is free, and gives it back only if it has it. */
  lemma MoveKeepsHolder(busy: bool, offers: seq<Offer>, i: nat, o: Offer, busy': bool)
    requires OneHolder(busy, offers) && i < |offers|
    requires HoldsBusy(offers[i]) ==> busy' == HoldsBusy(o)
    requires !HoldsBusy(offers[i]) ==> if HoldsBusy(o) then busy' && !busy else busy' == busy
    ensures OneHolder(busy', offers[i := o])
  {
    hide HoldsBusy;
    var offers' := offers[i := o];
    if HoldsBusy(o) {
      assert HoldsBusy(offers'[i]);
    } else if j :| 0 <= j < |offers| && HoldsBusy(offers[j]) {
      assert j != i ==> HoldsBusy(offers'[j]);
    }
    assert forall j :: 0 <= j < |offers| && j != i ==> offers'[j] == offers[j];
  }

  lemma ArrivalKeepsHolder(busy: bool, offers: seq<Offer>)
    requires OneHolder(busy, offers)
    ensures OneHolder(busy, offers + [Arrived])
  {
    if i :| 0 <= i < |offers| && HoldsBusy(offers[i]) {
      assert HoldsBusy((offers + [Arrived])[i]);
    }
  }

  lemma HolderIsBusy(busy: bool, offers: seq<Offer>, i: nat)
    requires OneHolder(busy, offers) && i < |offers| && HoldsBusy(offers[i])
    ensures busy
  {
  }

  lemma BusyMoves(o: Offer, m: Move, busy: bool, cancelled: bool)
    requires Fits(o, m) && (HoldsBusy(o) ==> busy)
    ensures var o' := Moved(o, m, busy, cancelled);
      if HoldsBusy(o) then BusyAfter(busy, m) == HoldsBusy(o')
      else if HoldsBusy(o') then BusyAfter(busy, m) && !busy
      else BusyAfter(busy, m) == busy
  {
  }

  lemma StepKeepsHolder(s: Server, e: Step)
    requires OneHolder(s.busy, s.offers) && Can(s, e)
    ensures OneHolder(Do(s, e).busy, Do(s, e).offers)
  {
    hide OneHolder;
    if e.Arrive? {
      ArrivalKeepsHolder(s.busy, s.offers);
    } else if e.Of? {
      var o := s.offers[e.i];
      if HoldsBusy(o) {
        HolderIsBusy(s.busy, s.offers, e.i);
      }
      BusyMoves(o, e.m, s.busy, s.cancelled);
      MoveKeepsHolder(s.busy, s.offers, e.i, Moved(o, e.m, s.busy, s.cancelled), BusyAfter(s.busy, e.m));
    }
  }

  // ---------------------------------------------------------------- the wait group

  function Sessions(offers: seq<Offer>): nat {
    if offers == [] then 0 else (if InSession(offers[0]) then 1 else 0) + Sessions(offers[1..])
  }

  lemma {:induction false} SessionsUpdate(offers: seq<Offer>, i: nat, o: Offer)
    requires i < |offers|
    ensures Sessions(offers[i := o])
      == Sessions(offers) + (if InSession(o) then 1 else 0) - (if InSession(offers[i]) then 1 else 0)
    ensures InSession(offers[i]) ==> Sessions(offers) > 0
  {
    if i > 0 {
      SessionsUpdate(offers[1..], i - 1, o);
      assert offers[i := o][1..] == offers[1..][i - 1 := o];
    } else {
      assert offers[0 := o][1..] == offers[1..];
    }
  }

  lemma {:induction false} SessionsAppend(offers: seq<Offer>, o: Offer)
    requires !InSession(o)
    ensures Sessions(offers + [o]) == Sessions(offers)
  {
    if offers == [] {
      assert offers + [o] == [o];
    } else {
      SessionsAppend(offers[1..], o);
      assert (offers + [o])[1..] == offers[1..] + [o];
    }
  }

  lemma NoSessions(offers: seq<Offer>)
    requires Sessions(offers) == 0
    ensures forall i :: 0 <= i < |offers| ==> !InSession(offers[i])
  {
    forall i | 0 <= i < |offers|
      ensures !InSession(offers[i])
    {
      SessionsUpdate(offers, i, offers[i]);
    }
  }

  lemma StepKeepsCount(s: Server, e: Step)
    requires s.wg == Sessions(s.offers) && Can(s, e)
    ensures Do(s, e).wg == Sessions(Do(s, e).offers)
  {
    hide Sessions;
    if e.Arrive? {
      SessionsAppend(s.offers, Arrived);
    } else if e.Of? {
      SessionsUpdate(s.offers, e.i, Moved(s.offers[e.i], e.m, s.busy, s.cancelled));
    }
  }

  // ---------------------------------------------------------------- shutdown and failed cleanup

  predicate Orderly(s: Server) {
    && (s.closing || s.stopped || s.loop.Draining? || s.loop.Waiting? || s.loop.Over? ==> s.cancelled)
    && (s.stopped ==> s.closing)
    && (s.loop.Waiting? || s.loop.Over? ==> s.stopped)
    && (s.graceful ==> s.closing && s.stopped && forall i :: 0 <= i < |s.offers| ==> !InRequest(s.offers[i]))
    && (s.loop.Over? ==> forall i :: 0 <= i < |s.offers| ==> !s.offers[i].Working? && !s.offers[i].Bad?)
  }

  lemma StepKeepsOrder(s: Server, e: Step)
    requires Orderly(s) && s.wg == Sessions(s.offers) && Can(s, e)
    ensures Orderly(Do(s, e))
  {
    hide Sessions;
    if e.Return? {
      NoSessions(s.offers);
    }
  }

  /** After a failed cleanup no session works, and none can start to. */
  predicate Contained(s: Server) {
    && (s.failedAt.Some? ==> s.commands == s.failedAt.value)
    && (s.failedAt.Some? ==> forall i :: 0 <= i < |s.offers| ==> !s.offers[i].Working?)
    && (s.failedAt.Some? ==> s.cleanupErr || exists i :: 0 <= i < |s.offers| && s.offers[i].Bad?)
    && (s.cleanupErr ==> s.cancelled && s.failedAt.Some?)
    && (forall i :: 0 <= i < |s.offers| && s.offers[i].Bad? ==> s.failedAt.Some?)
  }

  predicate Alone(offers: seq<Offer>) {
    forall i, j :: 0 <= i < |offers| && 0 <= j < |offers| && i != j ==> !(HoldsBusy(offers[i]) && HoldsBusy(offers[j]))
  }

  lemma HolderAlone(busy: bool, offers: seq<Offer>)
    requires OneHolder(busy, offers)
    ensures Alone(offers)
  {
  }

  /** What a move has to do with working and failing. */
  lemma MovedIs(o: Offer, m: Move, busy: bool, cancelled: bool)
    requires Fits(o, m)
    ensures var o' := Moved(o, m, busy, cancelled);
      && (o'.Working? ==> o.Working? || !cancelled)
      && (o'.Working? && !o.Working? ==> m.Check?)
      && (o'.Bad? <==> m == End(false))
      && (m.Command? || m.End? ==> o.Working?) && (m.Report? <==> o.Bad?)
  {
  }

  lemma BusyWhileWorking()
    ensures forall o: Offer :: o.Bad? || o.Working? ==> HoldsBusy(o)
  {
  }

  lemma MoveKeepsContained(s: Server, i: nat, m: Move)
    requires Alone(s.offers) && Contained(s) && Can(s, Of(i, m))
    ensures Contained(Do(s, Of(i, m)))
  {
    MovedIs(s.offers[i], m, s.busy, s.cancelled);
    BusyWhileWorking();
    hide Moved, Fits, HoldsBusy;
    var t := Do(s, Of(i, m));
    assert forall k :: 0 <= k < |s.offers| && k != i ==> t.offers[k] == s.offers[k];
    if s.failedAt.Some? && !s.cleanupErr {
      var b :| 0 <= b < |s.offers| && s.offers[b].Bad?;
      assert (i == b && m.Report?) || t.offers[b].Bad?;
    }
    if m == End(false) {
      assert t.offers[i].Bad? && HoldsBusy(s.offers[i]);
      assert forall k :: 0 <= k < |s.offers| && k != i ==> !HoldsBusy(s.offers[k]);
    }
  }

  lemma StepKeepsContained(s: Server, e: Step)
    requires Alone(s.offers) && Contained(s) && Can(s, e)
    ensures Contained(Do(s, e))
  {
    if e.Of? {
      MoveKeepsContained(s, e.i, e.m);
    } else {
      hide Alone;
      var t := Do(s, e);
      assert forall k :: 0 <= k < |s.offers| ==> t.offers[k] == s.offers[k];
    }
  }

  predicate Inv(s: Server) {
    OneHolder(s.busy, s.offers) && s.wg == Sessions(s.offers) && Orderly(s) && Contained(s)
  }

  lemma StartInv()
    ensures Inv(START)
  {
  }

  lemma {:induction false} RunKeepsInv(states: seq<Server>, steps: seq<Step>, k: nat)
    requires IsRun(states, steps) && k < |states|
    ensures Inv(states[k])
  {
    hide Do, Can, OneHolder, Orderly, Contained, Sessions, Alone;
    if k == 0 {
      StartInv();
    } else {
      var s, e := states[k - 1], steps[k - 1];
      RunKeepsInv(states, steps, k - 1);
      StepKeepsHolder(s, e);
      StepKeepsCount(s, e);
      StepKeepsOrder(s, e);
      HolderAlone(s.busy, s.offers);
      StepKeepsContained(s, e);
    }
  }

  // ---------------------------------------------------------------- what follows

  /**
   In every interleaving at most one handler runs and at most one peer is open, and `busy` is set
   while an offer is active.
   */
  lemma OneClient(states: seq<Server>, steps: seq<Step>, k: nat, i: nat, j: nat)
    requires IsRun(states, steps) && k < |states| && i < j < |states[k].offers|
    ensures !(InHandler(states[k].offers[i]) && InHandler(states[k].offers[j]))
    ensures !(PeerOpen(states[k].offers[i]) && PeerOpen(states[k].offers[j]))
    ensures HoldsBusy(states[k].offers[i]) || HoldsBusy(states[k].offers[j]) ==> states[k].busy
  {
    hide Do, Can, Orderly, Contained, Sessions;
    RunKeepsInv(states, steps, k);
  }

  /**
   Which offers are admitted: in every reachable state an offer with the right method and token takes
   `busy` if and only if no other offer has it; every other offer is refused and changes nothing else.
   */
  lemma AdmittedIff(states: seq<Server>, steps: seq<Step>, k: nat, i: nat, allowed: bool)
    requires IsRun(states, steps) && k < |states| && i < |states[k].offers| && states[k].offers[i] == Arrived
    ensures Can(states[k], Of(i, Admit(allowed)))
    ensures var s, t := states[k], Do(states[k], Of(i, Admit(allowed)));
      if allowed && forall j :: 0 <= j < |s.offers| ==> !HoldsBusy(s.offers[j])
      then t == s.(offers := s.offers[i := Held(false)], busy := true)
      else t == s.(offers := s.offers[i := Refused])
  {
    hide Sessions, Orderly, Contained;
    RunKeepsInv(states, steps, k);
  }

  lemma RunOn(states: seq<Server>, steps: seq<Step>, e: Step) returns (more: seq<Server>, all: seq<Step>)
    requires IsRun(states, steps) && Can(states[|steps|], e)
    ensures all == steps + [e] && IsRun(more, all) && more[|all|] == Do(states[|steps|], e)
  {
    hide Can, Do;
    more, all := states + [Do(states[|steps|], e)], steps + [e];
  }

  lemma OneOffer() returns (states: seq<Server>, steps: seq<Step>)
    ensures IsRun(states, steps)
    ensures states[|steps|] == START.(offers := [Held(true)], busy := true)
  {
    hide IsRun;
    states, steps := [START], [];
    NoStep();
    states, steps := RunOn(states, steps, Arrive);
    states, steps := RunOn(states, steps, Of(0, Admit(true)));
    states, steps := RunOn(states, steps, Of(0, MakePeer));
  }

  lemma NoStep()
    ensures IsRun([START], [])
  {
  }

  /** The offer becomes a session, which works and leaves; an offer made meanwhile is refused. */
  lemma FirstClient() returns (states: seq<Server>, steps: seq<Step>)
    ensures IsRun(states, steps)
    ensures states[|steps|] == START.(offers := [Released, Refused], wg := 1, commands := 1)
  {
    hide IsRun;
    states, steps := OneOffer();
    states, steps := RunOn(states, steps, Of(0, HandOver));
    states, steps := RunOn(states, steps, Of(0, Connect(true)));
    states, steps := FirstWorks(states, steps);
    states, steps := RunOn(states, steps, Of(0, End(true)));
    states, steps := RunOn(states, steps, Of(0, CloseSession));
    states, steps := RunOn(states, steps, Of(0, Release));
  }

  lemma FirstWorks(before: seq<Server>, taken: seq<Step>) returns (states: seq<Server>, steps: seq<Step>)
    requires IsRun(before, taken) && before[|taken|] == START.(offers := [Entered], busy := true, wg := 1)
    ensures IsRun(states, steps)
    ensures states[|steps|] == START.(offers := [Working, Refused], busy := true, wg := 1, commands := 1)
  {
    hide IsRun;
    states, steps := RunOn(before, taken, Of(0, Check));
    states, steps := RunOn(states, steps, Of(0, Command));
    states, steps := RunOn(states, steps, Arrive);
    states, steps := RunOn(states, steps, Of(1, Admit(true)));
  }

  lemma NextOffer() returns (states: seq<Server>, steps: seq<Step>)
    ensures IsRun(states, steps)
    ensures states[|steps|] == START.(offers := [Released, Refused, Held(true)], busy := true, wg := 1, commands := 1)
  {
    hide IsRun;
    states, steps := FirstClient();
    states, steps := RunOn(states, steps, Arrive);
    states, steps := RunOn(states, steps, Of(2, Admit(true)));
    states, steps := RunOn(states, steps, Of(2, MakePeer));
  }

  /** And then the next client works. */
  lemma SecondClient() returns (states: seq<Server>, steps: seq<Step>)
    ensures IsRun(states, steps)
    ensures var s := states[|steps|];
      s.loop == Serving && s.offers == [Released, Refused, Working] && s.busy && s.wg == 2 && !s.cancelled
  {
    hide IsRun;
    states, steps := NextOffer();
    states, steps := RunOn(states, steps, Of(2, HandOver));
    states, steps := RunOn(states, steps, Of(2, Connect(true)));
    states, steps := RunOn(states, steps, Of(2, Check));
  }

  lemma FirstFailureStays(s: Server, e: Step)
    requires Can(s, e) && s.failedAt.Some?
    ensures Do(s, e).failedAt == s.failedAt
  {
  }

  lemma {:induction false} FailureStays(states: seq<Server>, steps: seq<Step>, k: nat, l: nat)
    requires IsRun(states, steps) && k <= l < |states| && states[k].failedAt.Some?
    ensures states[l].failedAt == states[k].failedAt
  {
    hide Do, Can;
    if k < l {
      FailureStays(states, steps, k, l - 1);
      FirstFailureStays(states[l - 1], steps[l - 1]);
    }
  }

  /**
   Once a cleanup failed, no session issues another setup command, and when the server returns, its
   result shows the failure; without one it does not.
   */
  lemma NoCommandAfterFailure(states: seq<Server>, steps: seq<Step>, k: nat, l: nat)
    requires IsRun(states, steps) && k <= l < |states|
    ensures states[k].failedAt.Some? ==> states[l].commands == states[k].commands
    ensures states[l].loop.Over? ==> (states[l].cleanupErr <==> states[l].failedAt.Some?)
  {
    hide Do, Can, OneHolder, Sessions;
    RunKeepsInv(states, steps, k);
    RunKeepsInv(states, steps, l);
    if states[k].failedAt.Some? {
      FailureStays(states, steps, k, l);
    }
  }

  /** The counter of the wait group never falls below zero. */
  lemma WaitGroupHolds(states: seq<Server>, steps: seq<Step>, k: nat)
    requires IsRun(states, steps) && k < |states|
    ensures states[k].wg >= 0
    ensures forall i :: 0 <= i < |states[k].offers| && states[k].offers[i].Released? ==> states[k].wg > 0
  {
    hide Do, Can, OneHolder, Orderly, Contained, Sessions;
    RunKeepsInv(states, steps, k);
    forall i | 0 <= i < |states[k].offers| && states[k].offers[i].Released?
      ensures states[k].wg > 0
    {
      SessionsUpdate(states[k].offers, i, Done);
    }
  }

  lemma OverWaited(s: Server, e: Step)
    requires Can(s, e) && s.wg == Sessions(s.offers) && Orderly(s)
    requires s.loop.Over? && s.graceful ==> s.wg == 0
    ensures Do(s, e).loop.Over? && Do(s, e).graceful ==> Do(s, e).wg == 0
  {
    hide Sessions;
    if s.loop.Over? && s.graceful {
      NoSessions(s.offers);
    }
  }

  lemma {:induction false} OverIsWaited(states: seq<Server>, steps: seq<Step>, k: nat)
    requires IsRun(states, steps) && k < |states|
    ensures states[k].loop.Over? && states[k].graceful ==> states[k].wg == 0
  {
    hide Do, Can, OneHolder, Orderly, Contained, Sessions;
    if k > 0 {
      var s, e := states[k - 1], steps[k - 1];
      OverIsWaited(states, steps, k - 1);
      RunKeepsInv(states, steps, k - 1);
      OverWaited(s, e);
    }
  }

  /** The shutdown that waits: the session begins before the HTTP server stops, ends, and then the server returns. */
  lemma PatientStop() returns (states: seq<Server>, steps: seq<Step>)
    ensures IsRun(states, steps)
    ensures var s := states[|steps|]; s.loop.Over? && s.graceful && s.offers == [Done] && s.wg == 0 && !s.busy
  {
    hide IsRun;
    states, steps := OneOffer();
    states, steps := RunOn(states, steps, Of(0, HandOver));
    states, steps := StopPatiently(states, steps);
    states, steps := RunOn(states, steps, Of(0, Connect(false)));
    states, steps := RunOn(states, steps, Of(0, CloseSession));
    states, steps := RunOn(states, steps, Of(0, Release));
    states, steps := RunOn(states, steps, Of(0, Finish));
    states, steps := RunOn(states, steps, Return);
  }

  lemma StopPatiently(before: seq<Server>, taken: seq<Step>) returns (states: seq<Server>, steps: seq<Step>)
    requires IsRun(before, taken) && before[|taken|] == START.(offers := [Connecting], busy := true, wg := 1)
    ensures IsRun(states, steps)
    ensures states[|steps|]
      == before[|taken|].(cancelled := true, closing := true, stopped := true, graceful := true, loop := Waiting)
  {
    hide IsRun;
    states, steps := RunOn(before, taken, Signal);
    states, steps := RunOn(states, steps, BeginShutdown);
    states, steps := RunOn(states, steps, Drained);
    states, steps := RunOn(states, steps, ServeReturns);
    states, steps := RunOn(states, steps, Cancel);
    states, steps := RunOn(states, steps, Stopped);
  }

  /**
   If the offers in progress returned within the three seconds, the server returns only after every
   offer and every session is finished.
   */
  lemma ReturnJoins(states: seq<Server>, steps: seq<Step>, k: nat, i: nat)
    requires IsRun(states, steps) && k < |states| && states[k].loop.Over? && states[k].graceful
      && i < |states[k].offers|
    ensures states[k].cancelled && !states[k].busy
    ensures states[k].offers[i].Refused? || states[k].offers[i].Dropped? || states[k].offers[i].Done?
  {
    hide Do, Can, Contained, Sessions;
    RunKeepsInv(states, steps, k);
    OverIsWaited(states, steps, k);
    NoSessions(states[k].offers);
  }

  // ---------------------------------------------------------------- progress

  /** The steps an offer can still take, setup commands apart. */
  function LeftOf(o: Offer): nat {
    match o
    case Arrived => 11
    case Held(peer) => if peer then 9 else 10
    case Connecting => 8
    case Entered => 7
    case Working => 6
    case Bad => 5
    case Ended => 4
    case Dropping(peer) => if peer then 3 else 2
    case PeerClosed => 3
    case Released => 2
    case _ => 0
  }

  function Lefts(offers: seq<Offer>): nat {
    if offers == [] then 0 else LeftOf(offers[0]) + Lefts(offers[1..])
  }

  function LoopRank(l: Loop): nat {
    match l
    case Serving => 4
    case Stopping => 3
    case Draining => 2
    case Waiting => 1
    case Over => 0
  }

  function Remaining(s: Server): nat {
    LoopRank(s.loop) + (if s.closing then 0 else 1) + (if s.stopped then 0 else 1) + Lefts(s.offers)
  }

  lemma {:induction false} LeftsFall(offers: seq<Offer>, i: nat, o: Offer)
    requires i < |offers| && LeftOf(o) < LeftOf(offers[i])
    ensures Lefts(offers[i := o]) < Lefts(offers)
  {
    if i > 0 {
      LeftsFall(offers[1..], i - 1, o);
      assert offers[i := o][1..] == offers[1..][i - 1 := o];
    } else {
      assert offers[0 := o][1..] == offers[1..];
    }
  }

  lemma MoveLeadsOn(o: Offer, m: Move, busy: bool, cancelled: bool)
    requires Fits(o, m)
    ensures if m.Command? then Moved(o, m, busy, cancelled) == o else LeftOf(Moved(o, m, busy, cancelled)) < LeftOf(o)
  {
  }

  /** Steps that need no bound: a repeated signal, and the commands of a setup. */
  predicate Idle(e: Step) {
    e.Signal? || (e.Of? && e.m.Command?)
  }

  /** Every other step but an arrival brings the end nearer. */
  lemma StepsToTheEnd(s: Server, e: Step)
    requires Can(s, e) && !e.Arrive?
    ensures if Idle(e) then Remaining(Do(s, e)) == Remaining(s) else Remaining(Do(s, e)) < Remaining(s)
    ensures s.closing ==> Do(s, e).closing
  {
    hide Lefts, LeftOf;
    if e.Of? {
      var o := Moved(s.offers[e.i], e.m, s.busy, s.cancelled);
      MoveLeadsOn(s.offers[e.i], e.m, s.busy, s.cancelled);
      if e.m.Command? {
        assert s.offers[e.i := o] == s.offers;
      } else {
        LeftsFall(s.offers, e.i, o);
      }
    }
  }

  /** The move of an offer that holds `busy` or is counted as a session. */
  function Onward(o: Offer): (m: Move)
    requires HoldsBusy(o) || InSession(o)
    ensures Fits(o, m) && !m.Command?
  {
    match o
    case Held(_) => Fail
    case Dropping(peer) => if peer then ClosePeer else Drop
    case Connecting => Connect(false)
    case Entered => Check
    case Working => End(true)
    case Bad => Report
    case Ended => CloseSession
    case PeerClosed => Release
    case _ => Finish
  }

  lemma {:induction false} SomeSession(offers: seq<Offer>) returns (i: nat)
    requires Sessions(offers) > 0
    ensures i < |offers| && InSession(offers[i])
  {
    if InSession(offers[0]) {
      i := 0;
    } else {
      i := SomeSession(offers[1..]);
      i := i + 1;
    }
  }

  /** Whatever state the server is in, some step that brings the end nearer can be taken, until it has returned. */
  lemma NeverStuck(states: seq<Server>, steps: seq<Step>, k: nat) returns (e: Step)
    requires IsRun(states, steps) && k < |states| && !states[k].loop.Over?
    ensures Can(states[k], e) && Remaining(Do(states[k], e)) < Remaining(states[k])
  {
    hide Lefts, Sessions, Contained, OneHolder;
    var s := states[k];
    RunKeepsInv(states, steps, k);
    if s.loop.Serving? {
      e := ServeReturns;
    } else if s.loop.Stopping? {
      e := Cancel;
    } else if s.loop.Draining? {
      e := if !s.closing then BeginShutdown else if !s.stopped then TimedOut else Stopped;
    } else if s.wg == 0 {
      e := Return;
    } else {
      var i := SomeSession(s.offers);
      e := Of(i, Onward(s.offers[i]));
    }
    StepsToTheEnd(s, e);
  }

  function Counted(steps: seq<Step>): nat {
    if steps == [] then 0 else Counted(steps[..|steps| - 1]) + if Idle(steps[|steps| - 1]) then 0 else 1
  }

  /**
   A whole shutdown is short: once it has begun, the steps of any run are bounded by what remained,
   signals and setup commands apart.
   */
  lemma {:induction false} ShutdownIsBounded(states: seq<Server>, steps: seq<Step>, k: nat, l: nat)
    requires IsRun(states, steps) && k <= l < |states| && states[k].closing
    ensures states[l].closing && Counted(steps[k..l]) + Remaining(states[l]) <= Remaining(states[k])
  {
    hide Remaining, Do, Idle;
    if k < l {
      ShutdownIsBounded(states, steps, k, l - 1);
      var s, e := states[l - 1], steps[l - 1];
      assert Can(s, e) && states[l] == Do(s, e);
      StepsToTheEnd(s, e);
      assert steps[k..l][..l - k - 1] == steps[k..l - 1];
    } else {
      assert steps[k..l] == [];
    }
  }

  /** While `busy` is set, its one holder can move on. */
  lemma HolderMovesOn(states: seq<Server>, steps: seq<Step>, k: nat) returns (e: Step)
    requires IsRun(states, steps) && k < |states| && states[k].busy
    ensures Can(states[k], e) && e.Of? && HoldsBusy(states[k].offers[e.i]) && !e.m.Command?
  {
    hide Lefts, Sessions, Contained, Orderly;
    var s := states[k];
    RunKeepsInv(states, steps, k);
    var i :| 0 <= i < |s.offers| && HoldsBusy(s.offers[i]);
    e := Of(i, Onward(s.offers[i]));
  }

  predicate Moves(e: Step, i: nat) {
    e.Of? && e.i == i && !e.m.Command?
  }

  /** The moves of offer `i` in `steps`, setup commands apart. */
  function MovesOf(steps: seq<Step>, i: nat): nat {
    if steps == [] then 0 else
      MovesOf(steps[..|steps| - 1], i) + if Moves(steps[|steps| - 1], i) then 1 else 0
  }

  lemma OfferMoves(s: Server, e: Step, i: nat)
    requires Can(s, e) && i < |s.offers|
    ensures i < |Do(s, e).offers|
    ensures if Moves(e, i) then LeftOf(Do(s, e).offers[i]) < LeftOf(s.offers[i]) else Do(s, e).offers[i] == s.offers[i]
  {
    hide Moved, LeftOf;
    if e.Of? {
      MoveLeadsOn(s.offers[e.i], e.m, s.busy, s.cancelled);
    }
  }

  /** With so few moves left to it, setup commands apart: an offer that has `busy` gives it back after at most nine. */
  lemma {:induction false} BusyIsGivenBack(states: seq<Server>, steps: seq<Step>, k: nat, l: nat, i: nat)
    requires IsRun(states, steps) && k <= l < |states| && i < |states[k].offers|
    ensures i < |states[l].offers|
      && MovesOf(steps[k..l], i) + LeftOf(states[l].offers[i]) <= LeftOf(states[k].offers[i])
    ensures HoldsBusy(states[k].offers[i]) && MovesOf(steps[k..l], i) >= 9 ==> !HoldsBusy(states[l].offers[i])
  {
    hide Can, Do, LeftOf, HoldsBusy, Moves;
    if k < l {
      BusyIsGivenBack(states, steps, k, l - 1, i);
      OfferMoves(states[l - 1], steps[l - 1], i);
      assert steps[k..l][..l - k - 1] == steps[k..l - 1];
    } else {
      assert steps[k..l] == [];
    }
    HoldersLeft(states[k].offers[i], states[l].offers[i]);
  }

  lemma HoldersLeft(o: Offer, p: Offer)
    ensures HoldsBusy(o) ==> LeftOf(o) <= 10
    ensures HoldsBusy(p) ==> LeftOf(p) >= 2
  {
  }

  // ---------------------------------------------------------------- after the return

  /** An offer that can still be handed over. */
  predicate Pending(o: Offer) {
    o.Arrived? || o.Held?
  }

  predicate HasSession(s: Server) {
    exists i :: 0 <= i < |s.offers| && InSession(s.offers[i])
  }

  predicate HasPending(s: Server) {
    exists i :: 0 <= i < |s.offers| && Pending(s.offers[i])
  }

  /** Some continuation of `s` has a session. */
  ghost predicate MayServe(s: Server) {
    exists states, steps :: Follows(s, states, steps) && HasSession(states[|steps|])
  }

  /** With no more arrivals and nothing pending, no session begins. */
  lemma NoneBegins(s: Server, e: Step)
    requires s.closing && Can(s, e) && !HasPending(s) && !HasSession(s)
    ensures Do(s, e).closing && !HasPending(Do(s, e)) && !HasSession(Do(s, e))
  {
    var t := Do(s, e);
    forall i | 0 <= i < |t.offers|
      ensures !Pending(t.offers[i]) && !InSession(t.offers[i])
    {
      assert !Pending(s.offers[i]) && !InSession(s.offers[i]);
    }
  }

  lemma {:induction false} NoneLater(s: Server, states: seq<Server>, steps: seq<Step>, k: nat)
    requires s.closing && !HasPending(s) && !HasSession(s) && Follows(s, states, steps) && k < |states|
    ensures states[k].closing && !HasPending(states[k]) && !HasSession(states[k])
  {
    hide Can, Do, HasPending, HasSession;
    if k > 0 {
      NoneLater(s, states, steps, k - 1);
      NoneBegins(states[k - 1], steps[k - 1]);
    }
  }

  lemma MoveTowards(o: Offer, busy: bool, cancelled: bool) returns (m: Move)
    requires if busy then HoldsBusy(o) && !InSession(o) else Pending(o) && !HoldsBusy(o)
    ensures Fits(o, m) && LeftOf(Moved(o, m, busy, cancelled)) < LeftOf(o)
    ensures Pending(o) ==> Pending(Moved(o, m, busy, cancelled)) || InSession(Moved(o, m, busy, cancelled))
  {
    m := match o
      case Held(peer) => if peer then HandOver else MakePeer
      case Dropping(peer) => if peer then ClosePeer else Drop
      case _ => Admit(true);
  }

  /** The step that brings a pending offer nearer to its session: its own, or that of an offer that still has `busy`. */
  lemma TowardsSession(s: Server) returns (e: Step)
    requires OneHolder(s.busy, s.offers) && HasPending(s) && !HasSession(s)
    ensures Can(s, e) && Lefts(Do(s, e).offers) < Lefts(s.offers)
    ensures HasPending(Do(s, e)) || HasSession(Do(s, e))
  {
    hide Lefts, LeftOf, Moved, HoldsBusy, InSession, Pending;
    var p :| 0 <= p < |s.offers| && Pending(s.offers[p]);
    var h := p;
    if s.busy {
      h :| 0 <= h < |s.offers| && HoldsBusy(s.offers[h]);
    }
    var o := s.offers[h];
    assert !InSession(o);
    var m := MoveTowards(o, s.busy, s.cancelled);
    e := Of(h, m);
    var t := Do(s, e);
    LeftsFall(s.offers, h, t.offers[h]);
    assert if Pending(o) then Pending(t.offers[h]) || InSession(t.offers[h]) else t.offers[p] == s.offers[p];
  }

  lemma StepFirst(s: Server, e: Step, states: seq<Server>, steps: seq<Step>)
    requires Can(s, e) && Follows(Do(s, e), states, steps)
    ensures Follows(s, [s] + states, [e] + steps)
    ensures ([s] + states)[|[e] + steps|] == states[|steps|]
  {
    hide Can, Do;
  }

  lemma {:induction false} PendingMayServe(s: Server)
    requires OneHolder(s.busy, s.offers) && (HasPending(s) || HasSession(s))
    ensures MayServe(s)
    decreases Lefts(s.offers)
  {
    hide OneHolder, Lefts, Do, Can, HasPending, HasSession;
    if HasSession(s) {
      assert Follows(s, [s], []) && HasSession([s][0]);
    } else {
      var e := TowardsSession(s);
      StepKeepsHolder(s, e);
      PendingMayServe(Do(s, e));
      var states, steps :| Follows(Do(s, e), states, steps) && HasSession(states[|steps|]);
      StepFirst(s, e, states, steps);
    }
  }

  /**
   Whether the server returns after its last session. When it returns every session it ever had
   is finished, and what is not finished is an offer in its request handler. A session may begin
   afterwards if and only if one of those has not been refused and is not being dropped.
   */
  lemma LateSessionIff(states: seq<Server>, steps: seq<Step>, k: nat)
    requires IsRun(states, steps) && 0 < k < |states| && steps[k - 1].Return?
    ensures forall i | 0 <= i < |states[k].offers| :: !InSession(states[k].offers[i])
    ensures MayServe(states[k]) <==> exists i :: 0 <= i < |states[k].offers| && Pending(states[k].offers[i])
  {
    hide OneHolder, Sessions, Contained;
    var s := states[k];
    RunKeepsInv(states, steps, k - 1);
    RunKeepsInv(states, steps, k);
    NoSessions(s.offers);
    if HasPending(s) {
      PendingMayServe(s);
    } else if MayServe(s) {
      var more, taken :| Follows(s, more, taken) && HasSession(more[|taken|]);
      NoneLater(s, more, taken, |taken|);
    }
  }

  lemma StopImpatiently(before: seq<Server>, taken: seq<Step>) returns (states: seq<Server>, steps: seq<Step>)
    requires IsRun(before, taken) && before[|taken|] == START.(offers := [Held(true)], busy := true)
    ensures IsRun(states, steps)
    ensures states[|steps|] == before[|taken|].(cancelled := true, closing := true, stopped := true, loop := Waiting)
  {
    hide IsRun;
    states, steps := RunOn(before, taken, Signal);
    states, steps := RunOn(states, steps, BeginShutdown);
    states, steps := RunOn(states, steps, TimedOut);
    states, steps := RunOn(states, steps, ServeReturns);
    states, steps := RunOn(states, steps, Cancel);
    states, steps := RunOn(states, steps, Stopped);
  }

  /** It happens: the three seconds pass while an offer is answered, the server returns, and then the session begins. */
  lemma LateSession() returns (states: seq<Server>, steps: seq<Step>)
    ensures IsRun(states, steps)
    ensures var s := states[|steps|]; s.loop.Over? && s.offers == [Connecting] && s.wg == 1
  {
    hide IsRun;
    states, steps := OneOffer();
    states, steps := StopImpatiently(states, steps);
    states, steps := RunOn(states, steps, Return);
    states, steps := RunOn(states, steps, Of(0, HandOver));
  }

  /** Such a session issues no setup command. */
  lemma NoCommandAfterReturn(states: seq<Server>, steps: seq<Step>, k: nat, l: nat)
    requires IsRun(states, steps) && k <= l < |states| && states[k].loop.Over?
    ensures states[l].loop.Over? && states[l].commands == states[k].commands
    decreases l
  {
    hide Do, Can, OneHolder, Contained, Sessions;
    if k < l {
      NoCommandAfterReturn(states, steps, k, l - 1);
      RunKeepsInv(states, steps, l - 1);
      OverStep(states[l - 1], steps[l - 1]);
    }
  }

  lemma OverStep(s: Server, e: Step)
    requires Can(s, e) && s.loop.Over? && Orderly(s)
    ensures Do(s, e).loop.Over? && Do(s, e).commands == s.commands
  {
  }
}
