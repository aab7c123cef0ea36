/**
 The stream server as a state machine: the accept loop with its one-place gate, and a
 goroutine for each session it let in, down to the cleanup of the session's handler.
 */
module ServeStream {
  import opened Octets

  /** Where a session's goroutine is. */
  datatype Phase =
    | Authenticating
    | Entered     // the handler is called; it has not looked at the context yet
    | Working     // past the check: interface, setup, copying, cleanup
    | Bad         // cleanup failed; not yet reported nor the context cancelled
    | Returned    // the handler, or the failed authentication, is over
    | Closed      // the connection is closed
    | Freed       // the gate is free again
    | Finished    // counted off the wait group

  predicate InHandler(p: Phase) {
    p.Entered? || p.Working? || p.Bad?
  }

  predicate HoldsGate(p: Phase) {
    !p.Freed? && !p.Finished?
  }

  datatype Loop = Accepting | Stopping | Waiting | Over

  /**
   `wg` is the wait group's counter, `commands` counts setup commands of all sessions, `failedAt` is
   that count when a cleanup first failed.
   */
  datatype Server = Server(
    cancelled: bool, loop: Loop, gate: bool, sessions: seq<Phase>, wg: int,
    commands: nat, failedAt: Option<nat>, cleanupErr: bool)

  const START := Server(false, Accepting, false, [], 0, 0, None, false)

  datatype Step =
    | Signal                          // an interrupt cancels the context
    | Accept                          // a connection arrives
    | AcceptFails                     // the listener fails, or was closed because of the context
    | Cancel                          // the loop's deferred cancel
    | Return                          // the loop's deferred wait is over
    | Authenticate(i: nat, ok: bool)
    | Check(i: nat)
    | Command(i: nat)
    | End(i: nat, clean: bool)
    | Report(i: nat)
    | Close(i: nat)
    | Free(i: nat)
    | Finish(i: nat)

  predicate At(s: Server, i: nat, p: Phase) {
    i < |s.sessions| && s.sessions[i] == p
  }

  predicate Can(s: Server, e: Step) {
    match e
    case Signal => true
    case Accept => s.loop.Accepting?
    case AcceptFails => s.loop.Accepting?
    case Cancel => s.loop.Stopping?
    case Return => s.loop.Waiting? && s.wg == 0
    case Authenticate(i, _) => At(s, i, Authenticating)
    case Check(i) => At(s, i, Entered)
    case Command(i) => At(s, i, Working)
    case End(i, _) => At(s, i, Working)
    case Report(i) => At(s, i, Bad)
    case Close(i) => At(s, i, Returned)
    case Free(i) => At(s, i, Closed) && s.gate
    case Finish(i) => At(s, i, Freed)
  }

  function To(s: Server, i: nat, p: Phase): Server
    requires i < |s.sessions|
  {
    s.(sessions := s.sessions[i := p])
  }

  function Do(s: Server, e: Step): Server
    requires Can(s, e)
  {
    match e
    case Signal => s.(cancelled := true)
    case Accept => if s.gate then s else s.(gate := true, wg := s.wg + 1, sessions := s.sessions + [Authenticating])
    case AcceptFails => s.(loop := Stopping)
    case Cancel => s.(loop := Waiting, cancelled := true)
    case Return => s.(loop := Over)
    case Authenticate(i, ok) => To(s, i, if ok then Entered else Returned)
    case Check(i) => To(s, i, if s.cancelled then Returned else Working)
    case Command(i) => s.(commands := s.commands + 1)
    case End(i, clean) =>
      if clean then To(s, i, Returned)
      else To(s, i, Bad).(failedAt := if s.failedAt.Some? then s.failedAt else Some(s.commands))
    case Report(i) => To(s, i, Returned).(cleanupErr := true, cancelled := true)
    case Close(i) => To(s, i, Closed)
    case Free(i) => To(s, i, Freed).(gate := false)
    case Finish(i) => To(s, i, Finished).(wg := s.wg - 1)
  }

  predicate IsRun(states: seq<Server>, steps: seq<Step>) {
    && |states| == |steps| + 1 && states[0] == START
    && forall k :: 0 <= k < |steps| ==> Can(states[k], steps[k]) && states[k + 1] == Do(states[k], steps[k])
  }

  // ---------------------------------------------------------------- the invariant

  /** Only the latest session may still hold the gate. */
  predicate OneHolder(s: Server) {
    && (forall i :: 0 <= i < |s.sessions| - 1 ==> !HoldsGate(s.sessions[i]))
    && (s.gate <==> |s.sessions| > 0 && HoldsGate(s.sessions[|s.sessions| - 1]))
  }

  function Unfinished(sessions: seq<Phase>): nat {
    if sessions == [] then 0 else (if sessions[0].Finished? then 0 else 1) + Unfinished(sessions[1..])
  }

  /** The wait group counts the sessions that are not finished, and the loop has waited for it when it is over. */
  predicate Joined(s: Server) {
    && (s.loop.Waiting? || s.loop.Over? ==> s.cancelled)
    && s.wg == Unfinished(s.sessions)
    && (s.loop.Over? ==> s.wg == 0)
  }

  /** After a failed cleanup no session works, and none can start to. */
  predicate Contained(s: Server) {
    && (s.failedAt.Some? ==> s.commands == s.failedAt.value)
    && (s.failedAt.Some? ==> forall i :: 0 <= i < |s.sessions| ==> !s.sessions[i].Working?)
    && (s.failedAt.Some? ==> s.cleanupErr || exists i :: 0 <= i < |s.sessions| && s.sessions[i].Bad?)
    && (s.cleanupErr ==> s.cancelled && s.failedAt.Some?)
    && (forall i :: 0 <= i < |s.sessions| && s.sessions[i].Bad? ==> s.failedAt.Some?)
  }

  predicate Inv(s: Server) {
    OneHolder(s) && Joined(s) && Contained(s)
  }

  lemma StepKeepsHolder(s: Server, e: Step)
    requires OneHolder(s) && Can(s, e)
    ensures OneHolder(Do(s, e))
  {
  }

  lemma {:induction false} UnfinishedAppend(sessions: seq<Phase>, p: Phase)
    ensures Unfinished(sessions + [p]) == Unfinished(sessions) + if p.Finished? then 0 else 1
  {
    if sessions == [] {
      assert sessions + [p] == [p];
    } else {
      UnfinishedAppend(sessions[1..], p);
      assert (sessions + [p])[1..] == sessions[1..] + [p];
    }
  }

  lemma {:induction false} UnfinishedUpdate(sessions: seq<Phase>, i: nat, p: Phase)
    requires i < |sessions| && !sessions[i].Finished?
    ensures Unfinished(sessions) > 0
    ensures Unfinished(sessions[i := p]) == Unfinished(sessions) - if p.Finished? then 1 else 0
  {
    if i > 0 {
      UnfinishedUpdate(sessions[1..], i - 1, p);
      assert sessions[i := p][1..] == sessions[1..][i - 1 := p];
    } else {
      assert sessions[0 := p][1..] == sessions[1..];
    }
  }

  lemma {:induction false} NoneUnfinished(sessions: seq<Phase>)
    ensures Unfinished(sessions) == 0 <==> forall i :: 0 <= i < |sessions| ==> sessions[i].Finished?
  {
    if sessions != [] {
      NoneUnfinished(sessions[1..]);
      assert forall i :: 0 < i < |sessions| ==> sessions[i] == sessions[1..][i - 1];
      assert forall i :: 0 <= i < |sessions| - 1 ==> sessions[1..][i] == sessions[i + 1];
    }
  }

  /** The session a step belongs to. */
  function Of(e: Step): Option<nat> {
    match e
    case Authenticate(i, _) => Some(i)
    case Check(i) => Some(i)
    case Command(i) => Some(i)
    case End(i, _) => Some(i)
    case Report(i) => Some(i)
    case Close(i) => Some(i)
    case Free(i) => Some(i)
    case Finish(i) => Some(i)
    case _ => None
  }

  lemma StepKeepsJoined(s: Server, e: Step)
    requires Joined(s) && Can(s, e)
    ensures Joined(Do(s, e))
  {
    hide Unfinished;
    if e.Accept? {
      UnfinishedAppend(s.sessions, Authenticating);
    } else if Of(e).Some? {
      var i := Of(e).value;
      UnfinishedUpdate(s.sessions, i, Do(s, e).sessions[i]);
    }
  }

  lemma StepKeepsContained(s: Server, e: Step)
    requires OneHolder(s) && Contained(s) && Can(s, e)
    ensures Contained(Do(s, e))
  {
    if Of(e).Some? {
      var i := Of(e).value;
      if InHandler(s.sessions[i]) {
        assert i == |s.sessions| - 1;
      }
    }
    var t := Do(s, e);
    if s.failedAt.Some? && !s.cleanupErr {
      var b :| 0 <= b < |s.sessions| && s.sessions[b].Bad?;
      assert b == |s.sessions| - 1;
      assert e == Report(b) || t.sessions[b].Bad?;
    }
    if e.End? && !e.clean {
      assert t.sessions[e.i].Bad?;
    }
  }

  lemma {:induction false} RunKeepsInv(states: seq<Server>, steps: seq<Step>, k: nat)
    requires IsRun(states, steps) && k < |states|
    ensures Inv(states[k])
  {
    hide Do, Can, OneHolder, Joined, Contained;
    if k == 0 {
      StartInv();
    } else {
      RunKeepsInv(states, steps, k - 1);
      StepKeepsHolder(states[k - 1], steps[k - 1]);
      StepKeepsJoined(states[k - 1], steps[k - 1]);
      StepKeepsContained(states[k - 1], steps[k - 1]);
    }
  }

  lemma StartInv()
    ensures Inv(START)
  {
  }

  // ---------------------------------------------------------------- one client

  /**
   In every interleaving at most one handler runs, and a session exists only if every earlier one
   has returned, closed its connection and freed the gate.
   */
  lemma OneClient(states: seq<Server>, steps: seq<Step>, k: nat, i: nat, j: nat)
    requires IsRun(states, steps) && k < |states| && i < j < |states[k].sessions|
    ensures states[k].sessions[i].Freed? || states[k].sessions[i].Finished?
    ensures !(InHandler(states[k].sessions[i]) && InHandler(states[k].sessions[j]))
  {
    hide Do, Can, Joined, Contained;
    RunKeepsInv(states, steps, k);
  }

  /** The gate is never given back twice: whoever is to free it finds it taken. */
  lemma GateIsTaken(states: seq<Server>, steps: seq<Step>, k: nat, i: nat)
    requires IsRun(states, steps) && k < |states| && At(states[k], i, Closed)
    ensures Can(states[k], Free(i))
  {
    hide Do, Joined, Contained;
    RunKeepsInv(states, steps, k);
  }

  /**
   Who is let in: in every reachable state of a server that accepts, a connection begins a session if
   and only if every session before it has freed the gate; otherwise it changes nothing.
   */
  lemma AdmittedIff(states: seq<Server>, steps: seq<Step>, k: nat)
    requires IsRun(states, steps) && k < |states| && states[k].loop == Accepting
    ensures Can(states[k], Accept)
    ensures var s, t := states[k], Do(states[k], Accept);
      if forall i :: 0 <= i < |s.sessions| ==> s.sessions[i] == Freed || s.sessions[i] == Finished
      then t.sessions == s.sessions + [Authenticating] && t.loop == Accepting && t.cancelled == s.cancelled
      else t == s
  {
    hide Joined, Contained;
    RunKeepsInv(states, steps, k);
  }

  lemma RunOn(states: seq<Server>, steps: seq<Step>, e: Step) returns (more: seq<Server>, all: seq<Step>)
    requires IsRun(states, steps) && Can(states[|steps|], e)
    ensures all == steps + [e] && IsRun(more, all) && more[|all|] == Do(states[|steps|], e)
  {
    hide Can, Do;
    more, all := states + [Do(states[|steps|], e)], steps + [e];
  }

  lemma NoStep()
    ensures IsRun([START], [])
  {
  }

  /** A client is authenticated, works and leaves, while a second one is turned away. */
  lemma FirstClient() returns (states: seq<Server>, steps: seq<Step>)
    ensures IsRun(states, steps)
    ensures states[|steps|] == START.(sessions := [Freed], wg := 1, commands := 1)
  {
    hide IsRun;
    states, steps := [START], [];
    NoStep();
    states, steps := RunOn(states, steps, Accept);
    states, steps := RunOn(states, steps, Accept);
    states, steps := RunOn(states, steps, Authenticate(0, true));
    states, steps := RunOn(states, steps, Check(0));
    states, steps := RunOn(states, steps, Command(0));
    states, steps := RunOn(states, steps, End(0, true));
    states, steps := RunOn(states, steps, Close(0));
    states, steps := RunOn(states, steps, Free(0));
  }

  /** And then the next client works, although the first is not yet counted off. */
  lemma SecondClient() returns (states: seq<Server>, steps: seq<Step>)
    ensures IsRun(states, steps)
    ensures var s := states[|steps|];
      s.loop == Accepting && s.sessions == [Freed, Working] && s.commands == 1 && s.wg == 2 && !s.cancelled
  {
    hide IsRun;
    states, steps := FirstClient();
    states, steps := RunOn(states, steps, Accept);
    states, steps := RunOn(states, steps, Authenticate(1, true));
    states, steps := RunOn(states, steps, Check(1));
  }

  // ---------------------------------------------------------------- failed cleanup

  lemma {:induction false} FailureStays(states: seq<Server>, steps: seq<Step>, k: nat, l: nat)
    requires IsRun(states, steps) && k <= l < |states| && states[k].failedAt.Some?
    ensures states[l].failedAt == states[k].failedAt
  {
    hide Do, Can;
    if k < l {
      FailureStays(states, steps, k, l - 1);
      FirstFailureStays(states[l - 1], steps[l - 1]);
    }
  }

  lemma FirstFailureStays(s: Server, e: Step)
    requires Can(s, e) && s.failedAt.Some?
    ensures Do(s, e).failedAt == s.failedAt
  {
  }

  /**
   Once a cleanup failed, no session issues another setup command, and when the server returns, its
   result shows the failure; without one it does not.
   */
  lemma NoCommandAfterFailure(states: seq<Server>, steps: seq<Step>, k: nat, l: nat)
    requires IsRun(states, steps) && k <= l < |states|
    ensures states[k].failedAt.Some? ==> states[l].commands == states[k].commands
    ensures states[l].loop.Over? ==> (states[l].cleanupErr <==> states[l].failedAt.Some?)
  {
    hide Do, Can, Unfinished;
    RunKeepsInv(states, steps, k);
    RunKeepsInv(states, steps, l);
    NoneUnfinished(states[l].sessions);
    if states[k].failedAt.Some? {
      FailureStays(states, steps, k, l);
    }
  }

  // ---------------------------------------------------------------- shutdown

  /** The counter of the wait group never falls below zero. */
  lemma WaitGroupHolds(states: seq<Server>, steps: seq<Step>, k: nat)
    requires IsRun(states, steps) && k < |states|
    ensures states[k].wg >= 0
    ensures forall i :: At(states[k], i, Freed) ==> states[k].wg > 0
  {
    hide Do, Can, Contained, OneHolder, Unfinished;
    RunKeepsInv(states, steps, k);
    forall i | At(states[k], i, Freed)
      ensures states[k].wg > 0
    {
      UnfinishedUpdate(states[k].sessions, i, Finished);
    }
  }

  /** The server returns only after every session's goroutine is finished. */
  lemma ReturnJoins(states: seq<Server>, steps: seq<Step>, k: nat)
    requires IsRun(states, steps) && k < |states| && states[k].loop.Over?
    ensures states[k].cancelled && !states[k].gate
    ensures forall i :: 0 <= i < |states[k].sessions| ==> states[k].sessions[i].Finished?
  {
    hide Do, Can, Contained, Unfinished;
    RunKeepsInv(states, steps, k);
    NoneUnfinished(states[k].sessions);
  }

  function Rank(p: Phase): nat {
    match p
    case Authenticating => 7
    case Entered => 6
    case Working => 5
    case Bad => 4
    case Returned => 3
    case Closed => 2
    case Freed => 1
    case Finished => 0
  }

  function Ranks(sessions: seq<Phase>): nat {
    if sessions == [] then 0 else Rank(sessions[0]) + Ranks(sessions[1..])
  }

  function LoopRank(l: Loop): nat {
    match l
    case Accepting => 3
    case Stopping => 2
    case Waiting => 1
    case Over => 0
  }

  /** What is still to be done before the server is gone. */
  function Remaining(s: Server): nat {
    LoopRank(s.loop) + Ranks(s.sessions)
  }

  lemma {:induction false} RanksFall(sessions: seq<Phase>, i: nat, p: Phase)
    requires i < |sessions| && Rank(p) < Rank(sessions[i])
    ensures Ranks(sessions[i := p]) < Ranks(sessions)
  {
    if i > 0 {
      RanksFall(sessions[1..], i - 1, p);
      assert sessions[i := p][1..] == sessions[1..][i - 1 := p];
    } else {
      assert sessions[0 := p][1..] == sessions[1..];
    }
  }

  /** When no more connections are taken in, every step but a signal and a setup command brings the end nearer. */
  lemma StepsToTheEnd(s: Server, e: Step)
    requires Can(s, e) && !e.Signal? && !e.Command? && !(e.Accept? && !s.gate)
    ensures e.Accept? || Remaining(Do(s, e)) < Remaining(s)
    ensures e.Accept? ==> Do(s, e) == s
  {
    hide Ranks;
    match e {
      case Authenticate(i, ok) => RanksFall(s.sessions, i, if ok then Entered else Returned);
      case Check(i) => RanksFall(s.sessions, i, if s.cancelled then Returned else Working);
      case End(i, clean) => RanksFall(s.sessions, i, if clean then Returned else Bad);
      case Report(i) => RanksFall(s.sessions, i, Returned);
      case Close(i) => RanksFall(s.sessions, i, Closed);
      case Free(i) => RanksFall(s.sessions, i, Freed);
      case Finish(i) => RanksFall(s.sessions, i, Finished);
      case _ =>
    }
  }

  /**
   Whatever state a stopping server is in, some step that brings the end nearer can be taken, until
   it has returned.
   */
  lemma NeverStuck(states: seq<Server>, steps: seq<Step>, k: nat) returns (e: Step)
    requires IsRun(states, steps) && k < |states| && !states[k].loop.Over?
    ensures Can(states[k], e) && Remaining(Do(states[k], e)) < Remaining(states[k])
  {
    hide Ranks, Unfinished;
    var s := states[k];
    RunKeepsInv(states, steps, k);
    NoneUnfinished(s.sessions);
    if s.loop.Accepting? {
      e := AcceptFails;
    } else if s.loop.Stopping? {
      e := Cancel;
    } else if i :| 0 <= i < |s.sessions| && !s.sessions[i].Finished? {
      e := match s.sessions[i]
        case Authenticating => Authenticate(i, false)
        case Entered => Check(i)
        case Working => End(i, true)
        case Bad => Report(i)
        case Returned => Close(i)
        case Closed => Free(i)
        case Freed => Finish(i)
        case Finished => Return;
      StepsToTheEnd(s, e);
    } else {
      e := Return;
    }
  }

  /** Steps that need no bound: a repeated signal, and the commands of a setup. */
  predicate Idle(e: Step) {
    e.Signal? || e.Command?
  }

  function Counted(steps: seq<Step>): nat {
    if steps == [] then 0 else Counted(steps[..|steps| - 1]) + if Idle(steps[|steps| - 1]) then 0 else 1
  }

  /** The loop does not go back to accepting. */
  lemma StopsForGood(s: Server, e: Step)
    requires Can(s, e) && !s.loop.Accepting?
    ensures !Do(s, e).loop.Accepting?
    ensures Idle(e) ==> Remaining(Do(s, e)) == Remaining(s)
  {
    hide Ranks;
  }

  /**
   A whole shutdown is short: once the loop has stopped, the steps of any run are bounded by what
   remained, signals and setup commands apart.
   */
  lemma {:induction false} ShutdownIsBounded(states: seq<Server>, steps: seq<Step>, k: nat, l: nat)
    requires IsRun(states, steps) && k <= l < |states| && !states[k].loop.Accepting?
    ensures !states[l].loop.Accepting?
    ensures Counted(steps[k..l]) + Remaining(states[l]) <= Remaining(states[k])
  {
    hide Remaining, Can, Do, Idle;
    if k < l {
      ShutdownIsBounded(states, steps, k, l - 1);
      var s, e := states[l - 1], steps[l - 1];
      assert Can(s, e) && states[l] == Do(s, e);
      StopsForGood(s, e);
      if !Idle(e) {
        ShutdownStep(s, e);
      }
      assert steps[k..l][..l - k - 1] == steps[k..l - 1];
    } else {
      assert steps[k..l] == [];
    }
  }

  lemma ShutdownStep(s: Server, e: Step)
    requires Can(s, e) && !s.loop.Accepting? && !Idle(e)
    ensures Remaining(Do(s, e)) < Remaining(s)
  {
    StepsToTheEnd(s, e);
  }
}
