/**
 The bridge as a state machine: two copiers over two packet ends, the goroutine that
 closes the ends when the context is done, and the caller that waits for all of it.
 */
module Bridge {
  import opened Octets
  import P = IpPackets

  /**
   A closed end may still hand out `left` packets it had buffered; then every read fails. Writes to
   it fail at once.
   */
  datatype End = Open | Shut(left: nat)

  datatype Phase =
    | Reading
    | Checking(b: Bytes)
    | Writing(b: Bytes)
    | Counting(b: Bytes)
    | Reporting            // an error is to be put into the channel
    | Leaving              // the error is in the channel; not yet counted off the wait group
    | Exited

  /** One direction, with all it has read and written. */
  datatype Copier = Copier(phase: Phase, read: seq<Bytes>, written: seq<Bytes>, packets: nat, octets: nat)

  datatype Caller = Selecting | Cancelling | ClosingDev | ClosingRemote | Joining | Over

  /**
   `errs` is the number of errors in the channel of two places, `wg` the wait group's counter,
   `hook` how many ends the context's goroutine has closed.
   */
  datatype State = State(
    outbound: Copier, inbound: Copier, dev: End, remote: End,
    errs: nat, wg: int, cancelled: bool, hook: nat, caller: Caller)

  const ERRS := 2

  const FRESH := Copier(Reading, [], [], 0, 0)

  const START := State(FRESH, FRESH, Open, Open, 0, 2, false, 0, Selecting)

  function Side(s: State, inbound: bool): Copier {
    if inbound then s.inbound else s.outbound
  }

  function From(s: State, inbound: bool): End {
    if inbound then s.remote else s.dev
  }

  function Into(s: State, inbound: bool): End {
    if inbound then s.dev else s.remote
  }

  /** A packet the allowed addresses let pass; nothing is filtered on the way out, or without addresses. */
  predicate Allowed(allowed: seq<Bytes>, inbound: bool, b: Bytes)
    requires P.Valid(b)
  {
    !inbound || allowed == [] || P.Source(b) in allowed
  }

  datatype Step =
    | Read(inbound: bool, b: Bytes)
    | ReadFails(inbound: bool)
    | Check(inbound: bool)
    | Write(inbound: bool)
    | WriteFails(inbound: bool)
    | Count(inbound: bool)
    | Report(inbound: bool)
    | Leave(inbound: bool)
    | Signal
    | Hook(left: nat)
    | TakeError
    | SeeCancel
    | Cancel
    | CloseDev(left: nat)
    | CloseRemote(left: nat)
    | Return

  /** The copier a step is of is where the step starts. */
  predicate Fits(c: Copier, e: Step) {
    match e
    case Read(_, _) => c.phase.Reading?
    case ReadFails(_) => c.phase.Reading?
    case Check(_) => c.phase.Checking?
    case Write(_) => c.phase.Writing?
    case WriteFails(_) => c.phase.Writing?
    case Count(_) => c.phase.Counting?
    case Report(_) => c.phase.Reporting?
    case Leave(_) => c.phase.Leaving?
    case _ => false
  }

  function Move(allowed: seq<Bytes>, c: Copier, e: Step): Copier
    requires Fits(c, e)
  {
    match e
    case Read(_, b) => c.(phase := Checking(b), read := c.read + [b])
    case ReadFails(_) => c.(phase := Reporting)
    case Check(inbound) =>
      if !P.Valid(c.phase.b) then c.(phase := Reporting)
      else if !Allowed(allowed, inbound, c.phase.b) then c.(phase := Reading)
      else c.(phase := Writing(c.phase.b))
    case Write(_) => c.(phase := Counting(c.phase.b), written := c.written + [c.phase.b])
    case WriteFails(_) => c.(phase := Reporting)
    case Count(_) => c.(phase := Reading, packets := c.packets + 1, octets := c.octets + |c.phase.b|)
    case Report(_) => c.(phase := Leaving)
    case Leave(_) => c.(phase := Exited)
  }

  predicate IsMove(e: Step) {
    e.Read? || e.ReadFails? || e.Check? || e.Write? || e.WriteFails? || e.Count? || e.Report? || e.Leave?
  }

  predicate Can(s: State, e: Step) {
    (IsMove(e) ==> Fits(Side(s, e.inbound), e)) &&
    match e
    case Read(inbound, _) => From(s, inbound).Open? || From(s, inbound).left > 0
    case Write(inbound) => Into(s, inbound).Open?
    case Report(_) => s.errs < ERRS
    case Hook(_) => s.cancelled && s.hook < 2
    case TakeError => s.caller.Selecting? && s.errs > 0
    case SeeCancel => s.caller.Selecting? && s.cancelled
    case Cancel => s.caller.Cancelling?
    case CloseDev(_) => s.caller.ClosingDev?
    case CloseRemote(_) => s.caller.ClosingRemote?
    case Return => s.caller.Joining? && s.wg == 0
    case _ => true
  }

  function Closed(e: End, left: nat): End {
    if e.Open? then Shut(left) else e
  }

  function Fewer(e: End): End {
    if e.Shut? && e.left > 0 then Shut(e.left - 1) else e
  }

  function Moved(allowed: seq<Bytes>, s: State, e: Step): State
    requires IsMove(e) && Fits(Side(s, e.inbound), e)
  {
    var c := Move(allowed, Side(s, e.inbound), e);
    if e.inbound then s.(inbound := c) else s.(outbound := c)
  }

  function Do(allowed: seq<Bytes>, s: State, e: Step): State
    requires Can(s, e)
  {
    match e
    case Read(inbound, _) =>
      var t := Moved(allowed, s, e);
      if inbound then t.(remote := Fewer(s.remote)) else t.(dev := Fewer(s.dev))
    case Report(_) => Moved(allowed, s, e).(errs := s.errs + 1)
    case Leave(_) => Moved(allowed, s, e).(wg := s.wg - 1)
    case Signal => s.(cancelled := true)
    case Hook(left) =>
      if s.hook == 0 then s.(hook := 1, dev := Closed(s.dev, left)) else s.(hook := 2, remote := Closed(s.remote, left))
    case TakeError => s.(errs := s.errs - 1, caller := Cancelling)
    case SeeCancel => s.(caller := Cancelling)
    case Cancel => s.(cancelled := true, caller := ClosingDev)
    case CloseDev(left) => s.(dev := Closed(s.dev, left), caller := ClosingRemote)
    case CloseRemote(left) => s.(remote := Closed(s.remote, left), caller := Joining)
    case Return => s.(caller := Over)
    case _ => Moved(allowed, s, e)
  }

  predicate IsRun(allowed: seq<Bytes>, states: seq<State>, steps: seq<Step>) {
    && |states| == |steps| + 1 && states[0] == START
    && forall k :: 0 <= k < |steps| ==> Can(states[k], steps[k]) && states[k + 1] == Do(allowed, states[k], steps[k])
  }

  // ---------------------------------------------------------------- what may be written

  /** The packets of `read` that are valid and allowed, in order. */
  function Passed(allowed: seq<Bytes>, inbound: bool, read: seq<Bytes>): seq<Bytes> {
    if read == [] then []
    else
      var k := |read| - 1;
      Passed(allowed, inbound, read[..k]) +
      if P.Valid(read[k]) && Allowed(allowed, inbound, read[k]) then [read[k]] else []
  }

  function Size(packets: seq<Bytes>): nat {
    if packets == [] then 0 else Size(packets[..|packets| - 1]) + |packets[|packets| - 1]|
  }

  predicate AllValid(packets: seq<Bytes>) {
    forall k :: 0 <= k < |packets| ==> P.Valid(packets[k])
  }

  /** How far a copier is with what it has read. */
  predicate Faithful(allowed: seq<Bytes>, inbound: bool, c: Copier) {
    && (c.read != [] ==> AllValid(c.read[..|c.read| - 1]))
    && match c.phase
       case Reading => AllValid(c.read) && c.written == Passed(allowed, inbound, c.read)
       case Checking(b) => c.read != [] && c.read[|c.read| - 1] == b
            && c.written == Passed(allowed, inbound, c.read[..|c.read| - 1])
       case Writing(b) => AllValid(c.read) && Passed(allowed, inbound, c.read) == c.written + [b]
       case Counting(_) => AllValid(c.read) && c.written == Passed(allowed, inbound, c.read)
       case _ => c.written <= Passed(allowed, inbound, c.read)
  }

  /** The counters lack at most the packet just written. */
  predicate Counted(c: Copier) {
    match c.phase
    case Counting(b) => c.written != [] && c.written[|c.written| - 1] == b
        && c.packets + 1 == |c.written| && c.octets + |b| == Size(c.written)
    case _ => c.packets == |c.written| && c.octets == Size(c.written)
  }

  predicate HasReported(p: Phase) {
    p.Leaving? || p.Exited?
  }

  function Reports(s: State): nat {
    (if HasReported(s.inbound.phase) then 1 else 0) + if HasReported(s.outbound.phase) then 1 else 0
  }

  function Running(s: State): nat {
    (if s.inbound.phase.Exited? then 0 else 1) + if s.outbound.phase.Exited? then 0 else 1
  }

  /**
   The channel holds at most one error of each copier that has reported, and the wait group counts
   those that have not exited.
   */
  predicate Orderly(s: State) {
    && s.errs <= Reports(s) && s.wg == Running(s)
    && (s.caller == Joining || s.caller == Over ==> s.dev.Shut? && s.remote.Shut?)
    && (s.caller == ClosingRemote ==> s.dev.Shut?)
    && (s.caller == Over ==> s.wg == 0)
    && s.hook <= 2 && (s.hook >= 1 ==> s.dev.Shut?) && (s.hook == 2 ==> s.remote.Shut?)
  }

  predicate Inv(allowed: seq<Bytes>, s: State) {
    && Faithful(allowed, false, s.outbound) && Faithful(allowed, true, s.inbound)
    && Counted(s.outbound) && Counted(s.inbound) && Orderly(s)
  }

  lemma MoveKeepsCounted(allowed: seq<Bytes>, c: Copier, e: Step)
    requires IsMove(e) && Fits(c, e) && Counted(c)
    ensures Counted(Move(allowed, c, e))
  {
    hide P.Valid, P.Source, Allowed;
    if e.Write? {
      assert (c.written + [c.phase.b])[..|c.written|] == c.written;
    }
  }

  /** The packet being checked is the last one read. */
  lemma Checked(allowed: seq<Bytes>, inbound: bool, c: Copier)
    requires Faithful(allowed, inbound, c) && c.phase.Checking?
    ensures P.Valid(c.phase.b) ==> AllValid(c.read)
    ensures Passed(allowed, inbound, c.read)
      == c.written + if P.Valid(c.phase.b) && Allowed(allowed, inbound, c.phase.b) then [c.phase.b] else []
  {
    hide P.Valid, P.Source, Allowed;
    assert c.read == c.read[..|c.read| - 1] + [c.phase.b];
  }

  lemma MoveKeepsFaithful(allowed: seq<Bytes>, c: Copier, e: Step)
    requires IsMove(e) && Fits(c, e) && Faithful(allowed, e.inbound, c)
    ensures Faithful(allowed, e.inbound, Move(allowed, c, e))
  {
    hide P.Valid, P.Source, Allowed, Passed, AllValid;
    if e.Read? {
      assert (c.read + [e.b])[..|c.read|] == c.read;
    } else if e.Check? {
      Checked(allowed, e.inbound, c);
    }
  }

  lemma MoveKeepsCopier(allowed: seq<Bytes>, c: Copier, e: Step)
    requires IsMove(e) && Fits(c, e) && Faithful(allowed, e.inbound, c) && Counted(c)
    ensures Faithful(allowed, e.inbound, Move(allowed, c, e)) && Counted(Move(allowed, c, e))
  {
    hide Faithful, Counted, Fits, Move;
    MoveKeepsFaithful(allowed, c, e);
    MoveKeepsCounted(allowed, c, e);
  }

  lemma StepKeepsCopier(allowed: seq<Bytes>, s: State, e: Step, inbound: bool)
    requires Can(s, e) && Faithful(allowed, inbound, Side(s, inbound)) && Counted(Side(s, inbound))
    ensures Faithful(allowed, inbound, Side(Do(allowed, s, e), inbound)) && Counted(Side(Do(allowed, s, e), inbound))
  {
    hide Faithful, Counted, Fits, Move;
    if IsMove(e) && e.inbound == inbound {
      MoveKeepsCopier(allowed, Side(s, inbound), e);
    }
  }

  /** What a move has to do with reporting and exiting. */
  lemma MoveReports(allowed: seq<Bytes>, c: Copier, e: Step)
    requires Fits(c, e)
    ensures var c' := Move(allowed, c, e);
      && (HasReported(c'.phase) <==> HasReported(c.phase) || e.Report?)
      && (c'.phase.Exited? <==> e.Leave?)
      && !c.phase.Exited? && (e.Report? ==> !HasReported(c.phase))
  {
    hide P.Valid, P.Source, Allowed;
  }

  lemma StepKeepsOrder(allowed: seq<Bytes>, s: State, e: Step)
    requires Can(s, e) && Orderly(s)
    ensures Orderly(Do(allowed, s, e))
  {
    if IsMove(e) {
      MoveReports(allowed, Side(s, e.inbound), e);
    }
    hide Move, Fits, HasReported;
  }

  lemma StartInv(allowed: seq<Bytes>)
    ensures Inv(allowed, START)
  {
  }

  lemma {:induction false} RunKeepsInv(allowed: seq<Bytes>, states: seq<State>, steps: seq<Step>, k: nat)
    requires IsRun(allowed, states, steps) && k < |states|
    ensures Inv(allowed, states[k])
  {
    hide Can, Do, Faithful, Counted, Orderly;
    if k == 0 {
      StartInv(allowed);
    } else {
      var s, e := states[k - 1], steps[k - 1];
      RunKeepsInv(allowed, states, steps, k - 1);
      StepKeepsCopier(allowed, s, e, false);
      StepKeepsCopier(allowed, s, e, true);
      StepKeepsOrder(allowed, s, e);
    }
  }

  // ---------------------------------------------------------------- what was written

  lemma {:induction false} PassedValid(allowed: seq<Bytes>, inbound: bool, read: seq<Bytes>)
    ensures AllValid(Passed(allowed, inbound, read))
  {
    hide P.Valid, P.Source, Allowed;
    if read != [] {
      PassedValid(allowed, inbound, read[..|read| - 1]);
    }
  }

  lemma {:induction false} PassedAll(allowed: seq<Bytes>, read: seq<Bytes>)
    requires AllValid(read)
    ensures Passed(allowed, false, read) == read
  {
    hide P.Valid, P.Source;
    if read != [] {
      PassedAll(allowed, read[..|read| - 1]);
      assert read == read[..|read| - 1] + [read[|read| - 1]];
    }
  }

  lemma PassedOut(allowed: seq<Bytes>, read: seq<Bytes>)
    requires read != [] ==> AllValid(read[..|read| - 1])
    ensures Passed(allowed, false, read) <= read
  {
    hide P.Valid, P.Source;
    if read != [] {
      PassedAll(allowed, read[..|read| - 1]);
      assert read == read[..|read| - 1] + [read[|read| - 1]];
    }
  }

  lemma WrittenIsPassed(allowed: seq<Bytes>, inbound: bool, c: Copier)
    requires Faithful(allowed, inbound, c)
    ensures c.written <= Passed(allowed, inbound, c.read)
    ensures c.read != [] ==> AllValid(c.read[..|c.read| - 1])
  {
    hide AllValid, Allowed, P.Valid, P.Source;
  }

  lemma PrefixValid(a: seq<Bytes>, b: seq<Bytes>)
    requires a <= b && AllValid(b)
    ensures AllValid(a)
  {
    hide P.Valid;
  }

  /**
   In every run: what went out is a prefix of what was read from the device; what came in is a
   prefix of the allowed packets among those read from the remote end; every written packet
   keeps the length rules; and nothing is read past the first packet that does not.
   */
  lemma Forwarding(allowed: seq<Bytes>, states: seq<State>, steps: seq<Step>, k: nat)
    requires IsRun(allowed, states, steps) && k < |states|
    ensures states[k].outbound.written <= states[k].outbound.read
    ensures states[k].outbound.phase.Reading? ==> states[k].outbound.written == states[k].outbound.read
    ensures states[k].inbound.written <= Passed(allowed, true, states[k].inbound.read)
    ensures AllValid(states[k].outbound.written) && AllValid(states[k].inbound.written)
    ensures forall inbound, i :: 0 <= i < |Side(states[k], inbound).read| - 1 ==>
        P.Valid(Side(states[k], inbound).read[i])
  {
    hide Can, Do, Counted, Orderly, P.Valid, P.Source, Allowed, Faithful, Passed;
    RunKeepsInv(allowed, states, steps, k);
    var o, i := states[k].outbound, states[k].inbound;
    WrittenIsPassed(allowed, false, o);
    WrittenIsPassed(allowed, true, i);
    PassedValid(allowed, false, o.read);
    PassedValid(allowed, true, i.read);
    PrefixValid(o.written, Passed(allowed, false, o.read));
    PrefixValid(i.written, Passed(allowed, true, i.read));
    PassedOut(allowed, o.read);
    if o.phase.Reading? {
      ReadingIsPassed(allowed, o);
      PassedAll(allowed, o.read);
    }
  }

  lemma ReadingIsPassed(allowed: seq<Bytes>, c: Copier)
    requires Faithful(allowed, false, c) && c.phase.Reading?
    ensures AllValid(c.read) && c.written == Passed(allowed, false, c.read)
  {
  }

  /** `some` are the packets of `all` at these positions, in order. */
  predicate Selects(at: seq<nat>, all: seq<Bytes>, some: seq<Bytes>) {
    && |at| == |some|
    && (forall i :: 0 <= i < |at| ==> at[i] < |all| && some[i] == all[at[i]])
    && (forall i, j :: 0 <= i < j < |at| ==> at[i] < at[j])
  }

  lemma {:induction false} PassedAt(allowed: seq<Bytes>, read: seq<Bytes>) returns (at: seq<nat>)
    requires AllValid(read)
    ensures Selects(at, read, Passed(allowed, true, read))
    ensures forall i :: 0 <= i < |read| ==> (i in at <==> allowed == [] || P.Source(read[i]) in allowed)
  {
    hide P.Valid, P.Source;
    at := [];
    if read != [] {
      var k := |read| - 1;
      at := PassedAt(allowed, read[..k]);
      assert forall i :: 0 <= i < k ==> read[..k][i] == read[i];
      if allowed == [] || P.Source(read[k]) in allowed {
        at := at + [k];
      }
    }
  }

  lemma {:induction false} PassedHasSource(allowed: seq<Bytes>, read: seq<Bytes>)
    requires allowed != []
    ensures forall b :: b in Passed(allowed, true, read) ==> P.Valid(b) && P.Source(b) in allowed
  {
    hide P.Valid, P.Source;
    if read != [] {
      PassedHasSource(allowed, read[..|read| - 1]);
    }
  }

  /**
   The source filter in every run: with allowed addresses, only packets from one of them are written
   to the device. While the inbound copier waits for a packet, it has written exactly the packets it
   read at the positions `at`, those with an allowed source, in their order.
   */
  lemma SourceFilter(allowed: seq<Bytes>, states: seq<State>, steps: seq<Step>, k: nat) returns (at: seq<nat>)
    requires IsRun(allowed, states, steps) && k < |states|
    ensures var c := states[k].inbound;
      allowed != [] ==> forall b :: b in c.written ==> P.Valid(b) && P.Source(b) in allowed
    ensures states[k].inbound.phase.Reading? ==> AllValid(states[k].inbound.read)
    ensures states[k].inbound.phase.Reading? ==> Selects(at, states[k].inbound.read, states[k].inbound.written)
    ensures var c := states[k].inbound;
      c.phase.Reading? ==>
        forall i :: 0 <= i < |c.read| ==> (i in at <==> allowed == [] || P.Source(c.read[i]) in allowed)
  {
    hide Can, Do, Counted, Orderly, P.Valid, P.Source, Allowed, AllValid, Passed, Selects;
    RunKeepsInv(allowed, states, steps, k);
    var c := states[k].inbound;
    WrittenIsPassed(allowed, true, c);
    if allowed != [] {
      PassedHasSource(allowed, c.read);
    }
    at := [];
    if c.phase.Reading? {
      at := PassedAt(allowed, c.read);
    }
  }

  /**
   A packet gets through: while the other end takes packets, a packet that was read, keeps the length
   rules and comes from an allowed address is written and counted in three steps, none of which is blocked.
   */
  lemma PacketPasses(allowed: seq<Bytes>, s: State, inbound: bool) returns (t: State, u: State, v: State)
    requires Side(s, inbound).phase.Checking? && Into(s, inbound).Open?
    requires var b := Side(s, inbound).phase.b;
      P.Valid(b) && (inbound && allowed != [] ==> P.Source(b) in allowed)
    ensures Can(s, Check(inbound)) && t == Do(allowed, s, Check(inbound))
    ensures Can(t, Write(inbound)) && u == Do(allowed, t, Write(inbound))
    ensures Can(u, Count(inbound)) && v == Do(allowed, u, Count(inbound))
    ensures var c, b := Side(s, inbound), Side(s, inbound).phase.b;
      Side(v, inbound) == Copier(Reading, c.read, c.written + [b], c.packets + 1, c.octets + |b|)
  {
    hide P.Valid, P.Source;
    t := Do(allowed, s, Check(inbound));
    u := Do(allowed, t, Write(inbound));
    v := Do(allowed, u, Count(inbound));
  }

  // ---------------------------------------------------------------- the end

  /** A copier that has an error to report always finds a place in the channel. */
  lemma ReportNeverBlocks(allowed: seq<Bytes>, states: seq<State>, steps: seq<Step>, k: nat, inbound: bool)
    requires IsRun(allowed, states, steps) && k < |states| && Side(states[k], inbound).phase.Reporting?
    ensures Can(states[k], Report(inbound))
  {
    hide Do, Faithful, Counted;
    RunKeepsInv(allowed, states, steps, k);
  }

  /** The counter of the wait group never falls below zero. */
  lemma WaitGroupHolds(allowed: seq<Bytes>, states: seq<State>, steps: seq<Step>, k: nat, inbound: bool)
    requires IsRun(allowed, states, steps) && k < |states|
    ensures 0 <= states[k].wg <= 2 && (Side(states[k], inbound).phase.Leaving? ==> states[k].wg > 0)
  {
    hide Do, Can, Faithful, Counted;
    RunKeepsInv(allowed, states, steps, k);
  }

  /**
   When the bridge returns, both ends are closed, both copiers have exited, and the counters are the
   packets and bytes written.
   */
  lemma OnReturn(allowed: seq<Bytes>, states: seq<State>, steps: seq<Step>, k: nat, inbound: bool)
    requires IsRun(allowed, states, steps) && k < |states| && states[k].caller.Over?
    ensures states[k].dev.Shut? && states[k].remote.Shut?
    ensures Side(states[k], inbound).phase.Exited?
    ensures Side(states[k], inbound).packets == |Side(states[k], inbound).written|
    ensures Side(states[k], inbound).octets == Size(Side(states[k], inbound).written)
  {
    hide Do, Can, Faithful, Size;
    RunKeepsInv(allowed, states, steps, k);
  }

  /** An interrupt closes both ends in two steps, whatever the copiers and the caller are doing. */
  lemma InterruptCloses(allowed: seq<Bytes>, states: seq<State>, steps: seq<Step>, k: nat) returns (t: State)
    requires IsRun(allowed, states, steps) && k < |states|
    ensures t == Do(allowed, states[k], Signal) && t.cancelled
    ensures t.hook == 0 ==> Can(t, Hook(0)) && Can(Do(allowed, t, Hook(0)), Hook(0))
    ensures t.hook == 0 ==>
      var u := Do(allowed, Do(allowed, t, Hook(0)), Hook(0)); u.dev.Shut? && u.remote.Shut? && u.hook == 2
    ensures t.hook == 1 ==> Can(t, Hook(0)) && t.dev.Shut? && Do(allowed, t, Hook(0)).remote.Shut?
    ensures t.hook >= 2 ==> t.dev.Shut? && t.remote.Shut?
  {
    hide Faithful, Counted;
    RunKeepsInv(allowed, states, steps, k);
    t := Do(allowed, states[k], Signal);
  }

  // ---------------------------------------------------------------- shutdown

  function PhaseRank(p: Phase): nat {
    match p
    case Counting(_) => 4
    case Reading => 3
    case Checking(_) => 5
    case Writing(_) => 4
    case Reporting => 2
    case Leaving => 1
    case Exited => 0
  }

  function CallerRank(c: Caller): nat {
    match c
    case Selecting => 5
    case Cancelling => 4
    case ClosingDev => 3
    case ClosingRemote => 2
    case Joining => 1
    case Over => 0
  }

  function LeftIn(e: End): nat {
    if e.Shut? then e.left else 0
  }

  /** What is left to do once both ends are closed. */
  function Remaining(s: State): nat {
    3 * (LeftIn(s.dev) + LeftIn(s.remote)) + PhaseRank(s.inbound.phase) + PhaseRank(s.outbound.phase)
    + CallerRank(s.caller)
    + (2 - if s.hook < 2 then s.hook else 2)
  }

  /** With both ends closed every step but a repeated signal brings the return nearer. */
  lemma StepsToTheEnd(allowed: seq<Bytes>, s: State, e: Step)
    requires Can(s, e) && s.dev.Shut? && s.remote.Shut? && !e.Signal?
    ensures Do(allowed, s, e).dev.Shut? && Do(allowed, s, e).remote.Shut?
    ensures Remaining(Do(allowed, s, e)) < Remaining(s)
  {
    if IsMove(e) && !e.Write? {
      MoveAdvances(allowed, Side(s, e.inbound), e);
    }
    hide Move, Fits, PhaseRank;
  }

  lemma MoveAdvances(allowed: seq<Bytes>, c: Copier, e: Step)
    requires Fits(c, e) && !e.Write?
    ensures PhaseRank(Move(allowed, c, e).phase) < PhaseRank(c.phase) + if e.Read? then 3 else 0
  {
    hide P.Valid, P.Source, Allowed;
  }

  /**
   Until it returns, a bridge with an error reported or its context done always has a step to take
   that leaves the wait, closes an end, or brings the return nearer.
   */
  lemma NeverStuck(allowed: seq<Bytes>, states: seq<State>, steps: seq<Step>, k: nat) returns (e: Step)
    requires IsRun(allowed, states, steps) && k < |states| && !states[k].caller.Over?
    requires states[k].caller.Selecting? ==> states[k].errs > 0 || states[k].cancelled
    ensures Can(states[k], e) && !e.Signal?
    ensures CallerRank(Do(allowed, states[k], e).caller) < CallerRank(states[k].caller)
      || (states[k].dev.Shut? && states[k].remote.Shut? && Remaining(Do(allowed, states[k], e)) < Remaining(states[k]))
  {
    hide Faithful, Counted, P.Valid, P.Source, Allowed, Remaining;
    var s := states[k];
    RunKeepsInv(allowed, states, steps, k);
    match s.caller {
      case Selecting => e := if s.errs > 0 then TakeError else SeeCancel;
      case Cancelling => e := Cancel;
      case ClosingDev => e := CloseDev(0);
      case ClosingRemote => e := CloseRemote(0);
      case Joining =>
        if s.inbound.phase.Exited? && s.outbound.phase.Exited? {
          e := Return;
        } else {
          var inbound := !s.inbound.phase.Exited?;
          e := match Side(s, inbound).phase
            case Reading => ReadFails(inbound)
            case Checking(_) => Check(inbound)
            case Writing(_) => WriteFails(inbound)
            case Counting(_) => Count(inbound)
            case Reporting => Report(inbound)
            case Leaving => Leave(inbound)
            case Exited => Return;
        }
        StepsToTheEnd(allowed, s, e);
    }
  }

  function NotSignals(steps: seq<Step>): nat {
    if steps == [] then 0 else NotSignals(steps[..|steps| - 1]) + if steps[|steps| - 1].Signal? then 0 else 1
  }

  lemma SignalKeepsRemaining(allowed: seq<Bytes>, s: State)
    ensures Remaining(Do(allowed, s, Signal)) == Remaining(s)
    ensures Do(allowed, s, Signal).dev == s.dev && Do(allowed, s, Signal).remote == s.remote
  {
  }

  /**
   A whole shutdown is short: once both ends are closed, the steps of any run are bounded by what
   remained, signals apart.
   */
  lemma {:induction false} ShutdownIsBounded(allowed: seq<Bytes>, states: seq<State>, steps: seq<Step>, k: nat, l: nat)
    requires IsRun(allowed, states, steps) && k <= l < |states| && states[k].dev.Shut? && states[k].remote.Shut?
    ensures states[l].dev.Shut? && states[l].remote.Shut?
    ensures NotSignals(steps[k..l]) + Remaining(states[l]) <= Remaining(states[k])
  {
    hide Remaining, Can, Do;
    if k < l {
      ShutdownIsBounded(allowed, states, steps, k, l - 1);
      var s, e := states[l - 1], steps[l - 1];
      assert Can(s, e) && states[l] == Do(allowed, s, e);
      if e.Signal? {
        SignalKeepsRemaining(allowed, s);
      } else {
        StepsToTheEnd(allowed, s, e);
      }
      assert steps[k..l][..l - k - 1] == steps[k..l - 1];
    } else {
      assert steps[k..l] == [];
    }
  }
}
