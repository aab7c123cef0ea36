/** Whole runs of the SIP duplex protocol: safety in every reachable state, progress, and a bound on the work left. */
module SipDuplexRuns {
  import opened Octets
  import opened SipDuplex

  /** One action of one of the two endpoints. */
  datatype Step = Step(mine: bool, a: Action)

  function View(s: Duplex, mine: bool): Duplex {
    if mine then s else Swap(s)
  }

  predicate Can(s: Duplex, st: Step) {
    Enabled(View(s, st.mine), st.a)
  }

  function Do(s: Duplex, st: Step): Duplex
    requires Can(s, st)
  {
    View(Apply(View(s, st.mine), st.a), st.mine)
  }

  function Fresh(seqNo: nat): End {
    End(Idle, Reading, Waiting, seqNo, 0, [], [], [], [], false, false, [], [], [], 0, 0)
  }

  /** Both ends right after authentication, which has used up some sequence numbers. */
  function Start(capacity: nat, mySeq: nat, peerSeq: nat): Duplex {
    Duplex(Fresh(mySeq), Fresh(peerSeq), capacity)
  }

  predicate IsRun(states: seq<Duplex>, steps: seq<Step>) {
    && |states| == |steps| + 1
    && forall i :: 0 <= i < |steps| ==> Can(states[i], steps[i]) && states[i + 1] == Do(states[i], steps[i])
  }

  lemma SwapKeepsInv(s: Duplex)
    requires Inv(s)
    ensures Inv(Swap(s))
  {
    if Open(s) {
      var p, q :| Flights(s, p, q);
      assert Flights(Swap(s), q, p);
    }
  }

  lemma StepKeepsInv(s: Duplex, st: Step)
    requires Inv(s) && Can(s, st)
    ensures Inv(Do(s, st))
  {
    if st.mine {
      ActionKeepsInv(s, st.a);
    } else {
      SwapKeepsInv(s);
      ActionKeepsInv(Swap(s), st.a);
      SwapKeepsInv(Apply(Swap(s), st.a));
    }
  }

  lemma StartInv(capacity: nat, mySeq: nat, peerSeq: nat)
    ensures Inv(Start(capacity, mySeq, peerSeq))
  {
    assert Flights(Start(capacity, mySeq, peerSeq), Nowhere, Nowhere);
  }

  lemma {:induction false} ReachableInv(states: seq<Duplex>, steps: seq<Step>, capacity: nat, mySeq: nat,
      peerSeq: nat, n: nat)
    requires IsRun(states, steps) && states[0] == Start(capacity, mySeq, peerSeq) && n < |states|
    ensures Inv(states[n])
  {
    if n == 0 {
      StartInv(capacity, mySeq, peerSeq);
    } else {
      ReachableInv(states, steps, capacity, mySeq, peerSeq, n - 1);
      assert Can(states[n - 1], steps[n - 1]);
      StepKeepsInv(states[n - 1], steps[n - 1]);
    }
  }

  // ---------------------------------------------------------------- conservation

  /** While both ends are open a write is outstanding exactly when one place holds its request. */
  lemma Conservation(states: seq<Duplex>, steps: seq<Step>, capacity: nat, mySeq: nat, peerSeq: nat, n: nat)
    requires IsRun(states, steps) && states[0] == Start(capacity, mySeq, peerSeq) && n < |states|
    requires Open(states[n])
    ensures exists p, q :: Flights(states[n], p, q)
    ensures |states[n].me.ack| <= 1 && |states[n].me.responses| <= 1
    ensures |states[n].peer.ack| <= 1 && |states[n].peer.responses| <= 1
  {
    hide Order, Counted, Orderly, Queued, Alive, Requests, Replies, Enabled, Apply, HeldRequest, HeldReply, AtDesk;
    ReachableInv(states, steps, capacity, mySeq, peerSeq, n);
    var p, q :| Flights(states[n], p, q);
  }

  /** No acknowledgement is for another request, and no request is rejected for its number or for a full queue. */
  lemma NoTransactionFault(states: seq<Duplex>, steps: seq<Step>, capacity: nat, mySeq: nat, peerSeq: nat, n: nat)
    requires IsRun(states, steps) && states[0] == Start(capacity, mySeq, peerSeq) && n < |states|
    requires Open(states[n])
    ensures var e := states[n].me;
      !Stale(e) && !Overflows(e) && (e.writer.AwaitAck? && e.ack != [] ==> e.ack[0] == e.writer.k)
    ensures var e := states[n].peer;
      !Stale(e) && !Overflows(e) && (e.writer.AwaitAck? && e.ack != [] ==> e.ack[0] == e.writer.k)
  {
    ReachableInv(states, steps, capacity, mySeq, peerSeq, n);
    var p, q :| Flights(states[n], p, q);
    FaultFree(states[n].me, states[n].peer, p, q);
    FaultFree(states[n].peer, states[n].me, q, p);
  }

  lemma FaultFree(e: End, other: End, p: Place, q: Place)
    requires FlightAt(e, other, e.seqNo, p) && FlightAt(other, e, other.seqNo, q)
    ensures !Stale(e) && !Overflows(e) && (e.writer.AwaitAck? && e.ack != [] ==> e.ack[0] == e.writer.k)
  {
    if e.reader.Holding? && e.reader.item.Msg? {
      assert HeldRequest(e.reader) == [e.reader.item.k];
      assert q == AtReader;
    }
  }

  // ---------------------------------------------------------------- delivery

  /**
   In every reachable state, closed or not: the peer's `rx` received a prefix of what
   was sent, and it misses at most one packet whose write returned nil. That packet is
   with a reader between its two enqueues, or with one that stopped there.
   */
  lemma Delivery(states: seq<Duplex>, steps: seq<Step>, capacity: nat, mySeq: nat, peerSeq: nat, n: nat)
    requires IsRun(states, steps) && states[0] == Start(capacity, mySeq, peerSeq) && n < |states|
    ensures var me, peer := states[n].me, states[n].peer;
      && peer.delivered <= me.sent
      && me.returned <= |peer.delivered| + 1
      && (me.returned > |peer.delivered| ==> peer.reader.Between? || (peer.reader.Exited? && peer.reader.lost))
    ensures var me, peer := states[n].me, states[n].peer;
      && me.delivered <= peer.sent
      && peer.returned <= |me.delivered| + 1
      && (peer.returned > |me.delivered| ==> me.reader.Between? || (me.reader.Exited? && me.reader.lost))
  {
    ReachableInv(states, steps, capacity, mySeq, peerSeq, n);
  }

  /**
   From end to end, in every reachable state, closed or not: the packets that `ReadPacket` returned at
   one end are the first ones `WritePacket` sent at the other, in order; the rest of what arrived waits
   in `rx`, of 256 places, and the two queues of transactions keep to their 8.
   */
  lemma EndToEnd(states: seq<Duplex>, steps: seq<Step>, capacity: nat, mySeq: nat, peerSeq: nat, n: nat)
    requires IsRun(states, steps) && states[0] == Start(capacity, mySeq, peerSeq) && n < |states|
    ensures states[n].peer.got <= states[n].me.sent && states[n].me.got <= states[n].peer.sent
    ensures states[n].me.got + states[n].me.rx == states[n].me.delivered
    ensures states[n].peer.got + states[n].peer.rx == states[n].peer.delivered
    ensures |states[n].me.rx| <= 256 && |states[n].me.ack| <= 8 && |states[n].me.responses| <= 8
  {
    hide Enabled, Apply, Flights, Counted, Alive;
    ReachableInv(states, steps, capacity, mySeq, peerSeq, n);
    Delivery(states, steps, capacity, mySeq, peerSeq, n);
  }

  /**
   In every reachable state the requests an end has still to answer are there in the order of their
   numbers, none twice, and its writer and its responder are not on the wire together.
   */
  lemma AnswersInOrder(states: seq<Duplex>, steps: seq<Step>, capacity: nat, mySeq: nat, peerSeq: nat, n: nat)
    requires IsRun(states, steps) && states[0] == Start(capacity, mySeq, peerSeq) && n < |states|
    ensures var e := states[n].me; forall i, j :: 0 <= i < j < |ToAnswer(e)| ==> ToAnswer(e)[i] < ToAnswer(e)[j]
    ensures !(states[n].me.writer.Writing? && states[n].me.responder.Replying?)
  {
    hide Enabled, Apply, Flights, Counted, Alive, Order, Queued;
    ReachableInv(states, steps, capacity, mySeq, peerSeq, n);
  }

  /** The reader stops between its two enqueues: because `rx` is full, or because its endpoint was closed under it. */
  predicate Loses(s: Duplex, a: Action) {
    s.me.reader.Between? && ((a.ReaderHandles? && |s.me.rx| >= 256) || (a.ReaderStops? && s.me.done))
  }

  /** At some step before `n` this end's reader lost its packet. */
  predicate HasLost(states: seq<Duplex>, steps: seq<Step>, mine: bool, n: nat)
    requires n <= |steps| && n < |states|
  {
    exists k :: 0 <= k < n && steps[k].mine == mine && Loses(View(states[k], mine), steps[k].a)
  }

  predicate IsLost(e: End) {
    e.reader.Exited? && e.reader.lost
  }

  lemma ActionLoses(s: Duplex, a: Action)
    requires Enabled(s, a)
    ensures IsLost(Apply(s, a).me) <==> IsLost(s.me) || Loses(s, a)
    ensures IsLost(Apply(s, a).peer) <==> IsLost(s.peer)
  {
  }

  lemma {:induction false} LostIff(states: seq<Duplex>, steps: seq<Step>, mine: bool, n: nat)
    requires IsRun(states, steps) && !IsLost(View(states[0], mine).me) && n < |states|
    ensures IsLost(View(states[n], mine).me) <==> HasLost(states, steps, mine, n)
  {
    hide Enabled, Apply, Loses, IsLost;
    if n > 0 {
      LostIff(states, steps, mine, n - 1);
      var s, st := states[n - 1], steps[n - 1];
      assert Can(s, st) && states[n] == Do(s, st);
      ActionLoses(View(s, st.mine), st.a);
      assert IsLost(View(states[n], mine).me) <==>
        IsLost(View(s, mine).me) || (st.mine == mine && Loses(View(s, mine), st.a));
    }
  }

  /**
   The exact condition, in every reachable state, closed or not: a write returned nil without
   its packet in the peer's `rx` if and only if every packet the peer took in was acknowledged
   and its reader is between its two enqueues, or stopped there once, on a full `rx` or because
   its endpoint was closed.
   */
  lemma ReturnedWithoutDelivery(states: seq<Duplex>, steps: seq<Step>, capacity: nat, mySeq: nat, peerSeq: nat,
      n: nat, mine: bool)
    requires IsRun(states, steps) && states[0] == Start(capacity, mySeq, peerSeq) && n < |states|
    ensures var s := View(states[n], mine);
      s.me.returned > |s.peer.delivered| <==>
        s.me.returned == s.peer.accepted && (s.peer.reader.Between? || HasLost(states, steps, !mine, n))
  {
    hide Enabled, Apply, Loses, Flights, Order;
    ReachableInv(states, steps, capacity, mySeq, peerSeq, n);
    LostIff(states, steps, !mine, n);
  }

  lemma RunOn(states: seq<Duplex>, steps: seq<Step>, mine: bool, a: Action) returns (more: seq<Duplex>, all: seq<Step>)
    requires IsRun(states, steps) && Can(states[|steps|], Step(mine, a))
    ensures all == steps + [Step(mine, a)] && IsRun(more, all) && more[0] == states[0]
    ensures |more| == |all| + 1 && more[|all|] == Do(states[|steps|], Step(mine, a))
  {
    hide Do, Can;
    more, all := states + [Do(states[|steps|], Step(mine, a))], steps + [Step(mine, a)];
  }

  function SentOne(p: Bytes): Duplex {
    Duplex(Fresh(0).(writer := AwaitAck(1), seqNo := 1, out := [Msg(1, p)], sent := [p]), Fresh(0), 1)
  }

  function AnsweredOne(p: Bytes): Duplex {
    Duplex(SentOne(p).me.(out := []), Fresh(0).(reader := Between(1, p), recvSeq := 1,
           accepted := 1, out := [Ok(1)]), 1)
  }

  lemma SendOne(p: Bytes) returns (states: seq<Duplex>, steps: seq<Step>)
    ensures IsRun(states, steps) && states[0] == Start(1, 0, 0) && states[|steps|] == SentOne(p)
  {
    hide IsRun;
    states, steps := [Start(1, 0, 0)], [];
    NoStep(states[0]);
    states, steps := RunOn(states, steps, true, BeginWrite(p));
    states, steps := RunOn(states, steps, true, WriterLocks);
    states, steps := RunOn(states, steps, true, WriterPuts);
  }

  lemma AnswerOne(p: Bytes, before: seq<Duplex>, taken: seq<Step>) returns (states: seq<Duplex>, steps: seq<Step>)
    requires IsRun(before, taken) && before[|taken|] == SentOne(p)
    ensures IsRun(states, steps) && states[0] == before[0] && states[|steps|] == AnsweredOne(p)
  {
    hide IsRun;
    states, steps := RunOn(before, taken, false, ReadItem);
    states, steps := RunOn(states, steps, false, ReaderHandles);
    states, steps := RunOn(states, steps, false, ResponderTakes);
    states, steps := RunOn(states, steps, false, ResponderLocks);
    states, steps := RunOn(states, steps, false, ResponderPuts);
  }

  /**
   The second way is real: a packet is acknowledged, its write returns nil, and the packet never
   reaches an empty `rx`.
   */
  lemma AcknowledgedThenLost(p: Bytes) returns (states: seq<Duplex>, steps: seq<Step>)
    ensures IsRun(states, steps) && states[0] == Start(1, 0, 0)
    ensures var s := states[|steps|];
      && s.me.sent == [p] && s.me.returned == 1
      && s.peer.delivered == [] == s.peer.rx && s.peer.reader == Exited(true)
  {
    hide IsRun;
    states, steps := SendOne(p);
    states, steps := AnswerOne(p, states, steps);
    states, steps := RunOn(states, steps, true, ReadItem);
    states, steps := RunOn(states, steps, true, ReaderHandles);
    states, steps := RunOn(states, steps, true, TakeAck);
    states, steps := RunOn(states, steps, false, Close);
    states, steps := RunOn(states, steps, false, ReaderStops);
  }

  /** The way it should be: the packet is acknowledged, its write returns nil, and the other application reads it. */
  lemma AcknowledgedAndRead(p: Bytes) returns (states: seq<Duplex>, steps: seq<Step>)
    ensures IsRun(states, steps) && states[0] == Start(1, 0, 0)
    ensures var s := states[|steps|];
      && s.me.sent == [p] && s.me.returned == 1 && s.me.writer == Idle && s.peer.got == [p]
      && !s.me.done && !s.peer.done
  {
    hide IsRun;
    states, steps := SendOne(p);
    states, steps := AnswerOne(p, states, steps);
    states, steps := RunOn(states, steps, true, ReadItem);
    states, steps := RunOn(states, steps, true, ReaderHandles);
    states, steps := RunOn(states, steps, true, TakeAck);
    states, steps := RunOn(states, steps, false, ReaderHandles);
    states, steps := RunOn(states, steps, false, AppReads);
  }

  lemma NoStep(s: Duplex)
    ensures IsRun([s], [])
  {
  }

  // ---------------------------------------------------------------- progress

  /** The steps the protocol takes by itself: no new write, no application read, no failure or close from outside. */
  predicate Protocol(a: Action) {
    || a.WriterLocks? || a.WriterPuts? || a.WriterHandsOver? || a.TakeAck?
    || a.ResponderTakes? || a.ResponderLocks? || a.ResponderPuts? || a.ResponderHandsOver?
    || a.ReadItem? || a.ReaderHandles?
  }

  predicate CanAdvance(s: Duplex, st: Step) {
    Protocol(st.a) && Can(s, st)
  }

  /** A reader that is not waiting for input can go on: `ack` has room because nothing else is in flight. */
  lemma ReaderAdvances(s: Duplex, p: Place, q: Place) returns (a: Action)
    requires Open(s) && Alive(s.me) && Flights(s, p, q) && s.me.reader != Reading
    ensures Protocol(a) && Enabled(s, a)
  {
    a := ReaderHandles;
    if s.me.reader.Holding? && s.me.reader.item.Ok? {
      assert HeldReply(s.me.reader) == [s.me.reader.item.k];
      assert |s.me.ack| == 0;
    }
  }

  /** Whoever holds the wire can finish, or the peer's reader can move. */
  lemma WireAdvances(s: Duplex, p: Place, q: Place) returns (st: Step)
    requires Open(s) && Alive(s.me) && Alive(s.peer) && Flights(s, p, q) && !WireFree(s.me)
    ensures CanAdvance(s, st)
  {
    if Room(s) {
      st := Step(true, if s.me.writer.Writing? then WriterPuts else ResponderPuts);
    } else if s.peer.reader != Reading {
      var a := ReaderAdvances(Swap(s), q, p);
      st := Step(false, a);
    } else if s.me.out == [] {
      st := Step(true, if s.me.writer.Writing? then WriterHandsOver else ResponderHandsOver);
    } else {
      st := Step(false, ReadItem);
    }
  }

  lemma InputAdvances(s: Duplex, p: Place, q: Place) returns (st: Step)
    requires Open(s) && Alive(s.me) && Alive(s.peer) && Flights(s, p, q) && s.peer.out != []
    ensures CanAdvance(s, st)
  {
    if s.me.reader == Reading {
      st := Step(true, ReadItem);
    } else {
      var a := ReaderAdvances(s, p, q);
      st := Step(true, a);
    }
  }

  function Other(st: Step): Step {
    Step(!st.mine, st.a)
  }

  lemma OtherAdvances(s: Duplex, st: Step)
    requires CanAdvance(Swap(s), st)
    ensures CanAdvance(s, Other(st))
  {
  }

  /** Wherever the request is, something can move. */
  lemma RequestAdvances(s: Duplex, p: Place, q: Place) returns (st: Step)
    requires Open(s) && Alive(s.me) && Alive(s.peer) && Flights(s, p, q) && s.me.writer.AwaitAck?
    ensures CanAdvance(s, st)
  {
    match p {
      case InPipe =>
        st := InputAdvances(Swap(s), q, p);
        OtherAdvances(s, st);
        st := Other(st);
      case AtReader =>
        var a := ReaderAdvances(Swap(s), q, p);
        st := Step(false, a);
      case InResponses =>
        st := Step(false, ResponderTakes);
      case AtResponder =>
        if s.peer.responder.WantReply? && WireFree(s.peer) {
          st := Step(false, ResponderLocks);
        } else {
          st := WireAdvances(Swap(s), q, p);
          OtherAdvances(s, st);
          st := Other(st);
        }
      case ReplyInPipe =>
        st := InputAdvances(s, p, q);
      case ReplyAtReader =>
        var a := ReaderAdvances(s, p, q);
        st := Step(true, a);
      case InAck =>
        st := Step(true, TakeAck);
    }
  }

  lemma WriterAdvances(s: Duplex, p: Place, q: Place) returns (st: Step)
    requires Open(s) && Alive(s.me) && Alive(s.peer) && Flights(s, p, q) && s.me.writer != Idle
    ensures CanAdvance(s, st)
  {
    if s.me.writer.AwaitAck? {
      st := RequestAdvances(s, p, q);
    } else if s.me.writer.WantWire? && WireFree(s.me) {
      st := Step(true, WriterLocks);
    } else {
      st := WireAdvances(s, p, q);
    }
  }

  /**
   No deadlock, for any pipe capacity and with both ends writing: a pending write leaves some
   protocol step enabled.
   */
  lemma DeadlockFree(s: Duplex)
    requires Inv(s) && Open(s) && (s.me.writer != Idle || s.peer.writer != Idle)
    ensures exists st :: CanAdvance(s, st)
  {
    var p, q :| Flights(s, p, q);
    if s.me.writer != Idle {
      var st := WriterAdvances(s, p, q);
    } else {
      var st := WriterAdvances(Swap(s), q, p);
      OtherAdvances(s, st);
    }
  }

  // ---------------------------------------------------------------- closing

  function EndRank(e: End): nat {
    (match e.writer
     case Idle => 0
     case WantWire(_, _) => 3
     case Writing(_, _) => 2
     case AwaitAck(_) => 1)
    + (match e.responder
       case Stopped => 0
       case Waiting => 1
       case WantReply(_) => 3
       case Replying(_) => 2)
    + if e.reader.Exited? then 0 else 1
  }

  /**
   A closed end comes to rest, whatever its peer does: while its writer, its responder or its reader is
   still about, one of them can take a step that leads to its end.
   */
  lemma ClosedComesToRest(s: Duplex) returns (a: Action)
    requires Inv(s) && s.me.done && EndRank(s.me) > 0
    ensures Enabled(s, a) && !a.BeginWrite? && EndRank(Apply(s, a).me) < EndRank(s.me) && Apply(s, a).me.done
  {
    hide Order, Counted, Queued, Alive, Flights, Requests, Replies, Rises;
    if s.me.writer.Writing? {
      a := WriterFails(false);
    } else if s.me.responder.Replying? {
      a := ResponderFails(false);
    } else if s.me.writer.WantWire? {
      a := WriterLocks;
    } else if s.me.writer.AwaitAck? {
      a := WriterAborts;
    } else if s.me.responder.WantReply? {
      a := ResponderLocks;
    } else if s.me.responder == Waiting {
      a := ResponderStops;
    } else {
      a := ReaderStops;
    }
  }

  /** An end can be closed and its connection can break in any state, and a reader that waits then closes its end. */
  lemma MayBreak(s: Duplex)
    ensures Enabled(s, Close) && Apply(s, Close).me.done
    ensures Enabled(s, ConnectionCloses) && Apply(s, ConnectionCloses).me.down
    ensures s.me.reader == Reading ==>
      Enabled(Apply(s, ConnectionCloses), ReaderStops) && Apply(Apply(s, ConnectionCloses), ReaderStops).me.done
  {
  }

  // ---------------------------------------------------------------- termination

  function WriterWork(w: Writer): nat {
    match w
    case WantWire(_, _) => 21
    case Writing(_, _) => 20
    case _ => 0
  }

  function ReaderWork(r: Reader): nat {
    match r
    case Holding(Msg(_, _)) => 17
    case Holding(Ok(_)) => 8
    case Holding(Garbage) => 1
    case Between(_, _) => 1
    case _ => 0
  }

  function ResponderWork(r: Responder): nat {
    match r
    case WantReply(_) => 13
    case Replying(_) => 12
    case _ => 0
  }

  function PipeWork(out: seq<Item>): nat {
    if out == [] then 0
    else (if out[0].Msg? then 19 else if out[0].Ok? then 10 else 2) + PipeWork(out[1..])
  }

  function EndWork(e: End): nat {
    WriterWork(e.writer) + ReaderWork(e.reader) + ResponderWork(e.responder)
    + PipeWork(e.out) + 14 * |e.responses| + 7 * |e.ack|
  }

  /** Protocol steps left before both directions are quiet. */
  function Work(s: Duplex): nat {
    EndWork(s.me) + EndWork(s.peer)
  }

  lemma {:induction false} PipeWorkAppend(out: seq<Item>, x: Item)
    ensures PipeWork(out + [x]) == PipeWork(out) + PipeWork([x])
  {
    if out == [] {
      assert out + [x] == [x];
    } else {
      PipeWorkAppend(out[1..], x);
      assert (out + [x])[1..] == out[1..] + [x] && (out + [x])[0] == out[0];
    }
  }

  lemma PipeWorkOne(x: Item)
    ensures PipeWork([x]) == if x.Msg? then 19 else if x.Ok? then 10 else 2
  {
    assert [x][1..] == [];
  }

  lemma PipeFirst(out: seq<Item>)
    requires out != []
    ensures PipeWork(out) == PipeWork([out[0]]) + PipeWork(out[1..])
  {
    assert [out[0]][1..] == [];
  }

  lemma PutUsesWork(s: Duplex, a: Action)
    requires Enabled(s, a) && (a.WriterPuts? || a.ResponderPuts?)
    ensures Work(Apply(s, a)) < Work(s)
  {
    hide PipeWork;
    var x := if a.WriterPuts? then Msg(s.me.writer.k, s.me.writer.p) else Ok(s.me.responder.k);
    PipeWorkAppend(s.me.out, x);
    PipeWorkOne(x);
  }

  lemma ReadUsesWork(s: Duplex)
    requires Enabled(s, ReadItem)
    ensures Work(Apply(s, ReadItem)) < Work(s)
  {
    hide PipeWork;
    PipeFirst(s.peer.out);
    PipeWorkOne(s.peer.out[0]);
  }

  lemma HandleUsesWork(s: Duplex)
    requires Enabled(s, ReaderHandles)
    ensures Work(Apply(s, ReaderHandles)) < Work(s)
  {
    hide PipeWork;
  }

  lemma OtherUsesWork(s: Duplex, a: Action)
    requires Enabled(s, a) && Protocol(a)
    requires !a.WriterPuts? && !a.ResponderPuts? && !a.ReadItem? && !a.ReaderHandles?
    ensures Work(Apply(s, a)) < Work(s)
  {
    hide PipeWork;
  }

  /** Every step of the protocol, a closing one included. */
  lemma ActionUsesWork(s: Duplex, a: Action)
    requires Enabled(s, a) && Protocol(a)
    ensures Work(Apply(s, a)) < Work(s)
  {
    hide Work, Apply, Enabled;
    if a.WriterPuts? || a.ResponderPuts? {
      PutUsesWork(s, a);
    } else if a.ReadItem? {
      ReadUsesWork(s);
    } else if a.ReaderHandles? {
      HandleUsesWork(s);
    } else {
      OtherUsesWork(s, a);
    }
  }

  predicate AllProtocol(steps: seq<Step>) {
    forall i :: 0 <= i < |steps| ==> Protocol(steps[i].a)
  }

  /** Without new writes the protocol takes at most `Work` steps, whether or not an end closes. */
  lemma {:induction false} RunIsBounded(states: seq<Duplex>, steps: seq<Step>, n: nat)
    requires IsRun(states, steps) && AllProtocol(steps) && n <= |steps|
    ensures n + Work(states[n]) <= Work(states[0])
  {
    if n > 0 {
      RunIsBounded(states, steps, n - 1);
      var s, st := states[n - 1], steps[n - 1];
      assert Can(s, st) && states[n] == Do(s, st) && Protocol(st.a);
      ActionUsesWork(View(s, st.mine), st.a);
    }
  }

  /**
   A run that cannot go on while open has returned every write; and it never closes except on a full
   `rx` or on garbage.
   */
  lemma StuckMeansReturned(s: Duplex)
    requires Inv(s) && Open(s) && forall st :: !CanAdvance(s, st)
    ensures s.me.writer == Idle && s.peer.writer == Idle
  {
    if s.me.writer != Idle || s.peer.writer != Idle {
      DeadlockFree(s);
    }
  }

  lemma ClosesOnlyWhen(s: Duplex, a: Action)
    requires Inv(s) && Open(s) && Enabled(s, a) && Protocol(a) && !Open(Apply(s, a))
    ensures a.ReaderHandles?
    ensures (s.me.reader.Between? && |s.me.rx| == 256) || s.me.reader == Holding(Garbage)
  {
    hide Order, Counted, Orderly, Requests, Replies;
    var p, q :| Flights(s, p, q);
    FaultFree(s.me, s.peer, p, q);
  }
}
