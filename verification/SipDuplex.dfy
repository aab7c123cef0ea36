/**
 Two endpoints of the SIP transport after authentication, as one state machine.

 Each endpoint runs a writer (one `WritePacket` at a time, under `tx`), a reader and
 a responder. They share the `ack`, `responses` and `rx` queues and the `wire` lock.
 An action belongs to the endpoint `me`; `Swap` gives the same actions to the other.
 The pipe to the peer holds at most `capacity` whole messages, and zero is allowed.
 */
module SipDuplex {
  import opened Octets

  const QUEUE: int := 8
  const RX_QUEUE: int := 256

  /** `Garbage` is the unreadable rest of a message whose write stopped half way. */
  datatype Item = Msg(k: nat, p: Bytes) | Ok(k: nat) | Garbage

  datatype Writer = Idle | WantWire(k: nat, p: Bytes) | Writing(k: nat, p: Bytes) | AwaitAck(k: nat)

  /** `Between` is the reader after its enqueue to `responses` and before its enqueue to `rx`. */
  datatype Reader = Reading | Holding(item: Item) | Between(k: nat, p: Bytes) | Exited(lost: bool)

  datatype Responder = Waiting | WantReply(k: nat) | Replying(k: nat) | Stopped

  /**
   `got` are the packets that `ReadPacket` returned. `done` is the closed channel, `down` the
   connection, closed by this end or broken under it. `sent`, `delivered`, `accepted` and `returned`
   record what went onto the wire, into `rx`, into `responses`, and how many writes returned nil.
   */
  datatype End = End(
    writer: Writer, reader: Reader, responder: Responder,
    seqNo: nat, recvSeq: nat,
    out: seq<Item>, ack: seq<nat>, responses: seq<nat>, rx: seq<Bytes>,
    done: bool, down: bool,
    sent: seq<Bytes>, delivered: seq<Bytes>, got: seq<Bytes>, accepted: nat, returned: nat)

  datatype Duplex = Duplex(me: End, peer: End, capacity: nat)

  datatype Action =
    | BeginWrite(p: Bytes) | WriterLocks | WriterPuts | WriterHandsOver | WriterFails(partial: bool)
    | TakeAck | WriterAborts
    | ResponderTakes | ResponderLocks | ResponderPuts | ResponderHandsOver
    | ResponderFails(partial: bool) | ResponderStops
    | ReadItem | ReaderHandles | ReaderStops
    | AppReads | Close | ConnectionCloses | PipeLoses(keep: nat)

  function Swap(s: Duplex): Duplex {
    Duplex(s.peer, s.me, s.capacity)
  }

  /** Neither end is closed and the connection stands. */
  predicate Open(s: Duplex) {
    !s.me.done && !s.peer.done && !s.me.down && !s.peer.down
  }

  predicate WireFree(e: End) {
    !e.writer.Writing? && !e.responder.Replying?
  }

  /** A write finishes into the pipe when there is room, or straight into a waiting reader. */
  predicate Room(s: Duplex) {
    |s.me.out| < s.capacity && !s.me.down
  }

  predicate Meets(s: Duplex) {
    s.me.out == [] && s.peer.reader == Reading && !s.me.down && !s.peer.down
  }

  predicate Enabled(s: Duplex, a: Action) {
    var me, peer := s.me, s.peer;
    match a
    case BeginWrite(p) => me.writer == Idle
    case WriterLocks => me.writer.WantWire? && WireFree(me)
    case WriterPuts => me.writer.Writing? && Room(s)
    case WriterHandsOver => me.writer.Writing? && Meets(s)
    case WriterFails(_) => me.writer.Writing?
    case TakeAck => me.writer.AwaitAck? && me.ack != []
    case WriterAborts => me.writer.AwaitAck? && me.done
    case ResponderTakes => me.responder == Waiting && me.responses != []
    case ResponderLocks => me.responder.WantReply? && WireFree(me)
    case ResponderPuts => me.responder.Replying? && Room(s)
    case ResponderHandsOver => me.responder.Replying? && Meets(s)
    case ResponderFails(_) => me.responder.Replying?
    case ResponderStops => me.responder == Waiting && me.done
    case ReadItem => me.reader == Reading && peer.out != [] && !me.down
    case ReaderHandles => me.reader.Between? || (me.reader.Holding? && (me.reader.item.Ok? ==> |me.ack| < QUEUE))
    case ReaderStops => !me.reader.Exited? &&
      (me.done || (me.reader == Reading && (me.down || (peer.down && peer.out == []))))
    case AppReads => me.rx != []
    case Close => true
    case ConnectionCloses => true
    case PipeLoses(keep) => (me.down || peer.down) && keep <= |me.out|
  }

  /** The reader returns, and its deferred call closes the endpoint. */
  function StopReading(e: End): End {
    e.(reader := Exited(e.reader.Between? || (e.reader.Exited? && e.reader.lost)), done := true)
  }

  predicate Stale(e: End) {
    e.reader.Holding? && e.reader.item.Msg? && e.reader.item.k <= e.recvSeq
  }

  predicate Overflows(e: End) {
    e.reader.Holding? && e.reader.item.Msg? && e.recvSeq < e.reader.item.k && |e.responses| >= QUEUE
  }

  function Handle(e: End): End
    requires e.reader.Between? || e.reader.Holding?
  {
    match e.reader
    case Between(k, p) =>
      if |e.rx| < RX_QUEUE then e.(rx := e.rx + [p], delivered := e.delivered + [p], reader := Reading)
      else StopReading(e)
    case Holding(Ok(k)) => e.(ack := e.ack + [k], reader := Reading)
    case Holding(Msg(k, p)) =>
      if k <= e.recvSeq || |e.responses| >= QUEUE then StopReading(e)
      else e.(recvSeq := k, responses := e.responses + [k], accepted := e.accepted + 1, reader := Between(k, p))
    case Holding(Garbage) => StopReading(e)
  }

  function Apply(s: Duplex, a: Action): Duplex
    requires Enabled(s, a)
  {
    var me, peer := s.me, s.peer;
    match a
    case BeginWrite(p) => s.(me := me.(writer := WantWire(me.seqNo + 1, p), seqNo := me.seqNo + 1))
    case WriterLocks => s.(me := me.(writer := Writing(me.writer.k, me.writer.p)))
    case WriterPuts =>
      s.(me := me.(writer := AwaitAck(me.writer.k), out := me.out + [Msg(me.writer.k, me.writer.p)],
                   sent := me.sent + [me.writer.p]))
    case WriterHandsOver =>
      s.(me := me.(writer := AwaitAck(me.writer.k), sent := me.sent + [me.writer.p]),
         peer := peer.(reader := Holding(Msg(me.writer.k, me.writer.p))))
    case WriterFails(partial) => s.(me := me.(writer := Idle, out := if partial then me.out + [Garbage] else me.out))
    case TakeAck =>
      s.(me := me.(writer := Idle, ack := me.ack[1..],
                   returned := me.returned + if me.ack[0] == me.writer.k then 1 else 0))
    case WriterAborts => s.(me := me.(writer := Idle))
    case ResponderTakes => s.(me := me.(responder := WantReply(me.responses[0]), responses := me.responses[1..]))
    case ResponderLocks => s.(me := me.(responder := Replying(me.responder.k)))
    case ResponderPuts => s.(me := me.(responder := Waiting, out := me.out + [Ok(me.responder.k)]))
    case ResponderHandsOver =>
      s.(me := me.(responder := Waiting), peer := peer.(reader := Holding(Ok(me.responder.k))))
    case ResponderFails(partial) =>
      s.(me := me.(responder := Stopped, done := true, out := if partial then me.out + [Garbage] else me.out))
    case ResponderStops => s.(me := me.(responder := Stopped))
    case ReadItem => s.(me := me.(reader := Holding(peer.out[0])), peer := peer.(out := peer.out[1..]))
    case ReaderHandles => s.(me := Handle(me))
    case ReaderStops => s.(me := StopReading(me))
    case AppReads => s.(me := me.(rx := me.rx[1..], got := me.got + [me.rx[0]]))
    case Close => s.(me := me.(done := true))
    case ConnectionCloses => s.(me := me.(down := true))
    case PipeLoses(keep) => s.(me := me.(out := me.out[..keep]))
  }

  // ---------------------------------------------------------------- what a pipe holds

  function One(b: bool): nat {
    if b then 1 else 0
  }

  function Requests(out: seq<Item>): seq<nat> {
    if out == [] then [] else (if out[0].Msg? then [out[0].k] else []) + Requests(out[1..])
  }

  function Replies(out: seq<Item>): seq<nat> {
    if out == [] then [] else (if out[0].Ok? then [out[0].k] else []) + Replies(out[1..])
  }

  function Payloads(out: seq<Item>): seq<Bytes> {
    if out == [] then [] else (if out[0].Msg? then [out[0].p] else []) + Payloads(out[1..])
  }

  lemma {:induction false} RequestsConcat(a: seq<Item>, b: seq<Item>)
    ensures Requests(a + b) == Requests(a) + Requests(b)
  {
    if a == [] {
      assert a + b == b;
    } else {
      RequestsConcat(a[1..], b);
      assert (a + b)[1..] == a[1..] + b && (a + b)[0] == a[0];
      assert Requests(a + b) == (if a[0].Msg? then [a[0].k] else []) + Requests(a[1..] + b);
    }
  }

  lemma {:induction false} RepliesConcat(a: seq<Item>, b: seq<Item>)
    ensures Replies(a + b) == Replies(a) + Replies(b)
  {
    if a == [] {
      assert a + b == b;
    } else {
      RepliesConcat(a[1..], b);
      assert (a + b)[1..] == a[1..] + b && (a + b)[0] == a[0];
      assert Replies(a + b) == (if a[0].Ok? then [a[0].k] else []) + Replies(a[1..] + b);
    }
  }

  lemma {:induction false} PayloadsConcat(a: seq<Item>, b: seq<Item>)
    ensures Payloads(a + b) == Payloads(a) + Payloads(b)
  {
    if a == [] {
      assert a + b == b;
    } else {
      PayloadsConcat(a[1..], b);
      assert (a + b)[1..] == a[1..] + b && (a + b)[0] == a[0];
      assert Payloads(a + b) == (if a[0].Msg? then [a[0].p] else []) + Payloads(a[1..] + b);
    }
  }

  lemma PipeAppend(out: seq<Item>, x: Item)
    ensures Requests(out + [x]) == Requests(out) + (if x.Msg? then [x.k] else [])
    ensures Replies(out + [x]) == Replies(out) + (if x.Ok? then [x.k] else [])
    ensures Payloads(out + [x]) == Payloads(out) + (if x.Msg? then [x.p] else [])
  {
    RequestsConcat(out, [x]);
    RepliesConcat(out, [x]);
    PayloadsConcat(out, [x]);
    assert [x][1..] == [];
  }

  lemma PipeHead(out: seq<Item>)
    requires out != []
    ensures |Replies(out)| == One(out[0].Ok?) + |Replies(out[1..])|
  {
  }

  lemma PipePrefix(out: seq<Item>, keep: nat)
    requires keep <= |out|
    ensures Payloads(out[..keep]) <= Payloads(out)
    ensures |Replies(out[..keep])| <= |Replies(out)|
  {
    RepliesConcat(out[..keep], out[keep..]);
    PayloadsConcat(out[..keep], out[keep..]);
    assert out == out[..keep] + out[keep..];
  }

  // ---------------------------------------------------------------- order

  function InHand(r: Reader): seq<Bytes> {
    match r
    case Between(_, p) => [p]
    case Holding(Msg(_, p)) => [p]
    case _ => []
  }

  /** Packets from `a` to `b`: what `b` delivered, has in hand and will read is what `a` sent, in order. */
  ghost predicate Order(a: End, b: End) {
    && b.delivered <= a.sent
    && (!b.reader.Exited? ==> b.delivered + InHand(b.reader) <= a.sent)
    && (!b.reader.Exited? && !b.down ==> b.delivered + InHand(b.reader) + Payloads(a.out) <= a.sent)
    && (!b.reader.Exited? && !b.down && !a.down ==> b.delivered + InHand(b.reader) + Payloads(a.out) == a.sent)
  }

  lemma OrderAppend(a: End, b: End, x: Item)
    requires Order(a, b)
    ensures x.Msg? && !a.down ==> Order(a.(out := a.out + [x], sent := a.sent + [x.p]), b)
    ensures !x.Msg? ==> Order(a.(out := a.out + [x]), b)
  {
    PipeAppend(a.out, x);
    var front := b.delivered + InHand(b.reader);
    if x.Msg? {
      assert front + Payloads(a.out + [x]) == (front + Payloads(a.out)) + [x.p];
    }
  }

  lemma OrderLoses(a: End, b: End, keep: nat)
    requires Order(a, b) && (a.down || b.down) && keep <= |a.out|
    ensures Order(a.(out := a.out[..keep]), b)
  {
    PipePrefix(a.out, keep);
    var front := b.delivered + InHand(b.reader);
    assert front + Payloads(a.out[..keep]) <= front + Payloads(a.out);
  }

  /** Puts something into the pipe, or takes it out. */
  predicate FillsPipe(a: Action) {
    a.WriterPuts? || a.WriterFails? || a.ResponderPuts? || a.ResponderFails? || a.PipeLoses?
  }

  predicate HandsOver(a: Action) {
    a.WriterHandsOver? || a.ResponderHandsOver?
  }

  predicate Reads(a: Action) {
    a.ReadItem? || a.ReaderHandles? || a.ReaderStops?
  }

  lemma OrderOutPipe(s: Duplex, a: Action)
    requires Enabled(s, a) && Order(s.me, s.peer) && FillsPipe(a)
    ensures Order(Apply(s, a).me, Apply(s, a).peer)
  {
    var me, peer := s.me, s.peer;
    match a
    case WriterPuts => OrderAppend(me, peer, Msg(me.writer.k, me.writer.p));
    case WriterFails(_) => OrderAppend(me, peer, Garbage);
    case ResponderFails(_) => OrderAppend(me, peer, Garbage);
    case ResponderPuts => OrderAppend(me, peer, Ok(me.responder.k));
    case PipeLoses(keep) => OrderLoses(me, peer, keep);
  }

  lemma OrderOutHands(s: Duplex, a: Action)
    requires Enabled(s, a) && Order(s.me, s.peer) && HandsOver(a)
    ensures Order(Apply(s, a).me, Apply(s, a).peer)
  {
  }

  lemma OrderOutRest(s: Duplex, a: Action)
    requires Enabled(s, a) && Order(s.me, s.peer) && !FillsPipe(a) && !HandsOver(a)
    ensures Order(Apply(s, a).me, Apply(s, a).peer)
  {
    hide Payloads;
    var me, me' := s.me, Apply(s, a).me;
    assert me'.sent == me.sent && me'.out == me.out && (me.down ==> me'.down);
  }

  lemma OrderOut(s: Duplex, a: Action)
    requires Enabled(s, a) && Order(s.me, s.peer)
    ensures Order(Apply(s, a).me, Apply(s, a).peer)
  {
    hide Order, Enabled, Apply;
    if FillsPipe(a) {
      OrderOutPipe(s, a);
    } else if HandsOver(a) {
      OrderOutHands(s, a);
    } else {
      OrderOutRest(s, a);
    }
  }

  lemma OrderInItem(s: Duplex)
    requires Enabled(s, ReadItem) && Order(s.peer, s.me)
    ensures Order(Apply(s, ReadItem).peer, Apply(s, ReadItem).me)
  {
    var me, out := s.me, s.peer.out;
    assert Payloads(out) == (if out[0].Msg? then [out[0].p] else []) + Payloads(out[1..]);
    hide Payloads;
    assert me.delivered + InHand(me.reader) + Payloads(out)
      == me.delivered + InHand(Holding(out[0])) + Payloads(out[1..]);
  }

  lemma OrderInReads(s: Duplex, a: Action)
    requires Enabled(s, a) && Order(s.peer, s.me) && Reads(a)
    ensures Order(Apply(s, a).peer, Apply(s, a).me)
  {
    if a.ReadItem? {
      OrderInItem(s);
    } else {
      hide Payloads;
    }
  }

  lemma OrderInRest(s: Duplex, a: Action)
    requires Enabled(s, a) && Order(s.peer, s.me) && !Reads(a)
    ensures Order(Apply(s, a).peer, Apply(s, a).me)
  {
    hide Payloads;
    var me, me', peer, peer' := s.me, Apply(s, a).me, s.peer, Apply(s, a).peer;
    assert me'.delivered == me.delivered && me'.reader == me.reader && (me.down ==> me'.down);
    assert peer'.sent == peer.sent && peer'.out == peer.out && peer'.down == peer.down;
  }

  lemma OrderIn(s: Duplex, a: Action)
    requires Enabled(s, a) && Order(s.peer, s.me)
    ensures Order(Apply(s, a).peer, Apply(s, a).me)
  {
    hide Order, Enabled, Apply;
    if Reads(a) {
      OrderInReads(s, a);
    } else {
      OrderInRest(s, a);
    }
  }

  // ---------------------------------------------------------------- counting

  /** Every acknowledged or still unacknowledged acceptance at `b` of a request of `a`. */
  function Acknowledging(a: End, b: End): nat {
    |b.responses| + One(b.responder.WantReply? || b.responder.Replying?) + |Replies(b.out)|
    + One(a.reader.Holding? && a.reader.item.Ok?) + |a.ack|
  }

  ghost predicate Counted(a: End, b: End) {
    && |b.delivered| + One(b.reader.Between?) + One(b.reader.Exited? && b.reader.lost) == b.accepted
    && a.returned + Acknowledging(a, b) <= b.accepted
  }

  lemma CountedOutReads(s: Duplex, a: Action)
    requires Enabled(s, a) && Counted(s.me, s.peer) && (Reads(a) || HandsOver(a) || a.TakeAck?)
    ensures Counted(Apply(s, a).me, Apply(s, a).peer)
  {
    if a.ReadItem? {
      PipeHead(s.peer.out);
    }
    hide Replies;
  }

  lemma CountedOutRest(s: Duplex, a: Action)
    requires Enabled(s, a) && Counted(s.me, s.peer) && !Reads(a) && !HandsOver(a) && !a.TakeAck?
    ensures Counted(Apply(s, a).me, Apply(s, a).peer)
  {
    var me, me' := s.me, Apply(s, a).me;
    assert Apply(s, a).peer == s.peer && me'.reader == me.reader && me'.ack == me.ack && me'.returned == me.returned;
  }

  lemma CountedOut(s: Duplex, a: Action)
    requires Enabled(s, a) && Counted(s.me, s.peer)
    ensures Counted(Apply(s, a).me, Apply(s, a).peer)
  {
    hide Counted, Enabled, Apply;
    if Reads(a) || HandsOver(a) || a.TakeAck? {
      CountedOutReads(s, a);
    } else {
      CountedOutRest(s, a);
    }
  }

  lemma CountedInPipe(s: Duplex, a: Action)
    requires Enabled(s, a) && Counted(s.peer, s.me) && FillsPipe(a)
    ensures Counted(Apply(s, a).peer, Apply(s, a).me)
  {
    var me := s.me;
    match a
    case WriterPuts => PipeAppend(me.out, Msg(me.writer.k, me.writer.p));
    case WriterFails(_) => PipeAppend(me.out, Garbage);
    case ResponderFails(_) => PipeAppend(me.out, Garbage);
    case ResponderPuts => PipeAppend(me.out, Ok(me.responder.k));
    case PipeLoses(keep) => PipePrefix(me.out, keep);
  }

  lemma CountedInReads(s: Duplex, a: Action)
    requires Enabled(s, a) && Counted(s.peer, s.me) && (Reads(a) || HandsOver(a))
    ensures Counted(Apply(s, a).peer, Apply(s, a).me)
  {
    hide Replies;
    if a.ReaderHandles? {
      CountedHandle(s.peer, s.me);
    }
  }

  lemma CountedInRest(s: Duplex, a: Action)
    requires Enabled(s, a) && Counted(s.peer, s.me) && !FillsPipe(a) && !Reads(a) && !HandsOver(a)
    ensures Counted(Apply(s, a).peer, Apply(s, a).me)
  {
    var me, me' := s.me, Apply(s, a).me;
    assert Apply(s, a).peer == s.peer && me'.reader == me.reader && me'.out == me.out;
    assert me'.delivered == me.delivered && me'.accepted == me.accepted;
  }

  lemma CountedIn(s: Duplex, a: Action)
    requires Enabled(s, a) && Counted(s.peer, s.me)
    ensures Counted(Apply(s, a).peer, Apply(s, a).me)
  {
    hide Counted, Enabled, Apply;
    if FillsPipe(a) {
      CountedInPipe(s, a);
    } else if Reads(a) || HandsOver(a) {
      CountedInReads(s, a);
    } else {
      CountedInRest(s, a);
    }
  }

  lemma CountedHandle(a: End, b: End)
    requires (b.reader.Between? || b.reader.Holding?) && Counted(a, b)
    ensures Counted(a, Handle(b))
  {
    hide Replies;
  }

  // ---------------------------------------------------------------- conservation

  /** The one place that holds a request of `a` between its write and its acknowledgement. */
  datatype Place = Nowhere | InPipe | AtReader | InResponses | AtResponder | ReplyInPipe | ReplyAtReader | InAck

  function At(here: bool, k: nat): seq<nat> {
    if here then [k] else []
  }

  function HeldRequest(r: Reader): seq<nat> {
    if r.Holding? && r.item.Msg? then [r.item.k] else []
  }

  function HeldReply(r: Reader): seq<nat> {
    if r.Holding? && r.item.Ok? then [r.item.k] else []
  }

  function AtDesk(r: Responder): seq<nat> {
    if r.WantReply? || r.Replying? then [r.k] else []
  }

  /** Each place holds request `k` or nothing, and exactly `place` holds it. */
  ghost predicate FlightAt(a: End, b: End, k: nat, place: Place) {
    && Requests(a.out) == At(place == InPipe, k)
    && HeldRequest(b.reader) == At(place == AtReader, k)
    && b.responses == At(place == InResponses, k)
    && AtDesk(b.responder) == At(place == AtResponder, k)
    && Replies(b.out) == At(place == ReplyInPipe, k)
    && HeldReply(a.reader) == At(place == ReplyAtReader, k)
    && a.ack == At(place == InAck, k)
    && b.recvSeq <= a.seqNo
    && (a.writer.AwaitAck? <==> place != Nowhere)
    && (a.writer.AwaitAck? ==> a.writer.k == k == a.seqNo)
    && (place.InPipe? || place.AtReader? ==> b.recvSeq < k)
    && (a.writer.WantWire? || a.writer.Writing? ==> b.recvSeq < a.writer.k == a.seqNo)
  }

  /** An endpoint that is not closed still has its reader and its responder. */
  predicate Alive(e: End) {
    !e.done ==> !e.reader.Exited? && e.responder != Stopped
  }

  lemma AppendFlight(out: seq<Item>, x: Item)
    ensures !x.Msg? ==> Requests(out + [x]) == Requests(out)
    ensures !x.Ok? ==> Replies(out + [x]) == Replies(out)
    ensures x.Msg? && Requests(out) == [] ==> Requests(out + [x]) == [x.k]
    ensures x.Ok? && Replies(out) == [] ==> Replies(out + [x]) == [x.k]
  {
    PipeAppend(out, x);
  }

  lemma HeadFlight(out: seq<Item>, k: nat, requests: bool, j: nat, replies: bool)
    requires out != [] && Requests(out) == At(requests, k) && Replies(out) == At(replies, j)
    ensures out[0].Msg? ==> requests && out[0].k == k && Requests(out[1..]) == [] && Replies(out[1..]) == At(replies, j)
    ensures out[0].Ok? ==> replies && out[0].k == j && Replies(out[1..]) == [] && Requests(out[1..]) == At(requests, k)
    ensures out[0].Garbage? ==> Requests(out[1..]) == At(requests, k) && Replies(out[1..]) == At(replies, j)
  {
    var r, a := Requests(out[1..]), Replies(out[1..]);
    assert Requests(out) == (if out[0].Msg? then [out[0].k] else []) + r;
    assert Replies(out) == (if out[0].Ok? then [out[0].k] else []) + a;
    assert |Requests(out)| == One(out[0].Msg?) + |r| && |Replies(out)| == One(out[0].Ok?) + |a|;
    assert [] + r == r && [] + a == a;
    if out[0].Msg? {
      assert Requests(out)[0] == out[0].k;
    }
    if out[0].Ok? {
      assert Replies(out)[0] == out[0].k;
    }
  }

  ghost predicate Flights(s: Duplex, p: Place, q: Place) {
    FlightAt(s.me, s.peer, s.me.seqNo, p) && FlightAt(s.peer, s.me, s.peer.seqNo, q)
  }

  lemma FlightsWriterPuts(s: Duplex, p: Place, q: Place)
    requires Enabled(s, WriterPuts) && Open(Apply(s, WriterPuts)) && Flights(s, p, q)
    ensures Flights(Apply(s, WriterPuts), InPipe, q)
  {
    hide Requests, Replies;
    AppendFlight(s.me.out, Msg(s.me.writer.k, s.me.writer.p));
  }

  lemma FlightsWriterHandsOver(s: Duplex, p: Place, q: Place)
    requires Enabled(s, WriterHandsOver) && Open(Apply(s, WriterHandsOver)) && Flights(s, p, q)
    ensures Flights(Apply(s, WriterHandsOver), AtReader, q)
  {
  }

  lemma FlightsWriterFails(s: Duplex, partial: bool, p: Place, q: Place)
    requires Enabled(s, WriterFails(partial)) && Open(s) && Flights(s, p, q)
    ensures Flights(Apply(s, WriterFails(partial)), Nowhere, q)
  {
    hide Requests, Replies;
    AppendFlight(s.me.out, Garbage);
  }

  lemma FlightsTakeAck(s: Duplex, p: Place, q: Place)
    requires Enabled(s, TakeAck) && Open(Apply(s, TakeAck)) && Flights(s, p, q)
    ensures Flights(Apply(s, TakeAck), Nowhere, q)
  {
  }

  lemma FlightsResponderTakes(s: Duplex, p: Place, q: Place)
    requires Enabled(s, ResponderTakes) && Open(Apply(s, ResponderTakes)) && Flights(s, p, q)
    ensures Flights(Apply(s, ResponderTakes), p, AtResponder)
  {
  }

  lemma FlightsResponderPuts(s: Duplex, p: Place, q: Place)
    requires Enabled(s, ResponderPuts) && Open(Apply(s, ResponderPuts)) && Flights(s, p, q)
    ensures Flights(Apply(s, ResponderPuts), p, ReplyInPipe)
  {
    hide Requests, Replies;
    AppendFlight(s.me.out, Ok(s.me.responder.k));
  }

  lemma FlightsResponderHandsOver(s: Duplex, p: Place, q: Place)
    requires Enabled(s, ResponderHandsOver) && Open(Apply(s, ResponderHandsOver)) && Flights(s, p, q)
    ensures Flights(Apply(s, ResponderHandsOver), p, ReplyAtReader)
  {
  }

  lemma FlightsReadItem(s: Duplex, p: Place, q: Place)
    requires Enabled(s, ReadItem) && Open(Apply(s, ReadItem)) && Flights(s, p, q)
    ensures Flights(Apply(s, ReadItem), if s.peer.out[0].Ok? then ReplyAtReader else p,
        if s.peer.out[0].Msg? then AtReader else q)
  {
    HeadFlight(s.peer.out, s.peer.seqNo, q == InPipe, s.me.seqNo, p == ReplyInPipe);
  }

  /** The reader of `b` turns an accepted request over to the responder. */
  lemma RequestHandled(a: End, b: End, place: Place)
    requires (b.reader.Between? || b.reader.Holding?) && FlightAt(a, b, a.seqNo, place) && !Handle(b).done
    ensures FlightAt(a, Handle(b), a.seqNo, if place == AtReader then InResponses else place)
  {
  }

  /** The reader of `a` turns a reply over to the writer. */
  lemma ReplyHandled(a: End, b: End, place: Place)
    requires (a.reader.Between? || a.reader.Holding?) && FlightAt(a, b, a.seqNo, place) && !Handle(a).done
    ensures FlightAt(Handle(a), b, a.seqNo, if place == ReplyAtReader then InAck else place)
  {
    if a.reader.Holding? && a.reader.item.Ok? {
      assert HeldReply(a.reader) == [a.reader.item.k];
      assert place == ReplyAtReader && a.ack == [];
      assert [] + [a.seqNo] == [a.seqNo];
      assert Handle(a) == a.(ack := [a.seqNo], reader := Reading);
    } else {
      assert HeldReply(a.reader) == [] && place != ReplyAtReader;
      assert HeldReply(Handle(a).reader) == [] && Handle(a).ack == a.ack;
    }
  }

  lemma FlightsReaderHandles(s: Duplex, p: Place, q: Place)
    requires Enabled(s, ReaderHandles) && Open(Apply(s, ReaderHandles)) && Flights(s, p, q)
    ensures Flights(Apply(s, ReaderHandles), if p == ReplyAtReader then InAck else p,
        if q == AtReader then InResponses else q)
  {
    ReplyHandled(s.me, s.peer, p);
    RequestHandled(s.peer, s.me, q);
  }

  lemma FlightsBeginWrite(s: Duplex, b: Bytes, p: Place, q: Place)
    requires Enabled(s, BeginWrite(b)) && Open(s) && Flights(s, p, q)
    ensures Flights(Apply(s, BeginWrite(b)), Nowhere, q)
  {
  }

  /** The remaining actions move no request. */
  lemma FlightsOther(s: Duplex, a: Action, p: Place, q: Place)
    requires Enabled(s, a) && Alive(s.me) && Alive(s.peer) && Open(Apply(s, a)) && Flights(s, p, q)
    requires a.WriterLocks? || a.ResponderLocks? || a.AppReads? || a.Close? || a.ConnectionCloses? || a.PipeLoses?
      || a.WriterAborts? || a.ResponderStops? || a.ReaderStops? || a.ResponderFails?
    ensures Flights(Apply(s, a), p, q)
  {
  }

  lemma ActionKeepsAlive(s: Duplex, a: Action)
    requires Enabled(s, a) && Alive(s.me) && Alive(s.peer)
    ensures Alive(Apply(s, a).me) && Alive(Apply(s, a).peer)
    ensures Open(Apply(s, a)) ==> Open(s)
  {
  }

  lemma ActionKeepsFlights(s: Duplex, a: Action, p: Place, q: Place) returns (p': Place, q': Place)
    requires Enabled(s, a) && Alive(s.me) && Alive(s.peer) && Open(Apply(s, a)) && Flights(s, p, q)
    ensures Flights(Apply(s, a), p', q')
  {
    ActionKeepsAlive(s, a);
    hide Flights, Apply, Alive;
    match a
    case BeginWrite(b) => FlightsBeginWrite(s, b, p, q); p', q' := Nowhere, q;
    case WriterPuts => FlightsWriterPuts(s, p, q); p', q' := InPipe, q;
    case WriterHandsOver => FlightsWriterHandsOver(s, p, q); p', q' := AtReader, q;
    case WriterFails(partial) => FlightsWriterFails(s, partial, p, q); p', q' := Nowhere, q;
    case TakeAck => FlightsTakeAck(s, p, q); p', q' := Nowhere, q;
    case ResponderTakes => FlightsResponderTakes(s, p, q); p', q' := p, AtResponder;
    case ResponderPuts => FlightsResponderPuts(s, p, q); p', q' := p, ReplyInPipe;
    case ResponderHandsOver => FlightsResponderHandsOver(s, p, q); p', q' := p, ReplyAtReader;
    case ReadItem =>
      FlightsReadItem(s, p, q);
      p', q' := if s.peer.out[0].Ok? then ReplyAtReader else p, if s.peer.out[0].Msg? then AtReader else q;
    case ReaderHandles =>
      FlightsReaderHandles(s, p, q);
      p', q' := if p == ReplyAtReader then InAck else p, if q == AtReader then InResponses else q;
    case _ => FlightsOther(s, a, p, q); p', q' := p, q;
  }

  /** The numbers of the requests that are still to be answered, the one at the responder first. */
  function ToAnswer(e: End): seq<nat> {
    AtDesk(e.responder) + e.responses
  }

  predicate Rises(q: seq<nat>, top: nat) {
    && (forall i, j :: 0 <= i < j < |q| ==> q[i] < q[j])
    && (forall i :: 0 <= i < |q| ==> q[i] <= top)
  }

  /** They rise, and none is beyond the last one accepted; and only one of writer and responder has the wire. */
  predicate Orderly(e: End) {
    Rises(ToAnswer(e), e.recvSeq) && !(e.writer.Writing? && e.responder.Replying?)
  }

  lemma RisesOn(q: seq<nat>, k: nat, top: nat)
    requires Rises(q, top)
    ensures top < k ==> Rises(q + [k], k)
    ensures q != [] ==> Rises(q[1..], top)
  {
  }

  lemma QueueTaken(e: End)
    requires e.responder == Waiting && e.responses != []
    ensures ToAnswer(e.(responder := WantReply(e.responses[0]), responses := e.responses[1..])) == ToAnswer(e)
  {
    assert [e.responses[0]] + e.responses[1..] == e.responses;
  }

  lemma QueueAnswered(e: End)
    requires e.responder.Replying?
    ensures ToAnswer(e) != [] && ToAnswer(e)[1..] == e.responses
  {
  }

  lemma HandleKeepsOrderly(e: End)
    requires (e.reader.Between? || e.reader.Holding?) && Orderly(e)
    ensures Orderly(Handle(e))
  {
    hide Rises;
    var f := Handle(e);
    if f.responses != e.responses {
      assert ToAnswer(f) == ToAnswer(e) + [e.reader.item.k];
      RisesOn(ToAnswer(e), e.reader.item.k, e.recvSeq);
    }
  }

  /** An answer leaves the desk. */
  predicate Answers(a: Action) {
    a.ResponderPuts? || a.ResponderHandsOver? || a.ResponderFails?
  }

  lemma AnswerKeepsOrderly(s: Duplex, a: Action)
    requires Enabled(s, a) && Orderly(s.me) && Answers(a)
    ensures Orderly(Apply(s, a).me)
  {
    hide Rises;
    QueueAnswered(s.me);
    RisesOn(ToAnswer(s.me), 0, s.me.recvSeq);
    assert [] + s.me.responses == s.me.responses;
  }

  lemma RestKeepsOrderly(s: Duplex, a: Action)
    requires Enabled(s, a) && Orderly(s.me) && !Answers(a) && !a.ReaderHandles?
    ensures Orderly(Apply(s, a).me)
  {
    hide Rises;
    if a.ResponderTakes? {
      QueueTaken(s.me);
    }
  }

  lemma PeerKeepsOrderly(s: Duplex, a: Action)
    requires Enabled(s, a) && Orderly(s.peer)
    ensures Orderly(Apply(s, a).peer)
  {
    hide Rises;
  }

  lemma ActionKeepsOrderly(s: Duplex, a: Action)
    requires Enabled(s, a) && Orderly(s.me) && Orderly(s.peer)
    ensures Orderly(Apply(s, a).me) && Orderly(Apply(s, a).peer)
  {
    hide Orderly;
    PeerKeepsOrderly(s, a);
    if a.ReaderHandles? {
      HandleKeepsOrderly(s.me);
    } else if Answers(a) {
      AnswerKeepsOrderly(s, a);
    } else {
      RestKeepsOrderly(s, a);
    }
  }

  /** What the reader does with what it has read: the limits, and the order of numbers. */
  lemma HandledIff(s: Duplex, e: End, k: nat, p: Bytes)
    requires s.me == e
    ensures e.reader == Holding(Msg(k, p)) ==>
      if e.recvSeq < k && |e.responses| < 8
      then Handle(e) == e.(recvSeq := k, responses := e.responses + [k], accepted := e.accepted + 1,
                           reader := Between(k, p))
      else Handle(e) == e.(reader := Exited(false), done := true)
    ensures e.reader == Between(k, p) ==>
      if |e.rx| < 256 then Handle(e) == e.(rx := e.rx + [p], delivered := e.delivered + [p], reader := Reading)
      else Handle(e) == e.(reader := Exited(true), done := true)
    ensures e.reader == Holding(Ok(k)) ==> Handle(e) == e.(ack := e.ack + [k], reader := Reading)
    ensures e.reader == Holding(Ok(k)) ==> (Enabled(s, ReaderHandles) <==> |e.ack| < 8)
    ensures e.reader == Holding(Garbage) ==> Handle(e) == e.(reader := Exited(false), done := true)
  {
  }

  /** What was delivered was read by the application, in order, or waits in `rx`; and no queue exceeds its size. */
  predicate Queued(e: End) {
    && e.got + e.rx == e.delivered
    && |e.ack| <= 8 && |e.responses| <= 8 && |e.rx| <= 256
  }

  lemma ActionKeepsQueues(s: Duplex, a: Action)
    requires Enabled(s, a) && Queued(s.me) && Queued(s.peer)
    ensures Queued(Apply(s, a).me) && Queued(Apply(s, a).peer)
  {
    if a.AppReads? {
      ReadKeepsQueues(s.me);
    } else if a.ReaderHandles? {
      HandleKeepsQueues(s.me, s);
    } else {
      var me, me' := s.me, Apply(s, a).me;
      assert me'.got == me.got && me'.rx == me.rx && me'.delivered == me.delivered;
      assert |me'.ack| <= |me.ack| && |me'.responses| <= |me.responses|;
    }
  }

  lemma ReadKeepsQueues(e: End)
    requires Queued(e) && e.rx != []
    ensures Queued(e.(rx := e.rx[1..], got := e.got + [e.rx[0]]))
  {
    assert (e.got + [e.rx[0]]) + e.rx[1..] == e.got + e.rx;
  }

  lemma HandleKeepsQueues(e: End, s: Duplex)
    requires Queued(e) && s.me == e && Enabled(s, ReaderHandles)
    ensures Queued(Handle(e))
  {
    if e.reader.Between? {
      assert e.got + (e.rx + [e.reader.p]) == (e.got + e.rx) + [e.reader.p];
    }
  }

  ghost predicate Inv(s: Duplex) {
    && Order(s.me, s.peer) && Order(s.peer, s.me)
    && Counted(s.me, s.peer) && Counted(s.peer, s.me)
    && Alive(s.me) && Alive(s.peer) && Queued(s.me) && Queued(s.peer) && Orderly(s.me) && Orderly(s.peer)
    && (Open(s) ==> exists p, q :: Flights(s, p, q))
  }

  lemma ActionKeepsInv(s: Duplex, a: Action)
    requires Inv(s) && Enabled(s, a)
    ensures Inv(Apply(s, a))
  {
    hide Apply, Enabled, Order, Counted, Alive, Queued, Orderly, Flights, FlightAt;
    ActionKeepsQueues(s, a);
    ActionKeepsOrderly(s, a);
    OrderOut(s, a);
    OrderIn(s, a);
    CountedOut(s, a);
    CountedIn(s, a);
    ActionKeepsAlive(s, a);
    if Open(Apply(s, a)) {
      var p, q :| Flights(s, p, q);
      var p', q' := ActionKeepsFlights(s, a, p, q);
    }
  }
}
