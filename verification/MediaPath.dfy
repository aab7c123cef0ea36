/**
 Both ends of the media path: the packet counters of the sender, and the loop that
 feeds received payloads to an assembler and a bounded queue.
 */
module MediaPath {
  import opened Octets
  import opened Fragments
  import opened FragmentRuns

  /** "TL00" */
  const KEEPALIVE: Bytes := [0x54, 0x4C, 0x30, 0x30]

  // ---------------------------------------------------------------- sending

  datatype Rtp = Rtp(number: int, marker: bool, payload: Bytes)

  /** The counter's 16 bits. */
  function Wrap(n: int): int {
    n % 0x1_0000
  }

  lemma WrapIs()
    ensures forall n :: Wrap(n) == n % 65536
  {
  }

  lemma WrapsOnce(n: int, k: int)
    ensures Wrap(Wrap(n) + k) == Wrap(n + k)
  {
  }

  /** The media packets for `parts`, numbered on from `seqNo` with 16-bit wrap-around. */
  function Numbered(seqNo: int, parts: seq<Bytes>, from: nat): seq<Rtp>
    requires from <= |parts|
    decreases |parts| - from
  {
    if from == |parts| then []
    else [Rtp(Wrap(seqNo + 1), from == |parts| - 1, parts[from])] + Numbered(Wrap(seqNo + 1), parts, from + 1)
  }

  lemma {:induction false} NumberedAt(seqNo: int, parts: seq<Bytes>, from: nat, k: nat)
    requires from + k < |parts|
    ensures |Numbered(seqNo, parts, from)| == |parts| - from
    ensures Numbered(seqNo, parts, from)[k]
      == Rtp(Wrap(seqNo + 1 + k), from + k == |parts| - 1, parts[from + k])
    decreases |parts| - from
  {
    hide Wrap;
    var next := Wrap(seqNo + 1);
    if from + 1 < |parts| {
      var i := if k > 0 then k - 1 else 0;
      NumberedAt(next, parts, from + 1, i);
      WrapsOnce(seqNo + 1, k);
      assert next + 1 + i == if k > 0 then next + k else next + 1;
    } else {
      assert Numbered(next, parts, from + 1) == [];
    }
  }

  lemma NumberedAll(seqNo: int, parts: seq<Bytes>)
    ensures |Numbered(seqNo, parts, 0)| == |parts|
    ensures forall k :: 0 <= k < |parts| ==>
      Numbered(seqNo, parts, 0)[k] == Rtp((seqNo + 1 + k) % 65536, k == |parts| - 1, parts[k])
  {
    hide Wrap;
    assert forall n :: Wrap(n) == n % 65536 by { WrapIs(); }
    if parts != [] {
      forall k | 0 <= k < |parts|
        ensures |Numbered(seqNo, parts, 0)| == |parts|
        ensures Numbered(seqNo, parts, 0)[k] == Rtp(Wrap(seqNo + 1 + k), k == |parts| - 1, parts[k])
      {
        NumberedAt(seqNo, parts, 0, k);
      }
      NumberedAt(seqNo, parts, 0, 0);
    }
  }

  /** The media packets of the `no`-th packet: every fragment once, in order, the last one marked. */
  predicate PacketOnTrack(added: seq<Rtp>, seqNo: int, b: Bytes, no: nat) {
    && |added| == FragmentCount(|b|)
    && forall k :: 0 <= k < |added| ==>
         && added[k].number == (seqNo + 1 + k) % 65536
         && (added[k].marker <==> k == |added| - 1)
         && added[k].payload == Encode(IdOf(no), k, FragmentCount(|b|), Chunk(b, k))
  }

  lemma PacketNumbered(parts: seq<Bytes>, seqNo: int, b: Bytes, no: nat)
    requires |parts| == FragmentCount(|b|)
    requires forall i :: 0 <= i < |parts| ==> parts[i] == Encode(IdOf(no), i, |parts|, Chunk(b, i))
    ensures PacketOnTrack(Numbered(seqNo, parts, 0), seqNo, b, no)
  {
    hide Wrap, Encode, IdOf, FragmentCount;
    NumberedAll(seqNo, parts);
  }

  lemma NextId(no: nat)
    ensures (no % 0x1_0000_0000 + 1) % 0x1_0000_0000 == IdOf(no)
  {
  }

  class Sender {
    var id: Id
    var seqNo: int
    var done: bool
    var track: seq<Rtp>
    /** How many packets the track did not take. */
    var failures: nat

    constructor ()
      ensures id == 0 && seqNo == 0 && !done && track == [] && failures == 0
    {
      id, seqNo, done, track, failures := 0, 0, false, [], 0;
    }

    /** The track either takes the packet or fails. */
    method WriteRtp(p: Rtp) returns (ok: bool)
      modifies this`track, this`failures
      ensures track == if ok then old(track) + [p] else old(track)
      ensures failures == old(failures) + if ok then 0 else 1
    {
      ok := *;
      failures := failures + if ok then 0 else 1;
      if ok {
        track := track + [p];
      }
    }

    /** `n` of the numbered packets were accepted before the track failed or all were sent. */
    method SendLocked(parts: seq<Bytes>) returns (ok: bool, ghost n: nat)
      modifies this`seqNo, this`track, this`failures
      ensures n <= |Numbered(old(seqNo), parts, 0)|
      ensures track == old(track) + Numbered(old(seqNo), parts, 0)[..n]
      ensures ok <==> !old(done) && n == |Numbered(old(seqNo), parts, 0)|
      ensures ok <==> !old(done) && failures == old(failures)
    {
      hide Wrap;
      ghost var all := Numbered(seqNo, parts, 0);
      n := 0;
      if done {
        return false, n;
      }
      for i := 0 to |parts|
        invariant failures == old(failures) && n == i <= |all| && track == old(track) + all[..i]
        invariant all[i..] == Numbered(seqNo, parts, i)
      {
        seqNo := Wrap(seqNo + 1);
        var p := Rtp(seqNo, i == |parts| - 1, parts[i]);
        assert all[i..] == [p] + Numbered(seqNo, parts, i + 1);
        assert all[i] == p && all[i + 1..] == all[i..][1..];
        ok := WriteRtp(p);
        if !ok {
          return;
        }
        assert all[..i + 1] == all[..i] + [p];
        n := n + 1;
      }
      ok := true;
    }

    /** The `no`-th packet carries `IdOf(no)`, whether or not the track accepts it. */
    method WritePacket(b: Bytes, ghost no: nat) returns (ok: bool)
      requires id == no % 0x1_0000_0000
      modifies this`id, this`seqNo, this`track, this`failures
      ensures !(1 <= |b| <= 1280) ==> !ok && id == old(id) && track == old(track)
      ensures 1 <= |b| <= 1280 ==> id == (no + 1) % 4294967296 == IdOf(no)
      ensures ok <==> 1 <= |b| <= 1280 && !old(done) && failures == old(failures)
      ensures ok ==> old(track) <= track && PacketOnTrack(track[|old(track)|..], old(seqNo), b, no)
    {
      if |b| == 0 || |b| > MTU {
        return false;
      }
      hide Wrap, Encode, IdOf, FragmentCount, PacketOnTrack, Numbered;
      NextId(no);
      id := (id + 1) % 0x1_0000_0000;
      var parts := SplitPacket(id, b);
      ghost var n;
      ok, n := SendLocked(parts);
      if ok {
        PacketNumbered(parts, old(seqNo), b, no);
        assert track[|old(track)|..] == Numbered(old(seqNo), parts, 0);
      }
    }
  }

  // ---------------------------------------------------------------- receiving

  /** What the `select` finds for a delivered packet: room in the queue, a full queue, or a closed peer. */
  datatype Slot = Room | Full | Closed

  /** A payload read from the remote track, when it was read, and the slot for a packet it completes. */
  datatype Arrival = Arrival(payload: Bytes, now: int, slot: Slot)

  function WithoutKeepalives(input: seq<Arrival>): seq<Arrival> {
    if input == [] then []
    else if input[0].payload == KEEPALIVE then WithoutKeepalives(input[1..])
    else [input[0]] + WithoutKeepalives(input[1..])
  }

  lemma {:induction false} KeepalivesAppend(a: seq<Arrival>, x: Arrival)
    ensures WithoutKeepalives(a + [x]) == WithoutKeepalives(a) + (if x.payload == KEEPALIVE then [] else [x])
  {
    if a == [] {
      assert a + [x] == [x];
      assert WithoutKeepalives([x][1..]) == [];
    } else {
      KeepalivesAppend(a[1..], x);
      assert (a + [x])[1..] == a[1..] + [x];
    }
  }

  lemma KeepalivesNext(input: seq<Arrival>, n: nat)
    requires n < |input|
    ensures WithoutKeepalives(input[..n + 1])
      == WithoutKeepalives(input[..n]) + (if input[n].payload == KEEPALIVE then [] else [input[n]])
  {
    KeepalivesAppend(input[..n], input[n]);
    assert input[..n + 1] == input[..n] + [input[n]];
  }

  predicate Matches(es: seq<Event>, data: seq<Arrival>) {
    && |es| == |data|
    && forall i :: 0 <= i < |es| ==> es[i].frame == Decode(data[i].payload) && es[i].now == data[i].now
  }

  /** The packets that found room in the queue, in order. */
  function Queued(outs: seq<Outcome>, data: seq<Arrival>): seq<Bytes>
    requires |outs| == |data|
  {
    if outs == [] then []
    else
      var k := |outs| - 1;
      Queued(outs[..k], data[..k]) + (if outs[k].Emitted? && data[k].slot.Room? then [outs[k].packet] else [])
  }

  function Dropped(outs: seq<Outcome>, data: seq<Arrival>): nat
    requires |outs| == |data|
  {
    if outs == [] then 0
    else
      var k := |outs| - 1;
      Dropped(outs[..k], data[..k]) + (if outs[k].Emitted? && data[k].slot.Full? then 1 else 0)
  }

  lemma QueueExtend(outs: seq<Outcome>, data: seq<Arrival>, r: Outcome, x: Arrival)
    requires |outs| == |data|
    ensures Queued(outs + [r], data + [x])
      == Queued(outs, data) + (if r.Emitted? && x.slot.Room? then [r.packet] else [])
    ensures Dropped(outs + [r], data + [x]) == Dropped(outs, data) + (if r.Emitted? && x.slot.Full? then 1 else 0)
  {
    assert (outs + [r])[..|outs|] == outs && (data + [x])[..|outs|] == data;
  }

  /** `es` is a run with these outcomes, ending in state `s`. */
  ghost predicate Trace(es: seq<Event>, outs: seq<Outcome>, s: State) {
    && Legal(es) && |outs| == |es| && s == StateAt(es, |es|)
    && forall i :: 0 <= i < |es| ==> outs[i] == OutcomeAt(es, i)
  }

  lemma TraceExtend(es: seq<Event>, outs: seq<Outcome>, s: State, e: Event, s': State, r: Outcome)
    requires Trace(es, outs, s) && LegalVictim(s, e.frame, e.now, e.victim) && Step(s, e) == (s', r)
    ensures Trace(es + [e], outs + [r], s')
  {
    var es' := es + [e];
    forall i | 0 <= i <= |es|
      ensures StateAt(es', i) == StateAt(es, i)
    {
      PrefixState(es, [e], i);
    }
    forall i | 0 <= i < |es'|
      ensures (outs + [r])[i] == OutcomeAt(es', i)
      ensures LegalVictim(StateAt(es', i), es'[i].frame, es'[i].now, es'[i].victim)
    {
      if i < |es| {
        assert es'[i] == es[i] && outs[i] == OutcomeAt(es, i);
        assert LegalVictim(StateAt(es, i), es[i].frame, es[i].now, es[i].victim);
      }
    }
  }

  predicate NoFailure(outs: seq<Outcome>) {
    forall i :: 0 <= i < |outs| ==> !outs[i].Failed?
  }

  predicate EndsInFailure(outs: seq<Outcome>) {
    outs != [] && NoFailure(outs[..|outs| - 1]) && outs[|outs| - 1].Failed?
  }

  lemma OutcomesExtend(outs: seq<Outcome>, r: Outcome)
    requires NoFailure(outs)
    ensures if r.Failed? then EndsInFailure(outs + [r]) else NoFailure(outs + [r])
  {
    assert (outs + [r])[..|outs|] == outs;
  }

  /** No delivered packet met a closed peer. */
  predicate NoStop(outs: seq<Outcome>, data: seq<Arrival>)
    requires |outs| == |data|
  {
    forall i :: 0 <= i < |outs| ==> !(outs[i].Emitted? && data[i].slot.Closed?)
  }

  predicate EndsInStop(outs: seq<Outcome>, data: seq<Arrival>)
    requires |outs| == |data|
  {
    && outs != [] && NoFailure(outs) && NoStop(outs[..|outs| - 1], data[..|outs| - 1])
    && outs[|outs| - 1].Emitted? && data[|outs| - 1].slot.Closed?
  }

  lemma StopExtend(outs: seq<Outcome>, data: seq<Arrival>, r: Outcome, x: Arrival)
    requires |outs| == |data| && NoFailure(outs) && NoStop(outs, data) && !r.Failed?
    ensures if r.Emitted? && x.slot.Closed? then EndsInStop(outs + [r], data + [x]) else NoStop(outs + [r], data + [x])
  {
    assert (outs + [r])[..|outs|] == outs && (data + [x])[..|outs|] == data;
  }

  /** Why the loop ended. */
  datatype LoopEnd = TrackEnded | BadFragment | PeerClosed

  /** The history of one track: its assembler's run, the payloads behind it, and what reached the queue. */
  datatype LoopRun = LoopRun(es: seq<Event>, outs: seq<Outcome>, s: State,
    data: seq<Arrival>, rx: seq<Bytes>, dropped: nat) {

    ghost predicate Valid() {
      Matches(es, data) && Trace(es, outs, s) && rx == Queued(outs, data) && dropped == Dropped(outs, data)
    }

    ghost function Then(e: Event, s': State, r: Outcome, x: Arrival): (l: LoopRun)
      requires Valid()
      requires e.frame == Decode(x.payload) && e.now == x.now
      requires LegalVictim(s, e.frame, e.now, e.victim) && Step(s, e) == (s', r)
      ensures l.Valid() && l.outs == outs + [r] && l.data == data + [x] && l.s == s'
      ensures l.rx == if r.Emitted? && x.slot.Room? then rx + [r.packet] else rx
      ensures l.dropped == if r.Emitted? && x.slot.Full? then dropped + 1 else dropped
    {
      TraceExtend(es, outs, s, e, s', r);
      QueueExtend(outs, data, r, x);
      LoopRun(es + [e], outs + [r], s', data + [x],
              if r.Emitted? && x.slot.Room? then rx + [r.packet] else rx,
              if r.Emitted? && x.slot.Full? then dropped + 1 else dropped)
    }
  }

  method PushArrival(a: Assembler, x: Arrival) returns (r: Outcome, ghost e: Event)
    modifies a
    ensures e.frame == Decode(x.payload) && e.now == x.now
    ensures LegalVictim(old(a.Model()), e.frame, e.now, e.victim) && Step(old(a.Model()), e) == (a.Model(), r)
  {
    ghost var s := a.Model();
    r := a.Push(x.payload, x.now);
    e := PushEvent(s, x, a.Model(), r);
  }

  /**
   Reads until the track ends, a fragment is rejected, which closes the peer, or a delivered
   packet finds the peer closed; keepalives never reach the assembler.
   */
  method ReceiveLoop(input: seq<Arrival>)
    returns (rx: seq<Bytes>, dropped: nat, end: LoopEnd, read: nat, ghost run: LoopRun)
    ensures read <= |input| && run.data == WithoutKeepalives(input[..read])
    ensures run.Valid() && rx == run.rx && dropped == run.dropped
    ensures end.BadFragment? ==> EndsInFailure(run.outs) && NoStop(run.outs, run.data)
    ensures end.PeerClosed? ==> EndsInStop(run.outs, run.data)
    ensures end.TrackEnded? ==> read == |input| && NoFailure(run.outs) && NoStop(run.outs, run.data)
  {
    hide Queued, Dropped, Trace, Matches, WithoutKeepalives;
    var a := new Assembler();
    rx, dropped, end, read := [], 0, TrackEnded, 0;
    run := LoopRun([], [], EMPTY, [], [], 0);
    RunStarts();
    assert input[..0] == [];
    while read < |input|
      invariant read <= |input| && end.TrackEnded? && fresh(a) && a.Model() == run.s
      invariant run.data == WithoutKeepalives(input[..read])
      invariant run.Valid() && rx == run.rx && dropped == run.dropped
      invariant |run.outs| == |run.data| && NoFailure(run.outs) && NoStop(run.outs, run.data)
    {
      var x := input[read];
      KeepalivesNext(input, read);
      read := read + 1;
      if x.payload == KEEPALIVE {
        continue;
      }
      ghost var outs, data := run.outs, run.data;
      var r, e := PushArrival(a, x);
      OutcomesExtend(outs, r);
      run := run.Then(e, a.Model(), r, x);
      if r.Failed? {
        NoStopExtend(outs, data, r, x);
        end := BadFragment;
        return;
      }
      StopExtend(outs, data, r, x);
      if r.Emitted? {
        match x.slot {
          case Room => rx := rx + [r.packet];
          case Closed => end := PeerClosed; return;
          case Full => dropped := dropped + 1;
        }
      }
    }
    assert input[..read] == input;
  }

  lemma NoStopExtend(outs: seq<Outcome>, data: seq<Arrival>, r: Outcome, x: Arrival)
    requires |outs| == |data| && NoStop(outs, data) && r.Failed?
    ensures NoStop(outs + [r], data + [x])
  {
  }

  lemma RunStarts()
    ensures LoopRun([], [], EMPTY, [], [], 0).Valid() && WithoutKeepalives([]) == []
  {
  }

  ghost function PushEvent(s: State, x: Arrival, s': State, r: Outcome): (e: Event)
    requires Pushes(s, x.payload, x.now, s', r)
    ensures e.frame == Decode(x.payload) && e.now == x.now
    ensures LegalVictim(s, e.frame, e.now, e.victim) && Step(s, e) == (s', r)
  {
    var victim: Id :| LegalVictim(s, Decode(x.payload), x.now, victim)
      && Next(s, Decode(x.payload), x.now, victim) == (s', r);
    Event(Decode(x.payload), x.now, victim)
  }

  lemma {:induction false} QueuedAreEmitted(outs: seq<Outcome>, data: seq<Arrival>, p: Bytes)
    requires |outs| == |data| && p in Queued(outs, data)
    ensures Emitted(p) in outs
  {
    if outs != [] {
      var k := |outs| - 1;
      if p in Queued(outs[..k], data[..k]) {
        QueuedAreEmitted(outs[..k], data[..k], p);
      } else {
        assert outs[k] == Emitted(p);
      }
    }
  }

  /**
   Over a channel that only loses, repeats, delays and reorders, the queue holds
   packets that were sent, and the track is never closed for a bad fragment.
   */
  lemma QueueHoldsSentPackets(es: seq<Event>, outs: seq<Outcome>, s: State, origin: seq<Origin>,
                              pkts: seq<Bytes>, data: seq<Arrival>)
    requires Trace(es, outs, s) && Matches(es, data)
    requires FedBy(es, origin, pkts) && ReuseSafe(es, origin)
    ensures NoFailure(outs)
    ensures forall p :: p in Queued(outs, data) ==> p in pkts
  {
    forall i | 0 <= i < |outs|
      ensures !outs[i].Failed? && (outs[i].Emitted? ==> outs[i].packet in pkts)
    {
      Integrity(es, origin, pkts, i);
      assert FragmentOf(es[i].frame, origin[i], pkts) && outs[i] == OutcomeAt(es, i);
    }
    forall p | p in Queued(outs, data)
      ensures p in pkts
    {
      QueuedAreEmitted(outs, data, p);
    }
  }

  // ---------------------------------------------------------------- from end to end

  /** `payload` is a fragment of one of `pkts`, under the id its sender gave it. */
  predicate Carries(payload: Bytes, o: Origin, pkts: seq<Bytes>) {
    && o.no < |pkts|
    && o.idx < FragmentCount(|pkts[o.no]|)
    && payload == Encode(IdOf(o.no), o.idx, FragmentCount(|pkts[o.no]|), Chunk(pkts[o.no], o.idx))
  }

  /** Only keepalives and fragments of `pkts` arrive, lost, repeated, delayed and reordered in any way. */
  predicate Carried(input: seq<Arrival>, origin: seq<Origin>, pkts: seq<Bytes>) {
    && Sendable(pkts) && |origin| == |input|
    && forall i :: 0 <= i < |input| ==>
         input[i].payload == [0x54, 0x4C, 0x30, 0x30] || Carries(input[i].payload, origin[i], pkts)
  }

  /** Fragments of two packets with one id arrive more than two seconds apart. */
  predicate SafeTimes(input: seq<Arrival>, origin: seq<Origin>)
    requires |origin| == |input|
  {
    forall i, j :: 0 <= i < j < |input| && input[i].payload != KEEPALIVE && input[j].payload != KEEPALIVE
      && IdOf(origin[i].no) == IdOf(origin[j].no) && origin[i].no != origin[j].no
      ==> input[j].now - input[i].now > 2_000_000_000
  }

  /** `kept` lists, in order, where the first `n` arrivals are not keepalives. */
  predicate Keeps(kept: seq<nat>, input: seq<Arrival>, n: nat) {
    && n <= |input| && |kept| == |WithoutKeepalives(input[..n])|
    && (forall k :: 0 <= k < |kept| ==> kept[k] < n && input[kept[k]].payload != KEEPALIVE)
    && (forall k :: 0 <= k < |kept| ==> WithoutKeepalives(input[..n])[k] == input[kept[k]])
    && (forall k, l :: 0 <= k < l < |kept| ==> kept[k] < kept[l])
  }

  lemma {:induction false} KeptArrivals(input: seq<Arrival>, n: nat) returns (kept: seq<nat>)
    requires n <= |input|
    ensures Keeps(kept, input, n)
  {
    if n == 0 {
      kept := [];
    } else {
      kept := KeptArrivals(input, n - 1);
      KeepalivesNext(input, n - 1);
      if input[n - 1].payload != KEEPALIVE {
        kept := kept + [n - 1];
      }
    }
  }

  lemma KeptAreFed(input: seq<Arrival>, n: nat, kept: seq<nat>, origin: seq<Origin>, pkts: seq<Bytes>, es: seq<Event>)
    requires Carried(input, origin, pkts) && SafeTimes(input, origin) && Keeps(kept, input, n)
    requires Matches(es, WithoutKeepalives(input[..n]))
    ensures var from := seq(|kept|, k requires 0 <= k < |kept| && kept[k] < |origin| => origin[kept[k]]);
      FedBy(es, from, pkts) && ReuseSafe(es, from)
  {
    hide WithoutKeepalives, Encode, FragmentCount, Chunk, IdOf;
    var from := seq(|kept|, k requires 0 <= k < |kept| && kept[k] < |origin| => origin[kept[k]]);
    forall k | 0 <= k < |es|
      ensures FragmentOf(es[k].frame, from[k], pkts) && es[k].now == input[kept[k]].now
    {
      assert Carries(input[kept[k]].payload, origin[kept[k]], pkts);
    }
  }

  /**
   What a run of the loop has to do with the packets sent: none of their fragments is rejected, and
   nothing else is queued.
   */
  lemma RunHoldsSentPackets(input: seq<Arrival>, read: nat, run: LoopRun, origin: seq<Origin>, pkts: seq<Bytes>)
    requires Carried(input, origin, pkts) && SafeTimes(input, origin)
    requires read <= |input| && run.Valid() && run.data == WithoutKeepalives(input[..read])
    ensures NoFailure(run.outs)
    ensures forall p :: p in run.rx ==> p in pkts
  {
    hide Trace, Queued, Dropped, Carried, SafeTimes, WithoutKeepalives, Keeps;
    var kept := KeptArrivals(input, read);
    KeptAreFed(input, read, kept, origin, pkts, run.es);
    var from := seq(|kept|, k requires 0 <= k < |kept| && kept[k] < |origin| => origin[kept[k]]);
    QueueHoldsSentPackets(run.es, run.outs, run.s, from, pkts, run.data);
  }

  /** The loop on a track that carries sent packets. */
  method ReceiveSent(input: seq<Arrival>, ghost origin: seq<Origin>, ghost pkts: seq<Bytes>)
    returns (rx: seq<Bytes>, dropped: nat, end: LoopEnd)
    requires Carried(input, origin, pkts) && SafeTimes(input, origin)
    ensures !end.BadFragment?
    ensures forall p :: p in rx ==> p in pkts
  {
    hide Carried, SafeTimes, WithoutKeepalives, Trace, Queued, Dropped;
    var read: nat;
    ghost var run;
    rx, dropped, end, read, run := ReceiveLoop(input);
    RunHoldsSentPackets(input, read, run, origin, pkts);
  }
}
