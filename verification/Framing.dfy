/** Length-prefixed packets on a byte stream. */
module Framing {
  import opened Octets
  import opened Streams

  predicate Framable(b: Bytes) {
    1 <= |b| <= MTU
  }

  predicate AllFramable(ps: seq<Bytes>) {
    forall i :: 0 <= i < |ps| ==> Framable(ps[i])
  }

  function Frame(b: Bytes): Bytes
    requires Framable(b)
  {
    U16(|b|) + b
  }

  /** What the stream carries after these packets were written. */
  function Frames(ps: seq<Bytes>): Bytes
    requires AllFramable(ps)
  {
    if ps == [] then [] else Frame(ps[0]) + Frames(ps[1..])
  }

  datatype Read = Packet(b: Bytes, rest: Bytes) | ShortHeader | BadLength | ShortBody

  function ReadFrame(stream: Bytes): Read {
    if |stream| < 2 then ShortHeader
    else
      var n := FromU16(stream[..2]);
      if n < 1 || n > MTU then BadLength
      else if |stream| < 2 + n then ShortBody
      else Packet(stream[2..2 + n], stream[2 + n..])
  }

  class Framed {
    const reader: Source<byte>
    const writer: Sink<byte>

    constructor (reader: Source<byte>, writer: Sink<byte>)
      ensures this.reader == reader && this.writer == writer
    {
      this.reader, this.writer := reader, writer;
    }

    /** Reads one frame whatever the pieces it arrives in; after a failure nothing is promised about the stream. */
    method ReadPacket() returns (b: Bytes, ok: bool)
      modifies reader
      ensures ok <==> ReadFrame(old(reader.incoming)).Packet?
      ensures ok ==> ReadFrame(old(reader.incoming)) == Packet(b, reader.incoming)
    {
      var stream := reader.incoming;
      var hdr, got := ReadFull(reader, 2);
      if !got {
        return [], false;
      }
      assert stream[..2] == hdr && stream[2..] == reader.incoming;
      var n := FromU16(hdr);
      if n < 1 || n > MTU {
        return [], false;
      }
      b, ok := ReadFull(reader, n);
      if ok {
        assert stream[2..][..n] == b && stream[2..][n..] == reader.incoming;
        assert stream[2..2 + n] == b && stream[2 + n..] == reader.incoming;
      }
    }

    method WritePacket(b: Bytes) returns (ok: bool)
      modifies writer
      ensures !Framable(b) ==> !ok && writer.sent == old(writer.sent)
      ensures Framable(b) ==> exists n: nat :: n <= |Frame(b)| && writer.sent == old(writer.sent) + Frame(b)[..n]
      ensures ok ==> Framable(b) && writer.sent == old(writer.sent) + Frame(b)
      ensures ok <==> Framable(b) && writer.failures == old(writer.failures)
      ensures writer.failures >= old(writer.failures)
    {
      if |b| < 1 || |b| > MTU {
        return false;
      }
      var buf := new byte[|b| + 2];
      var header := U16(|b|);
      buf[0], buf[1] := header[0], header[1];
      forall i | 0 <= i < |b| {
        buf[i + 2] := b[i];
      }
      assert buf[..] == Frame(b);
      ghost var taken;
      ok, taken := WriteAll(writer, buf[..]);
    }
  }

  /**
   By the numbers: a packet is read exactly if its length, two bytes with the high one first, is 1 to
   1280 and all of it is there.
   */
  lemma ReadFrameIff(stream: Bytes, b: Bytes, rest: Bytes)
    ensures ReadFrame(stream) == Packet(b, rest) <==>
        && |stream| >= 2 && stream[2..] == b + rest
        && var high: int, low: int := stream[0], stream[1]; 256 * high + low == |b| && 1 <= |b| <= 1280
  {
    if |stream| >= 2 {
      assert stream[..2] == [stream[0], stream[1]];
      if stream[2..] == b + rest {
        assert stream[2..2 + |b|] == b && stream[2 + |b|..] == rest;
      }
    }
  }

  lemma ReadOne(b: Bytes, rest: Bytes)
    requires Framable(b)
    ensures ReadFrame(Frame(b) + rest) == Packet(b, rest)
  {
    var s := Frame(b) + rest;
    U16Inverse(|b|);
    assert s[..2] == U16(|b|) && s[2..2 + |b|] == b && s[2 + |b|..] == rest;
  }

  /** A frame cut short is never mistaken for a packet. */
  lemma CutFrame(b: Bytes, n: nat)
    requires Framable(b) && n < |Frame(b)|
    ensures !ReadFrame(Frame(b)[..n]).Packet?
  {
    U16Inverse(|b|);
    if n >= 2 {
      assert Frame(b)[..n][..2] == U16(|b|);
    }
  }

  /** The packets that repeated reads take from a stream before one fails. */
  function ReadAll(stream: Bytes): seq<Bytes>
    decreases |stream|
  {
    var r := ReadFrame(stream);
    if r.Packet? then [r.b] + ReadAll(r.rest) else []
  }

  lemma FramesSplit(ps: seq<Bytes>, n: nat)
    requires AllFramable(ps) && ps != []
    ensures n <= |Frames(ps)| && n < |Frame(ps[0])| ==> Frames(ps)[..n] == Frame(ps[0])[..n]
    ensures n <= |Frames(ps)| && n >= |Frame(ps[0])| ==>
      Frames(ps)[..n] == Frame(ps[0]) + Frames(ps[1..])[..n - |Frame(ps[0])|]
  {
  }

  lemma ReadsFirst(b: Bytes, rest: Bytes, tail: seq<Bytes>)
    requires Framable(b)
    ensures ReadAll(Frame(b) + rest) == [b] + ReadAll(rest)
    ensures ReadAll(rest) <= tail ==> ReadAll(Frame(b) + rest) <= [b] + tail
  {
    ReadOne(b, rest);
  }

  lemma ReadsNothing(b: Bytes, n: nat)
    requires Framable(b) && n < |Frame(b)|
    ensures ReadAll(Frame(b)[..n]) == []
  {
    CutFrame(b, n);
  }

  /** However the stream is cut off, the packets read are the first packets written; uncut, all of them. */
  lemma {:induction false} ReadsPrefix(ps: seq<Bytes>, n: nat)
    requires AllFramable(ps) && n <= |Frames(ps)|
    ensures ReadAll(Frames(ps)[..n]) <= ps
    ensures n == |Frames(ps)| ==> ReadAll(Frames(ps)[..n]) == ps
  {
    if ps == [] {
      assert ReadAll([]) == [];
      return;
    }
    var b, more, stream := ps[0], ps[1..], Frames(ps)[..n];
    FramesSplit(ps, n);
    if n < |Frame(b)| {
      ReadsNothing(b, n);
    } else {
      var m := n - |Frame(b)|;
      var rest := Frames(more)[..m];
      ReadsPrefix(more, m);
      ReadsFirst(b, rest, more);
      assert stream == Frame(b) + rest && ps == [b] + more;
    }
  }

  lemma {:induction false} FramesAppend(ps: seq<Bytes>, b: Bytes)
    requires AllFramable(ps) && Framable(b)
    ensures AllFramable(ps + [b]) && Frames(ps + [b]) == Frames(ps) + Frame(b)
  {
    hide Frame;
    if ps == [] {
      assert ps + [b] == [b] && Frames([b][1..]) == [];
    } else {
      var head, tail := Frame(ps[0]), Frames(ps[1..]);
      assert (ps + [b])[1..] == ps[1..] + [b] && (ps + [b])[0] == ps[0];
      FramesAppend(ps[1..], b);
      assert head + (tail + Frame(b)) == (head + tail) + Frame(b);
    }
  }

  /**
   What is on the stream when the first `n` packets went out and, unless they are all, the call for
   the next one failed.
   */
  ghost predicate SentUpTo(ps: seq<Bytes>, n: nat, added: Bytes) {
    && n <= |ps| && AllFramable(ps[..n])
    && if n < |ps| && Framable(ps[n]) then Frames(ps[..n]) <= added <= Frames(ps[..n]) + Frame(ps[n])
       else added == Frames(ps[..n])
  }

  /** Writes one packet after the other up to the first failure. */
  method SendAll(f: Framed, ps: seq<Bytes>) returns (n: nat, ok: bool, ghost added: Bytes)
    modifies f.writer
    ensures f.writer.sent == old(f.writer.sent) + added
    ensures SentUpTo(ps, n, added) && (ok <==> n == |ps|)
    ensures n < |ps| ==> !Framable(ps[n]) || f.writer.failures > old(f.writer.failures)
  {
    n, ok, added := 0, true, [];
    while n < |ps|
      invariant f.writer.failures >= old(f.writer.failures)
      invariant n <= |ps| && ok && AllFramable(ps[..n]) && added == Frames(ps[..n])
      invariant f.writer.sent == old(f.writer.sent) + added
    {
      hide Frame, Frames;
      ghost var before := f.writer.sent;
      ok := f.WritePacket(ps[n]);
      if !ok {
        if Framable(ps[n]) {
          ghost var m: nat :| m <= |Frame(ps[n])| && f.writer.sent == before + Frame(ps[n])[..m];
          added := added + Frame(ps[n])[..m];
        }
        return;
      }
      assert ps[..n + 1] == ps[..n] + [ps[n]];
      FramesAppend(ps[..n], ps[n]);
      added := added + Frame(ps[n]);
      n := n + 1;
    }
    assert ps[..n] == ps;
  }

  /**
   However many calls succeeded, and wherever the failing one stopped, a reader that has received
   any part of what went out has read the first packets handed over: once all has arrived, those
   of the calls that succeeded, and at most the one of the call that failed.
   */
  lemma SentAreRead(ps: seq<Bytes>, n: nat, added: Bytes, m: nat)
    requires SentUpTo(ps, n, added) && m <= |added|
    ensures ReadAll(added[..m]) <= ps
    ensures m == |added| ==> ps[..n] <= ReadAll(added[..m])
    ensures |ReadAll(added[..m])| <= n + 1
  {
    hide ReadAll, Frame, Frames;
    var whole := if n < |ps| && Framable(ps[n]) then ps[..n + 1] else ps[..n];
    if n < |ps| && Framable(ps[n]) {
      assert whole == ps[..n] + [ps[n]];
      FramesAppend(ps[..n], ps[n]);
    }
    ReadsPrefix(whole, m);
    assert added[..m] == Frames(whole)[..m];
    if m == |added| {
      ReadsAtLeast(ps[..n], added[|Frames(ps[..n])|..]);
      assert added[..m] == Frames(ps[..n]) + added[|Frames(ps[..n])|..];
    }
  }

  lemma {:induction false} ReadsAtLeast(ps: seq<Bytes>, rest: Bytes)
    requires AllFramable(ps)
    ensures ps <= ReadAll(Frames(ps) + rest)
  {
    hide ReadAll, Frame;
    if ps != [] {
      var more := Frames(ps[1..]) + rest;
      ReadsAtLeast(ps[1..], rest);
      ReadsFirst(ps[0], more, []);
      assert Frames(ps) + rest == Frame(ps[0]) + more;
      assert ps == [ps[0]] + ps[1..];
    }
  }

  /** A packet written behind a cut frame is taken for the rest of that frame. */
  lemma WrittenBehindCut(b: Bytes, n: nat, c: Bytes)
    requires Framable(b) && Framable(c) && 2 <= n < |Frame(b)| <= n + |Frame(c)|
    ensures ReadFrame(Frame(b)[..n] + Frame(c))
      == Packet(b[..n - 2] + Frame(c)[..|Frame(b)| - n], Frame(c)[|Frame(b)| - n..])
  {
    U16Inverse(|b|);
    var s := Frame(b)[..n] + Frame(c);
    assert s[..2] == U16(|b|);
    assert Frame(b)[..n][2..] == b[..n - 2];
    assert s[2..2 + |b|] == Frame(b)[..n][2..] + Frame(c)[..|Frame(b)| - n];
    assert s[2..2 + |b|] == b[..n - 2] + Frame(c)[..|Frame(b)| - n];
    assert s[2 + |b|..] == Frame(c)[|Frame(b)| - n..];
  }
}
