/** The TUN device: batches of the driver's reused buffers made into one queue of packets. */
module Device {
  import opened Octets

  /** Room before each packet for the headers of the drivers. */
  const OFFSET: int := 16

  const LARGEST: int := 65535

  /** The packets a batch contributes, in order. */
  function InRange(batch: seq<Bytes>): seq<Bytes> {
    if batch == [] then []
    else InRange(batch[..|batch| - 1]) + if 1 <= |batch[|batch| - 1]| <= MTU then [batch[|batch| - 1]] else []
  }

  function AllInRange(batches: seq<seq<Bytes>>): seq<Bytes> {
    if batches == [] then [] else InRange(batches[0]) + AllInRange(batches[1..])
  }

  function Flat(batches: seq<seq<Bytes>>): seq<Bytes> {
    if batches == [] then [] else batches[0] + Flat(batches[1..])
  }

  /** One packet: it counts if it has 1 to 1280 bytes. With `InRangeConcat` that is the whole filter. */
  lemma InRangeOne(p: Bytes)
    ensures InRange([p]) == if 1 <= |p| <= 1280 then [p] else []
  {
    assert InRange([p][..0]) == [];
  }

  lemma {:induction false} InRangeConcat(a: seq<Bytes>, b: seq<Bytes>)
    ensures InRange(a + b) == InRange(a) + InRange(b)
  {
    if b == [] {
      assert a + b == a;
    } else {
      var k := |b| - 1;
      InRangeConcat(a, b[..k]);
      assert (a + b)[..|a| + k] == a + b[..k];
    }
  }

  /** How the driver cuts its packets into batches does not matter. */
  lemma {:induction false} BatchingDoesNotMatter(batches: seq<seq<Bytes>>)
    ensures AllInRange(batches) == InRange(Flat(batches))
  {
    if batches != [] {
      BatchingDoesNotMatter(batches[1..]);
      InRangeConcat(batches[0], Flat(batches[1..]));
    }
  }

  /** One read of the driver that succeeds with these packets, or fails. */
  datatype Reading = Batch(packets: seq<Bytes>) | Broken

  /** The packets of the reads before the first that fails. */
  function Coming(readings: seq<Reading>): seq<Bytes> {
    if readings == [] || readings[0].Broken? then [] else InRange(readings[0].packets) + Coming(readings[1..])
  }

  /** The reads after the first that fails. */
  function Beyond(readings: seq<Reading>): seq<Reading> {
    if readings == [] then [] else if readings[0].Broken? then readings[1..] else Beyond(readings[1..])
  }

  lemma {:induction false} ComingBatches(batches: seq<seq<Bytes>>, rest: seq<Reading>)
    ensures Coming(seq(|batches|, i requires 0 <= i < |batches| => Batch(batches[i])) + [Broken] + rest)
      == AllInRange(batches)
    ensures Beyond(seq(|batches|, i requires 0 <= i < |batches| => Batch(batches[i])) + [Broken] + rest) == rest
  {
    var readings := seq(|batches|, i requires 0 <= i < |batches| => Batch(batches[i])) + [Broken] + rest;
    if batches == [] {
      assert readings == [Broken] + rest;
    } else {
      var more := batches[1..];
      ComingBatches(more, rest);
      assert readings[1..] == seq(|more|, i requires 0 <= i < |more| => Batch(more[i])) + [Broken] + rest;
    }
  }

  predicate Fillable(readings: seq<Reading>, size: nat) {
    forall k :: 0 <= k < |readings| && readings[k].Batch? ==>
      |readings[k].packets| <= size
      && forall i :: 0 <= i < |readings[k].packets| ==> |readings[k].packets[i]| <= LARGEST
  }

  /** A packet as the driver gets it: the bytes before it that it may use, and the packet. */
  datatype Handed = Handed(room: nat, packet: Bytes)

  /**
   The interface's driver: `readings` are its reads to come, of which there is no end but failure;
   `written` is what it was given.
   */
  class Driver {
    const size: nat
    var readings: seq<Reading>
    var written: seq<Handed>
    var closes: nat
    /** How many packets it did not take. */
    var refusals: nat

    ghost predicate Valid()
      reads this
    {
      Fillable(readings, size)
    }

    constructor (size: nat, readings: seq<Reading>)
      requires Fillable(readings, size)
      ensures Valid() && this.size == size && this.readings == readings && written == []
      ensures closes == 0 && refusals == 0
    {
      this.size, this.readings, written, closes, refusals := size, readings, [], 0, 0;
    }

    /** Puts the next batch into the buffers, leaving the rest of them with anything, or fails. */
    method Read(bufs: seq<array<byte>>, sizes: array<int>, offset: nat) returns (n: nat, ok: bool)
      requires Valid() && |bufs| == sizes.Length == size
      requires forall i :: 0 <= i < |bufs| ==> bufs[i].Length == LARGEST + offset
      requires forall i, j :: 0 <= i < j < |bufs| ==> bufs[i] != bufs[j]
      modifies this`readings, sizes, set i | 0 <= i < |bufs| :: bufs[i]
      ensures Valid() && (ok <==> old(readings) != [] && old(readings)[0].Batch?)
      ensures readings == if old(readings) == [] then [] else old(readings)[1..]
      ensures ok ==> n == |old(readings)[0].packets|
      ensures ok ==> forall i :: 0 <= i < n ==> sizes[i] == |old(readings)[0].packets[i]|
      ensures ok ==> forall i :: 0 <= i < n ==>
        bufs[i][offset..offset + |old(readings)[0].packets[i]|] == old(readings)[0].packets[i]
    {
      if readings == [] {
        return 0, false;
      }
      var next := readings[0];
      if next.Broken? {
        readings := readings[1..];
        return 0, false;
      }
      var batch := next.packets;
      n, ok := 0, true;
      while n < |batch|
        invariant 0 <= n <= |batch| && readings == old(readings)
        invariant forall i :: 0 <= i < n ==> sizes[i] == |batch[i]|
        invariant forall i :: 0 <= i < n ==> bufs[i][offset..offset + |batch[i]|] == batch[i]
      {
        var packet, buf := batch[n], bufs[n];
        sizes[n] := |packet|;
        forall k | 0 <= k < |packet| {
          buf[offset + k] := packet[k];
        }
        assert buf[offset..offset + |packet|] == packet;
        n := n + 1;
      }
      readings := readings[1..];
    }

    /** May fail; takes the packet that starts at the offset. */
    method Write(buf: array<byte>, offset: nat) returns (ok: bool)
      requires offset <= buf.Length
      modifies this`written, this`refusals
      ensures written == if ok then old(written) + [Handed(offset, buf[offset..])] else old(written)
      ensures refusals == old(refusals) + if ok then 0 else 1
    {
      ok := *;
      refusals := refusals + if ok then 0 else 1;
      if ok {
        written := written + [Handed(offset, buf[offset..])];
      }
    }

    method Close() returns (ok: bool)
      modifies this`closes
      ensures closes == old(closes) + 1
    {
      ok := *;
      closes := closes + 1;
    }
  }

  class Device {
    const dev: Driver
    const bufs: seq<array<byte>>
    const sizes: array<int>
    var pending: seq<Bytes>
    var closed: bool
    var closeOk: bool

    ghost predicate Valid()
      reads this, dev
    {
      && dev.Valid() && |bufs| == sizes.Length == dev.size
      && (forall i :: 0 <= i < |bufs| ==> bufs[i].Length == LARGEST + OFFSET)
      && (forall i, j :: 0 <= i < j < |bufs| ==> bufs[i] != bufs[j])
      && (dev.closes == if closed then 1 else 0)
      && (forall k :: 0 <= k < |pending| ==> 1 <= |pending[k]| <= MTU)
    }

    /** The packets still to be read before the driver's next failure. */
    ghost function Incoming(): seq<Bytes>
      reads this, dev
    {
      pending + Coming(dev.readings)
    }

    constructor (dev: Driver, bufs: seq<array<byte>>, sizes: array<int>)
      requires dev.Valid() && |bufs| == sizes.Length == dev.size && dev.closes == 0
      requires forall i :: 0 <= i < |bufs| ==> bufs[i].Length == LARGEST + OFFSET
      requires forall i, j :: 0 <= i < j < |bufs| ==> bufs[i] != bufs[j]
      ensures Valid() && this.dev == dev && Incoming() == Coming(dev.readings) && !closed
    {
      this.dev, this.bufs, this.sizes, pending, closed, closeOk := dev, bufs, sizes, [], false, true;
    }

    ghost function Buffers(): set<object> {
      (set i | 0 <= i < |bufs| :: bufs[i] as object) + {sizes}
    }

    /** Copies the packets of a batch out of the buffers. */
    method TakeBatch(n: nat, ghost batch: seq<Bytes>)
      requires Valid() && pending == [] && n == |batch| <= |bufs|
      requires forall k :: 0 <= k < n ==>
        sizes[k] == |batch[k]| <= LARGEST && bufs[k][OFFSET..OFFSET + |batch[k]|] == batch[k]
      modifies `pending
      ensures Valid() && pending == InRange(batch)
    {
      var i := 0;
      while i < n
        invariant 0 <= i <= n && pending == InRange(batch[..i]) && Valid()
      {
        var size := sizes[i];
        assert batch[..i + 1][..i] == batch[..i];
        if !(size < 1 || size > MTU) {
          pending := pending + [bufs[i][OFFSET..OFFSET + size]];
        }
        i := i + 1;
      }
      assert batch[..n] == batch;
    }

    /**
     Yields the in-range packets of all batches in order, one a call, however the buffers are
     reused between. A failing read is reported once the packets before it are out, and the
     calls after it go on with what the driver delivers then.
     */
    method ReadPacket() returns (b: Bytes, ok: bool)
      requires Valid()
      modifies `pending, dev`readings, Buffers()
      ensures Valid() && (ok <==> old(Incoming()) != [])
      ensures ok ==> 1 <= |b| <= MTU && old(Incoming()) == [b] + Incoming()
      ensures ok ==> Beyond(dev.readings) == Beyond(old(dev.readings))
      ensures !ok ==> pending == [] && dev.readings == Beyond(old(dev.readings))
    {
      hide InRange;
      while true
        invariant Valid() && Incoming() == old(Incoming()) && Beyond(dev.readings) == Beyond(old(dev.readings))
        decreases |dev.readings|, |pending|
      {
        if |pending| > 0 {
          b := pending[0];
          assert pending == [b] + pending[1..];
          pending := pending[1..];
          return b, true;
        }
        ghost var readings := dev.readings;
        var n, read := dev.Read(bufs, sizes, OFFSET);
        if !read {
          return [], false;
        }
        TakeBatch(n, readings[0].packets);
      }
    }

    /** Refuses empty and oversized packets; hands the driver the packet itself behind the room for its header. */
    method WritePacket(b: Bytes) returns (ok: bool)
      requires Valid()
      modifies dev`written, dev`refusals
      ensures dev.written == if ok then old(dev.written) + [Handed(16, b)] else old(dev.written)
      ensures ok <==> 1 <= |b| <= 1280 && dev.refusals == old(dev.refusals)
    {
      if |b| == 0 || |b| > MTU {
        return false;
      }
      var buf := new byte[|b| + OFFSET];
      forall k | 0 <= k < |b| {
        buf[OFFSET + k] := b[k];
      }
      assert buf[OFFSET..] == b;
      ok := dev.Write(buf, OFFSET);
    }

    /** The driver is closed once, and every call reports how that went. */
    method Close() returns (ok: bool)
      requires Valid()
      modifies `closed, `closeOk, dev`closes
      ensures Valid() && closed && ok == closeOk
      ensures old(closed) ==> closeOk == old(closeOk)
    {
      if !closed {
        closeOk := dev.Close();
        closed := true;
      }
      ok := closeOk;
    }
  }
}
