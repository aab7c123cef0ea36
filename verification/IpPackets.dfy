/**
 The length rules of section 3.1 of RFC 791 and section 3 of RFC 8200, and the source address of a
 packet that keeps them.
 */
module IpPackets {
  import opened Octets

  /** The checks, branch by branch. */
  predicate Valid(b: Bytes) {
    if |b| < 1 || |b| > MTU then false
    else if b[0] / 16 == 4 then
      |b| >= 20 && (b[0] % 16) * 4 >= 20 && (b[0] % 16) * 4 <= |b| && FromU16(b[2..4]) == |b|
    else if b[0] / 16 == 6 then
      |b| >= 40 && FromU16(b[4..6]) + 40 == |b|
    else false
  }

  /** Never out of bounds on a packet that passed the checks. */
  function Source(b: Bytes): Bytes
    requires Valid(b)
  {
    if b[0] / 16 == 4 then b[12..16] else b[8..24]
  }

  /**
   A packet by its fields; `control` are the eight bytes between the total length and the source of
   an IPv4 header.
   */
  datatype Packet =
    | V4(tos: byte, control: Bytes, source: Bytes, destination: Bytes, options: Bytes, payload: Bytes)
    | V6(traffic: int, flow: Bytes, hops: Bytes, source: Bytes, destination: Bytes, payload: Bytes)

  /** The field sizes of the two standards, within the MTU. */
  predicate WellFormed(p: Packet) {
    match p
    case V4(_, control, source, destination, options, payload) =>
      && |control| == 8 && |source| == 4 && |destination| == 4
      && |options| % 4 == 0 && |options| <= 40 && 20 + |options| + |payload| <= 1280
    case V6(traffic, flow, hops, source, destination, payload) =>
      && 0 <= traffic < 16 && |flow| == 3 && |hops| == 2 && |source| == 16 && |destination| == 16
      && 40 + |payload| <= 1280
  }

  function Print(p: Packet): Bytes
    requires WellFormed(p)
  {
    match p
    case V4(tos, control, source, destination, options, payload) =>
      [(4 * 16 + 5 + |options| / 4) as byte, tos] + U16(20 + |options| + |payload|) + control
    + source + destination + options + payload
    case V6(traffic, flow, hops, source, destination, payload) =>
      [(6 * 16 + traffic) as byte] + flow + U16(|payload|) + hops + source + destination + payload
  }

  function Parse(b: Bytes): Packet
    requires Valid(b)
  {
    if b[0] / 16 == 4 then
      var header := (b[0] % 16) * 4;
      V4(b[1], b[4..12], b[12..16], b[16..20], b[20..header], b[header..])
    else
      V6(b[0] % 16, b[1..4], b[6..8], b[8..24], b[24..40], b[40..])
  }

  lemma Piece(a: Bytes, b: Bytes, c: Bytes)
    ensures (a + b + c)[|a|..|a| + |b|] == b
  {
  }

  lemma PrintedV4(p: Packet)
    requires WellFormed(p) && p.V4?
    ensures Valid(Print(p)) && Parse(Print(p)) == p
  {
    hide FromU16;
    var n := 20 + |p.options| + |p.payload|;
    var first: byte := 4 * 16 + 5 + |p.options| / 4;
    var b := Print(p);
    U16Inverse(n);
    Piece([first, p.tos], U16(n), p.control + p.source + p.destination + p.options + p.payload);
    Piece([first, p.tos] + U16(n), p.control, p.source + p.destination + p.options + p.payload);
    Piece([first, p.tos] + U16(n) + p.control, p.source, p.destination + p.options + p.payload);
    Piece([first, p.tos] + U16(n) + p.control + p.source, p.destination, p.options + p.payload);
    Piece([first, p.tos] + U16(n) + p.control + p.source + p.destination, p.options, p.payload);
    Piece([first, p.tos] + U16(n) + p.control + p.source + p.destination + p.options, p.payload, []);
    SevenParts([first, p.tos], U16(n), p.control, p.source, p.destination, p.options, p.payload);
    assert b[0] == first && b[1] == p.tos && |b| == n;
  }

  lemma SevenParts(a: Bytes, b: Bytes, c: Bytes, d: Bytes, e: Bytes, f: Bytes, g: Bytes)
    ensures var all := a + b + c + d + e + f + g;
      && all == a + b + (c + d + e + f + g)
      && all == a + b + c + (d + e + f + g)
      && all == a + b + c + d + (e + f + g)
      && all == a + b + c + d + e + (f + g)
      && all == all + []
  {
  }

  lemma PrintedV6(p: Packet)
    requires WellFormed(p) && p.V6?
    ensures Valid(Print(p)) && Parse(Print(p)) == p
  {
    hide FromU16;
    var b := Print(p);
    U16Inverse(|p.payload|);
    assert |b| == 40 + |p.payload| && b[0] == 6 * 16 + p.traffic;
    assert b[1..4] == p.flow && b[4..6] == U16(|p.payload|) && b[6..8] == p.hops;
    assert b[8..24] == p.source && b[24..40] == p.destination && b[40..] == p.payload;
  }

  /** Every well-formed packet passes, its fields are read back, and its source is the source field. */
  lemma PrintedIsValid(p: Packet)
    requires WellFormed(p)
    ensures Valid(Print(p)) && Parse(Print(p)) == p && Source(Print(p)) == p.source
  {
    if p.V4? {
      PrintedV4(p);
    } else {
      PrintedV6(p);
    }
    hide Print, FromU16;
    assert Parse(Print(p)).source == Source(Print(p));
  }

  /** The smallest packet from 10.0.0.2 to 10.0.0.1. */
  lemma SmallestV4()
    ensures var b: Bytes := [0x45, 0, 0, 20, 0, 0, 0, 0, 64, 59, 0, 0] + [10, 0, 0, 2] + [10, 0, 0, 1];
      Valid(b) && Source(b) == [10, 0, 0, 2]
  {
    var b: Bytes := [0x45, 0, 0, 20, 0, 0, 0, 0, 64, 59, 0, 0] + [10, 0, 0, 2] + [10, 0, 0, 1];
    assert b[2..4] == [0, 20] && b[12..16] == [10, 0, 0, 2];
  }

  /** The smallest packet of version 6 from one address to another. */
  lemma SmallestV6(source: Bytes, destination: Bytes)
    requires |source| == |destination| == 16
    ensures var b: Bytes := [0x60, 0, 0, 0, 0, 0, 59, 64] + source + destination;
      Valid(b) && Source(b) == source
  {
    var b: Bytes := [0x60, 0, 0, 0, 0, 0, 59, 64] + source + destination;
    assert b[4..6] == [0, 0] && b[8..24] == source;
  }

  /** And only well-formed packets pass: what passes is the print of its fields. */
  lemma ValidIsPrinted(b: Bytes)
    requires Valid(b)
    ensures WellFormed(Parse(b)) && Print(Parse(b)) == b && Source(b) == Parse(b).source
  {
    if b[0] / 16 == 4 {
      ValidV4(b);
    } else {
      ValidV6(b);
    }
  }

  lemma ValidV4(b: Bytes)
    requires Valid(b) && b[0] / 16 == 4
    ensures WellFormed(Parse(b)) && Print(Parse(b)) == b
  {
    var header := (b[0] % 16) * 4;
    var p := Parse(b);
    assert U16(|b|) == b[2..4];
    assert 20 + |p.options| + |p.payload| == |b| && 4 * 16 + 5 + |p.options| / 4 == b[0];
    assert Print(p) == [b[0], b[1]] + b[2..4] + p.control + p.source + p.destination + p.options + p.payload;
    hide FromU16, U16, Print;
    assert b[..2] == [b[0], b[1]];
    CutV4(b, header);
  }

  lemma CutV4(b: Bytes, header: nat)
    requires 20 <= header <= |b|
    ensures b == b[..2] + b[2..4] + b[4..12] + b[12..16] + b[16..20] + b[20..header] + b[header..]
  {
  }

  lemma ValidV6(b: Bytes)
    requires Valid(b) && b[0] / 16 == 6
    ensures WellFormed(Parse(b)) && Print(Parse(b)) == b
  {
    assert U16(|b| - 40) == b[4..6];
    hide FromU16, U16;
    assert b[..1] == [b[0]];
    assert b == b[..1] + b[1..4] + b[4..6] + b[6..8] + b[8..24] + b[24..40] + b[40..];
  }
}
