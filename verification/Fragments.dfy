/**
 The fragmenter and the bounded assembler of the media transport.

 `Assembler` is the source's object. `Next` is its step as a function of the
 state, the decoded fragment, the clock and the id that eviction happens to pick.
 */
module Fragments {
  import opened Octets

  const CHUNK_SIZE: int := 900
  const FRAGMENT_HEADER: int := 12
  const MAX_PENDING: int := 64
  const MAX_COMPLETED: int := 4096
  const MAGIC: Bytes := [0x54, 0x4C, 0x30, 0x31] // "TL01"

  /** Two seconds, in nanoseconds. */
  const LIFETIME: int := 2_000_000_000

  type Id = n: int | 0 <= n < 0x1_0000_0000

  // ---------------------------------------------------------------- splitting

  function FragmentCount(n: nat): nat {
    (n + CHUNK_SIZE - 1) / CHUNK_SIZE
  }

  function ChunkEnd(n: nat, i: nat): nat {
    if (i + 1) * CHUNK_SIZE < n then (i + 1) * CHUNK_SIZE else n
  }

  function Chunk(b: Bytes, i: nat): Bytes
    requires i < FragmentCount(|b|)
  {
    b[i * CHUNK_SIZE..ChunkEnd(|b|, i)]
  }

  /** A packet of up to 900 bytes is one part; one of up to 1280 is its first 900 bytes and the rest. */
  lemma SplitIs(b: Bytes)
    requires 1 <= |b| <= 1280
    ensures |b| <= 900 ==> FragmentCount(|b|) == 1 && Chunk(b, 0) == b
    ensures |b| > 900 ==> FragmentCount(|b|) == 2 && Chunk(b, 0) == b[..900] && Chunk(b, 1) == b[900..]
  {
  }

  /** Index and count are truncated to 16 bits, as the conversions in the source do. */
  function Encode(id: Id, idx: nat, count: nat, data: Bytes): Bytes {
    MAGIC + U32(id) + U16(idx % 0x1_0000) + U16(count % 0x1_0000) + data
  }

  method SplitPacket(id: Id, b: Bytes) returns (out: seq<Bytes>)
    ensures |out| == FragmentCount(|b|)
    ensures forall i :: 0 <= i < |out| ==> out[i] == Encode(id, i, |out|, Chunk(b, i))
  {
    var count := FragmentCount(|b|);
    out := [];
    for i := 0 to count
      invariant |out| == i
      invariant forall j :: 0 <= j < i ==> out[j] == Encode(id, j, count, Chunk(b, j))
    {
      var end := ChunkEnd(|b|, i);
      var f := new byte[FRAGMENT_HEADER + end - i * CHUNK_SIZE];
      var header := MAGIC + U32(id) + U16(i % 0x1_0000) + U16(count % 0x1_0000);
      assert |header| == FRAGMENT_HEADER;
      forall j | 0 <= j < FRAGMENT_HEADER {
        f[j] := header[j];
      }
      forall j | FRAGMENT_HEADER <= j < f.Length {
        f[j] := b[i * CHUNK_SIZE + j - FRAGMENT_HEADER];
      }
      assert f[..] == header + Chunk(b, i);
      out := out + [f[..]];
    }
  }

  // ---------------------------------------------------------------- decoding

  datatype PushError = InvalidFragment | InvalidDimensions | CountChanged

  datatype Outcome = Failed(error: PushError) | Silent | Emitted(packet: Bytes)

  datatype RawFrame = Bad(error: PushError) | Good(id: Id, idx: nat, count: nat, data: Bytes)

  /** What the header checks make of a received payload. */
  type Frame = f: RawFrame | f.Good? ==> GoodDimensions(f.idx, f.count, |f.data|) witness Bad(InvalidFragment)

  predicate GoodDimensions(idx: nat, count: nat, n: nat) {
    && 1 <= count <= 2
    && idx < count
    && 1 <= n <= CHUNK_SIZE
    && (idx < count - 1 ==> n == CHUNK_SIZE)
    && (idx == 1 ==> n <= MTU - CHUNK_SIZE)
  }

  function Decode(f: Bytes): (r: Frame)
    ensures r.Good? ==> f == Encode(r.id, r.idx, r.count, r.data)
  {
    if |f| < FRAGMENT_HEADER || f[..4] != MAGIC then Bad(InvalidFragment)
    else
      var idx := FromU16(f[8..10]);
      var count := FromU16(f[10..12]);
      if !GoodDimensions(idx, count, |f| - FRAGMENT_HEADER) then Bad(InvalidDimensions)
      else Good(FromU32(f[4..8]), idx, count, f[12..])
  }

  /**
   By the numbers: a fragment is accepted exactly if it starts with TL01, then has a 32-bit id and two
   16-bit numbers, high byte first, and is the only part, of 1 to 900 bytes, or the first of two, of 900
   bytes, or the second of two, of 1 to 380 bytes.
   */
  lemma DecodeIff(f: Bytes)
    ensures Decode(f).Good? <==>
        && |f| >= 12 && f[..4] == [0x54, 0x4C, 0x30, 0x31] && f[8] == 0 && f[10] == 0
        && ((f[9] == 0 && f[11] == 1 && 1 <= |f| - 12 <= 900)
            || (f[9] == 0 && f[11] == 2 && |f| - 12 == 900)
            || (f[9] == 1 && f[11] == 2 && 1 <= |f| - 12 <= 380))
    ensures Decode(f).Good? ==>
      var a: int, b: int, c: int, d: int := f[4], f[5], f[6], f[7];
      Decode(f) == Good(16777216 * a + 65536 * b + 256 * c + d, f[9], f[11], f[12..])
  {
    if |f| >= 12 {
      BigEndian(f[4..8]);
      BigEndian(f[8..12]);
      assert f[8..12][..2] == f[8..10] && f[8..12][2..] == f[10..12];
    }
  }

  lemma DecodeEncode(id: Id, idx: nat, count: nat, data: Bytes)
    requires GoodDimensions(idx, count, |data|)
    ensures Decode(Encode(id, idx, count, data)) == Good(id, idx, count, data)
  {
    var f := Encode(id, idx, count, data);
    assert f[..4] == MAGIC && f[4..8] == U32(id) && f[8..10] == U16(idx) && f[10..12] == U16(count) && f[12..] == data;
    U32Inverse(id);
    U16Inverse(idx);
    U16Inverse(count);
  }

  // ---------------------------------------------------------------- assembling

  datatype Partial = Partial(at: int, first: Option<Bytes>, second: Option<Bytes>, count: nat) {

    function Part(i: nat): Option<Bytes> {
      if i == 0 then first else second
    }

    function With(i: nat, data: Bytes): Partial {
      if i == 0 then this.(first := Some(data)) else this.(second := Some(data))
    }

    predicate Complete() {
      first.Some? && (count == 2 ==> second.Some?)
    }

    function Joined(): Bytes {
      (if first.Some? then first.value else []) + (if second.Some? then second.value else [])
    }
  }

  datatype State = State(pending: map<Id, Partial>, completed: map<Id, int>)

  const EMPTY: State := State(map[], map[])

  function Expire(s: State, now: int): State {
    State(map k | k in s.pending && now - s.pending[k].at <= LIFETIME :: s.pending[k],
          map k | k in s.completed && now - s.completed[k] <= LIFETIME :: s.completed[k])
  }

  function Remember(completed: map<Id, int>, id: Id, now: int, victim: Id): map<Id, int> {
    (if |completed| >= MAX_COMPLETED then completed - {victim} else completed)[id := now]
  }

  /** The entry a fragment of `id` works on in the expired state `s`. */
  function Entry(s: State, id: Id, count: nat, now: int): Partial {
    if id in s.pending then s.pending[id] else Partial(now, None, None, count)
  }

  predicate Refused(s: State, id: Id) {
    id in s.completed || (id !in s.pending && |s.pending| >= MAX_PENDING)
  }

  /** What one good fragment does to a state that has already been expired. */
  function Accept(s: State, fr: Frame, now: int, victim: Id): (State, Outcome)
    requires fr.Good?
  {
    var p := Entry(s, fr.id, fr.count, now);
    if Refused(s, fr.id) then (s, Silent)
    else if p.count != fr.count then (s, Failed(CountChanged))
    else if p.Part(fr.idx).Some? then (s, Silent)
    else
      var q := p.With(fr.idx, fr.data);
      if !q.Complete() then (s.(pending := s.pending[fr.id := q]), Silent)
      else (State(s.pending - {fr.id}, Remember(s.completed, fr.id, now, victim)), Emitted(q.Joined()))
  }

  function Next(s: State, fr: Frame, now: int, victim: Id): (State, Outcome) {
    if fr.Bad? then (s, Failed(fr.error)) else Accept(Expire(s, now), fr, now, victim)
  }

  /** Whether this push finds the duplicate filter full and drops one of its ids. */
  predicate Evicts(s: State, fr: Frame, now: int) {
    Next(s, fr, now, 0).1.Emitted? && |Expire(s, now).completed| >= MAX_COMPLETED
  }

  predicate LegalVictim(s: State, fr: Frame, now: int, victim: Id) {
    Evicts(s, fr, now) ==> victim in Expire(s, now).completed
  }

  /** One call of `push`: some id that may be evicted explains the new state and the result. */
  ghost predicate Pushes(s: State, f: Bytes, now: int, s': State, r: Outcome) {
    exists victim: Id :: LegalVictim(s, Decode(f), now, victim) && Next(s, Decode(f), now, victim) == (s', r)
  }

  class Assembler {
    var pending: map<Id, Partial>
    var completed: map<Id, int>

    ghost function Model(): State
      reads this
    {
      State(pending, completed)
    }

    constructor ()
      ensures Model() == EMPTY
    {
      pending, completed := map[], map[];
    }

    method ExpireEntries(now: int)
      modifies this
      ensures Model() == Expire(old(Model()), now)
    {
      var keys := pending.Keys;
      while keys != {}
        invariant keys <= pending.Keys <= old(pending).Keys && completed == old(completed)
        invariant forall k :: k in pending ==> pending[k] == old(pending)[k]
        invariant forall k :: k in old(pending) && k !in keys ==>
          (k in pending <==> now - old(pending)[k].at <= LIFETIME)
        decreases |keys|
      {
        var k :| k in keys;
        if now - pending[k].at > LIFETIME {
          pending := pending - {k};
        }
        keys := keys - {k};
      }
      assert pending == Expire(old(Model()), now).pending;
      keys := completed.Keys;
      while keys != {}
        invariant keys <= completed.Keys <= old(completed).Keys && pending == Expire(old(Model()), now).pending
        invariant forall k :: k in completed ==> completed[k] == old(completed)[k]
        invariant forall k :: k in old(completed) && k !in keys ==>
          (k in completed <==> now - old(completed)[k] <= LIFETIME)
        decreases |keys|
      {
        var k :| k in keys;
        if now - completed[k] > LIFETIME {
          completed := completed - {k};
        }
        keys := keys - {k};
      }
      assert completed == Expire(old(Model()), now).completed;
    }

    method Push(f: Bytes, now: int) returns (r: Outcome)
      modifies this
      ensures Pushes(old(Model()), f, now, Model(), r)
    {
      if |f| < FRAGMENT_HEADER || f[..4] != MAGIC {
        assert Next(Model(), Decode(f), now, 0) == (Model(), Failed(InvalidFragment));
        return Failed(InvalidFragment);
      }
      var id := FromU32(f[4..8]);
      var idx := FromU16(f[8..10]);
      var count := FromU16(f[10..12]);
      var data := f[12..];
      if !GoodDimensions(idx, count, |data|) {
        assert Next(Model(), Decode(f), now, 0) == (Model(), Failed(InvalidDimensions));
        return Failed(InvalidDimensions);
      }
      ExpireEntries(now);
      ghost var victim;
      r, victim := AcceptFragment(id, idx, count, data, now);
      assert Next(old(Model()), Decode(f), now, victim) == (Model(), r);
    }

    /** The part of `push` that follows the two expiry loops. */
    method AcceptFragment(id: Id, idx: nat, count: nat, data: Bytes, now: int) returns (r: Outcome, ghost v: Id)
      requires GoodDimensions(idx, count, |data|)
      modifies this
      ensures (Model(), r) == Accept(old(Model()), Good(id, idx, count, data), now, v)
      ensures r.Emitted? && |old(completed)| >= MAX_COMPLETED ==> v in old(completed)
    {
      hide Remember;
      v := 0;
      if id in completed || (id !in pending && |pending| >= MAX_PENDING) {
        return Silent, v;
      }
      if id !in pending {
        pending := pending[id := Partial(now, None, None, count)];
      }
      var p := pending[id];
      if p.count != count {
        return Failed(CountChanged), v;
      }
      if p.Part(idx).Some? {
        return Silent, v;
      }
      p := p.With(idx, data);
      pending := pending[id := p];
      for i := 0 to count
        invariant forall j :: 0 <= j < i ==> p.Part(j).Some?
      {
        if p.Part(i).None? {
          assert pending == old(pending)[id := p];
          return Silent, v;
        }
      }
      assert p.Part(0).Some? && (count == 2 ==> p.Part(1).Some?);
      pending := pending - {id};
      assert pending == old(pending) - {id};
      v := MarkCompleted(id, now);
      r := Emitted(p.Joined());
    }

    /** Bounds duplicate suppression: a full filter drops any one of its ids first. */
    method MarkCompleted(id: Id, now: int) returns (ghost v: Id)
      modifies this`completed
      ensures completed == Remember(old(completed), id, now, v)
      ensures |old(completed)| >= MAX_COMPLETED ==> v in old(completed)
    {
      v := 0;
      if |completed| >= MAX_COMPLETED {
        assert completed.Keys != {};
        var victim :| victim in completed;
        completed := completed - {victim};
        v := victim;
      }
      completed := completed[id := now];
    }
  }
}
