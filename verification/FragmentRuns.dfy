/**
 Whole runs of the assembler: any fragments, in any order, at any times, with any
 choice of evicted ids.
 */
module FragmentRuns {
  import opened Octets
  import opened Fragments

  /** One arrival: the decoded fragment, the clock, and the id dropped if the filter is full. */
  datatype Event = Event(frame: Frame, now: int, victim: Id)

  function StateAt(es: seq<Event>, n: nat): State
    requires n <= |es|
  {
    if n == 0 then EMPTY else Step(StateAt(es, n - 1), es[n - 1]).0
  }

  function Step(s: State, e: Event): (State, Outcome) {
    Next(s, e.frame, e.now, e.victim)
  }

  function OutcomeAt(es: seq<Event>, i: nat): Outcome
    requires i < |es|
  {
    Step(StateAt(es, i), es[i]).1
  }

  function FrameAt(es: seq<Event>, i: nat): Frame
    requires i < |es|
  {
    es[i].frame
  }

  predicate EvictsAt(es: seq<Event>, i: nat)
    requires i < |es|
  {
    Evicts(StateAt(es, i), es[i].frame, es[i].now)
  }

  predicate Legal(es: seq<Event>) {
    forall i :: 0 <= i < |es| ==> LegalVictim(StateAt(es, i), es[i].frame, es[i].now, es[i].victim)
  }

  predicate Monotone(es: seq<Event>) {
    forall i, j :: 0 <= i <= j < |es| ==> es[i].now <= es[j].now
  }

  lemma PrefixState(es: seq<Event>, more: seq<Event>, n: nat)
    requires n <= |es|
    ensures StateAt(es + more, n) == StateAt(es, n)
  {
    if n > 0 {
      PrefixState(es, more, n - 1);
      assert (es + more)[n - 1] == es[n - 1];
    }
  }

  // ---------------------------------------------------------------- the state invariant

  ghost predicate HalfFull(p: Partial) {
    && p.count == 2
    && (p.first.Some? <==> p.second.None?)
    && (p.first.Some? ==> |p.first.value| == 900)
    && (p.second.Some? ==> 1 <= |p.second.value| <= 380)
  }

  ghost predicate Inv(s: State) {
    && |s.pending| <= 64
    && |s.completed| <= 4096
    && s.pending.Keys !! s.completed.Keys
    && forall id :: id in s.pending ==> HalfFull(s.pending[id])
  }

  ghost predicate AllRecent(s: State, now: int) {
    && (forall id :: id in s.pending ==> now - s.pending[id].at <= 2_000_000_000)
    && (forall id :: id in s.completed ==> now - s.completed[id] <= 2_000_000_000)
  }

  lemma SubsetSize<T>(a: set<T>, b: set<T>)
    requires a <= b
    ensures |a| <= |b|
  {
    assert b == a + (b - a);
  }

  lemma ExpireKeepsInv(s: State, now: int)
    requires Inv(s)
    ensures Inv(Expire(s, now)) && AllRecent(Expire(s, now), now)
  {
    var e := Expire(s, now);
    SubsetSize(e.pending.Keys, s.pending.Keys);
    SubsetSize(e.completed.Keys, s.completed.Keys);
    assert |e.pending| == |e.pending.Keys| && |s.pending| == |s.pending.Keys|;
    assert |e.completed| == |e.completed.Keys| && |s.completed| == |s.completed.Keys|;
  }

  lemma RememberSize(c: map<Id, int>, id: Id, now: int, victim: Id)
    requires id !in c && |c| <= MAX_COMPLETED
    requires |c| >= MAX_COMPLETED ==> victim in c
    ensures |Remember(c, id, now, victim)| <= MAX_COMPLETED
    ensures Remember(c, id, now, victim).Keys <= c.Keys + {id}
  {
    if |c| >= MAX_COMPLETED {
      assert (c - {victim}).Keys == c.Keys - {victim};
      assert |c - {victim}| == |c| - 1;
    }
    var d := if |c| >= MAX_COMPLETED then c - {victim} else c;
    assert d[id := now].Keys == d.Keys + {id};
  }

  lemma StoreKeepsInv(s: State, id: Id, q: Partial, now: int)
    requires Inv(s) && AllRecent(s, now) && !Refused(s, id) && HalfFull(q) && now - q.at <= LIFETIME
    ensures Inv(s.(pending := s.pending[id := q])) && AllRecent(s.(pending := s.pending[id := q]), now)
  {
    var m := s.pending[id := q];
    assert m.Keys == s.pending.Keys + {id};
    assert |m| == |m.Keys| && |s.pending| == |s.pending.Keys|;
  }

  lemma CompleteKeepsInv(s: State, id: Id, now: int, victim: Id)
    requires Inv(s) && AllRecent(s, now) && id !in s.completed
    requires |s.completed| >= MAX_COMPLETED ==> victim in s.completed
    ensures var s' := State(s.pending - {id}, Remember(s.completed, id, now, victim)); Inv(s') && AllRecent(s', now)
  {
    RememberSize(s.completed, id, now, victim);
    var m := s.pending - {id};
    SubsetSize(m.Keys, s.pending.Keys);
    assert |m| == |m.Keys| && |s.pending| == |s.pending.Keys|;
  }

  lemma AcceptKeepsInv(s: State, fr: Frame, now: int, victim: Id)
    requires fr.Good? && Inv(s) && AllRecent(s, now)
    requires Accept(s, fr, now, victim).1.Emitted? && |s.completed| >= MAX_COMPLETED ==> victim in s.completed
    ensures var (s', r) := Accept(s, fr, now, victim);
      Inv(s') && AllRecent(s', now) && (r.Emitted? ==> 1 <= |r.packet| <= MTU)
  {
    var r := Accept(s, fr, now, victim).1;
    var p := Entry(s, fr.id, fr.count, now);
    if !Refused(s, fr.id) && p.count == fr.count && p.Part(fr.idx).None? {
      var q := p.With(fr.idx, fr.data);
      if q.Complete() {
        CompleteKeepsInv(s, fr.id, now, victim);
      } else {
        assert p == Partial(now, None, None, fr.count);
        StoreKeepsInv(s, fr.id, q, now);
      }
    }
  }

  lemma PushKeepsInv(s: State, e: Event)
    requires Inv(s) && LegalVictim(s, e.frame, e.now, e.victim)
    ensures var (s', r) := Step(s, e);
      && Inv(s')
      && (e.frame.Good? ==> AllRecent(s', e.now))
      && (e.frame.Bad? ==> s' == s)
      && (r.Emitted? ==> 1 <= |r.packet| <= MTU)
  {
    if e.frame.Good? {
      ExpireKeepsInv(s, e.now);
      AcceptKeepsInv(Expire(s, e.now), e.frame, e.now, e.victim);
    }
  }

  /** After every push of every run the assembler is bounded, half-full entries only, and recent. */
  lemma {:induction false} RunInvariant(es: seq<Event>, n: nat)
    requires Legal(es) && n <= |es|
    ensures Inv(StateAt(es, n))
    ensures n > 0 && FrameAt(es, n - 1).Good? ==> AllRecent(StateAt(es, n), es[n - 1].now)
    ensures n > 0 && OutcomeAt(es, n - 1).Emitted? ==> 1 <= |OutcomeAt(es, n - 1).packet| <= 1280
  {
    if n > 0 {
      RunInvariant(es, n - 1);
      PushKeepsInv(StateAt(es, n - 1), es[n - 1]);
    }
  }

  // ---------------------------------------------------------------- at most once

  lemma EmittedCompletes(s: State, e: Event)
    requires Step(s, e).1.Emitted?
    ensures e.frame.Good?
    ensures e.frame.id in Step(s, e).0.completed && Step(s, e).0.completed[e.frame.id] == e.now
  {
  }

  lemma CompletedStays(s: State, e: Event, id: Id)
    requires id in s.completed && e.now - s.completed[id] <= LIFETIME
    requires Evicts(s, e.frame, e.now) ==> e.victim != id
    ensures id in Step(s, e).0.completed && Step(s, e).0.completed[id] == s.completed[id]
  {
    if e.frame.Good? {
      ExpiryKeeps(s, e.now, id);
      hide Expire, Remember;
      var x := Expire(s, e.now);
      if Accept(x, e.frame, e.now, e.victim).1.Emitted? {
        RememberKeeps(x.completed, e.frame.id, e.now, e.victim, id);
      }
    }
  }

  lemma ExpiryKeeps(s: State, now: int, id: Id)
    requires id in s.completed && now - s.completed[id] <= LIFETIME
    ensures id in Expire(s, now).completed && Expire(s, now).completed[id] == s.completed[id]
  {
  }

  lemma RememberKeeps(completed: map<Id, int>, added: Id, now: int, victim: Id, id: Id)
    requires id in completed && added != id && (|completed| >= MAX_COMPLETED ==> victim != id)
    ensures id in Remember(completed, added, now, victim)
      && Remember(completed, added, now, victim)[id] == completed[id]
  {
  }

  lemma {:induction false} StaysCompleted(es: seq<Event>, i: nat, n: nat)
    requires i < n <= |es| && OutcomeAt(es, i).Emitted?
    requires forall k :: i < k < n ==> es[k].now - es[i].now <= LIFETIME
    requires forall k :: i < k < n && EvictsAt(es, k) ==> es[k].victim != FrameAt(es, i).id
    ensures FrameAt(es, i).id in StateAt(es, n).completed
    ensures StateAt(es, n).completed[FrameAt(es, i).id] == es[i].now
  {
    hide Step, Evicts;
    EmittedCompletes(StateAt(es, i), es[i]);
    if n > i + 1 {
      StaysCompleted(es, i, n - 1);
      assert !EvictsAt(es, n - 1) || es[n - 1].victim != FrameAt(es, i).id;
      CompletedStays(StateAt(es, n - 1), es[n - 1], FrameAt(es, i).id);
    }
  }

  /** An id is emitted a second time only after two seconds, or after the full filter dropped that very id. */
  lemma AtMostOnce(es: seq<Event>, i: nat, j: nat)
    requires Monotone(es) && i < j < |es|
    requires OutcomeAt(es, i).Emitted? && OutcomeAt(es, j).Emitted?
    requires FrameAt(es, i).id == FrameAt(es, j).id
    ensures es[j].now - es[i].now > 2_000_000_000
      || exists k :: i < k < j && EvictsAt(es, k) && es[k].victim == FrameAt(es, i).id
  {
    if es[j].now - es[i].now <= LIFETIME
      && forall k :: i < k < j && EvictsAt(es, k) ==> es[k].victim != FrameAt(es, i).id
    {
      StaysCompleted(es, i, j);
      assert false;
    }
  }

  /** An id is dropped from the filter only when it holds 4096 of the last two seconds. */
  lemma EvictsWhenFull(es: seq<Event>, k: nat)
    requires Legal(es) && k < |es| && EvictsAt(es, k)
    ensures |Expire(StateAt(es, k), es[k].now).completed| == 4096
  {
    RunInvariant(es, k);
    ExpireKeepsInv(StateAt(es, k), es[k].now);
  }

  // ---------------------------------------------------------------- completeness

  /** Push `i` starts a new entry: its id is unknown after expiry and fewer than 64 packets are open. */
  predicate Admits(es: seq<Event>, i: nat)
    requires i < |es|
  {
    && FrameAt(es, i).Good?
    && var s := Expire(StateAt(es, i), es[i].now);
       && FrameAt(es, i).id !in s.pending
       && !Refused(s, FrameAt(es, i).id)
  }

  /** Push `k` cannot complete the packet that push `i` opened: another id, a repeat, or a frame that is rejected. */
  predicate Harmless(es: seq<Event>, i: nat, k: nat)
    requires i < |es| && k < |es|
    requires FrameAt(es, i).Good?
  {
    var a, b := FrameAt(es, i), FrameAt(es, k);
    b.Good? && b.id == a.id && b.count == a.count ==> b.idx == a.idx
  }

  function Opened(es: seq<Event>, i: nat): Partial
    requires i < |es| && FrameAt(es, i).Good?
  {
    var a := FrameAt(es, i);
    Partial(es[i].now, None, None, a.count).With(a.idx, a.data)
  }

  /** Push `i` opened a two-part packet and up to `n` nothing has completed or expired it. */
  predicate OpenSince(es: seq<Event>, i: nat, n: nat)
    requires i < n <= |es|
  {
    && Admits(es, i)
    && FrameAt(es, i).count == 2
    && forall k :: i < k < n ==> Harmless(es, i, k) && (FrameAt(es, k).Good? ==> es[k].now - es[i].now <= 2_000_000_000)
  }

  lemma EntryOpens(s: State, e: Event)
    requires e.frame.Good? && e.frame.count == 2
    requires e.frame.id !in Expire(s, e.now).pending && !Refused(Expire(s, e.now), e.frame.id)
    ensures e.frame.id in Step(s, e).0.pending && e.frame.id !in Step(s, e).0.completed
    ensures Step(s, e).0.pending[e.frame.id] == Partial(e.now, None, None, 2).With(e.frame.idx, e.frame.data)
  {
  }

  /** A push of another id, a repeated part, or another count leaves a young entry alone. */
  lemma EntryStays(s: State, e: Event, id: Id)
    requires id in s.pending && id !in s.completed && s.pending[id].count == 2
    requires e.frame.Good? ==> e.now - s.pending[id].at <= LIFETIME
    requires e.frame.Good? && e.frame.id == id && e.frame.count == 2 ==> s.pending[id].Part(e.frame.idx).Some?
    ensures id in Step(s, e).0.pending && id !in Step(s, e).0.completed
    ensures Step(s, e).0.pending[id] == s.pending[id]
  {
    if e.frame.Good? {
      PendingUnexpired(s, e.now, id);
      hide Expire;
    }
  }

  lemma PendingUnexpired(s: State, now: int, id: Id)
    requires id in s.pending && id !in s.completed && now - s.pending[id].at <= LIFETIME
    ensures id in Expire(s, now).pending && Expire(s, now).pending[id] == s.pending[id]
      && id !in Expire(s, now).completed
  {
  }

  lemma {:induction false} OpenIsPending(es: seq<Event>, i: nat, n: nat)
    requires i < n <= |es| && OpenSince(es, i, n)
    ensures FrameAt(es, i).id in StateAt(es, n).pending
    ensures StateAt(es, n).pending[FrameAt(es, i).id] == Opened(es, i)
    ensures FrameAt(es, i).id !in StateAt(es, n).completed
  {
    hide Step, Expire, Refused;
    if n > i + 1 {
      assert OpenSince(es, i, n - 1);
      OpenIsPending(es, i, n - 1);
      assert Harmless(es, i, n - 1);
      EntryStays(StateAt(es, n - 1), es[n - 1], FrameAt(es, i).id);
    } else {
      EntryOpens(StateAt(es, i), es[i]);
    }
  }

  /** Entries hold one part of two, and none is of a completed id, whichever ids the full filter drops. */
  ghost predicate HalvesOnly(s: State) {
    forall id :: id in s.pending ==> HalfFull(s.pending[id]) && id !in s.completed
  }

  lemma StepKeepsHalves(s: State, e: Event)
    requires HalvesOnly(s)
    ensures HalvesOnly(Step(s, e).0)
  {
    if e.frame.Good? {
      var x := Expire(s, e.now);
      assert HalvesOnly(x);
      hide Expire;
      var y := Accept(x, e.frame, e.now, e.victim).0;
      forall id | id in y.pending
        ensures HalfFull(y.pending[id]) && id !in y.completed
      {
        if id in x.pending {
          assert HalfFull(x.pending[id]);
        }
      }
    }
  }

  lemma {:induction false} RunKeepsHalves(es: seq<Event>, n: nat)
    requires n <= |es|
    ensures HalvesOnly(StateAt(es, n))
  {
    hide Step;
    if n > 0 {
      RunKeepsHalves(es, n - 1);
      StepKeepsHalves(StateAt(es, n - 1), es[n - 1]);
    }
  }

  /** What one push leaves pending: entries it does not touch, and the one it opens. */
  lemma PendingAfter(s: State, e: Event, id: Id)
    requires HalvesOnly(s) && id in Step(s, e).0.pending
    ensures var p := Step(s, e).0.pending[id];
      || (&& e.frame.Good? && e.frame.id == id
          && id !in Expire(s, e.now).pending && !Refused(Expire(s, e.now), id)
          && p == Partial(e.now, None, None, e.frame.count).With(e.frame.idx, e.frame.data) && p.count == 2)
      || (&& id in s.pending && p == s.pending[id]
          && (e.frame.Good? ==> e.now - p.at <= LIFETIME)
          && (e.frame.Good? && e.frame.id == id && e.frame.count == 2 ==> p.Part(e.frame.idx).Some?))
  {
    if e.frame.Good? {
      var x := Expire(s, e.now);
      if id in x.pending {
        assert HalfFull(s.pending[id]);
      }
    }
  }

  /** The entry of `id` was there before the push, and survives it. */
  predicate Survives(s: State, e: Event, p: Partial, id: Id) {
    && id in s.pending && p == s.pending[id]
    && (e.frame.Good? ==> e.now - p.at <= LIFETIME)
    && (e.frame.Good? && e.frame.id == id && e.frame.count == 2 ==> p.Part(e.frame.idx).Some?)
  }

  predicate OpenFor(es: seq<Event>, i: nat, n: nat, id: Id)
    requires i < n <= |es|
  {
    OpenSince(es, i, n) && FrameAt(es, i).id == id
  }

  lemma OpensHere(es: seq<Event>, n: nat, id: Id)
    requires n < |es| && id in StateAt(es, n + 1).pending
    requires !Survives(StateAt(es, n), es[n], StateAt(es, n + 1).pending[id], id)
    ensures OpenSince(es, n, n + 1) && FrameAt(es, n).id == id
  {
    hide Refused, HalvesOnly, Step, Expire;
    RunKeepsHalves(es, n);
    PendingAfter(StateAt(es, n), es[n], id);
  }

  lemma StaysOpen(es: seq<Event>, i: nat, n: nat)
    requires i < n < |es| && OpenSince(es, i, n) && FrameAt(es, i).id in StateAt(es, n + 1).pending
    requires Survives(StateAt(es, n), es[n], StateAt(es, n + 1).pending[FrameAt(es, i).id], FrameAt(es, i).id)
    ensures OpenSince(es, i, n + 1)
  {
    hide Refused, Step, Expire, StateAt;
    OpenIsPending(es, i, n);
    assert Harmless(es, i, n);
  }

  lemma {:induction false} PendingIsOpen(es: seq<Event>, n: nat, id: Id)
    requires n <= |es| && id in StateAt(es, n).pending
    ensures exists i :: 0 <= i < n && OpenFor(es, i, n, id)
  {
    hide OpenSince, Step;
    if n == 0 {
    } else if Survives(StateAt(es, n - 1), es[n - 1], StateAt(es, n).pending[id], id) {
      PendingIsOpen(es, n - 1, id);
      var i :| 0 <= i < n - 1 && OpenFor(es, i, n - 1, id);
      StaysOpen(es, i, n - 1);
      assert OpenFor(es, i, n, id);
    } else {
      OpensHere(es, n - 1, id);
      assert OpenFor(es, n - 1, n, id);
    }
  }

  /** The history that makes push `j` deliver a two-part packet. */
  ghost predicate Completes(es: seq<Event>, i: nat, j: nat)
    requires i < j < |es|
  {
    && OpenSince(es, i, j)
    && FrameAt(es, j).Good?
    && FrameAt(es, j).id == FrameAt(es, i).id
    && FrameAt(es, j).count == 2
    && FrameAt(es, j).idx != FrameAt(es, i).idx
    && es[j].now - es[i].now <= 2_000_000_000
  }

  /** Emission is a property of the history alone, for one-part and for two-part packets. */
  lemma EmissionIff(es: seq<Event>, j: nat)
    requires j < |es| && FrameAt(es, j).Good?
    ensures OutcomeAt(es, j).Emitted? <==>
      (FrameAt(es, j).count == 1 && Admits(es, j)) || exists i :: 0 <= i < j && Completes(es, i, j)
  {
    var id := FrameAt(es, j).id;
    forall i | 0 <= i < j && Completes(es, i, j)
      ensures OutcomeAt(es, j).Emitted?
    {
      CompletionEmits(es, i, j);
    }
    if OutcomeAt(es, j).Emitted? && !Admits(es, j) {
      assert id in StateAt(es, j).pending;
      PendingIsOpen(es, j, id);
      var i :| 0 <= i < j && OpenSince(es, i, j) && FrameAt(es, i).id == id;
      OpenIsPending(es, i, j);
      assert Completes(es, i, j);
    }
  }

  /** A completed packet carries the bytes of the two pushes, in index order whatever the order of arrival. */
  lemma CompletionEmits(es: seq<Event>, i: nat, j: nat)
    requires i < j < |es| && Completes(es, i, j)
    ensures OutcomeAt(es, j) == Emitted(
      if FrameAt(es, i).idx == 0 then FrameAt(es, i).data + FrameAt(es, j).data
      else FrameAt(es, j).data + FrameAt(es, i).data)
  {
    OpenIsPending(es, i, j);
  }

  /** Nothing is delivered for an id between the push that opens it and the push that completes it. */
  lemma SilentWhileOpen(es: seq<Event>, i: nat, j: nat, k: nat)
    requires i < k < j <= |es| && OpenSince(es, i, j)
    requires FrameAt(es, k).Good? && FrameAt(es, k).id == FrameAt(es, i).id
    ensures !OutcomeAt(es, k).Emitted?
  {
    assert OpenSince(es, i, k);
    OpenIsPending(es, i, k);
    assert Harmless(es, i, k);
  }

  // ---------------------------------------------------------------- integrity

  /** Where a fragment came from: the number of the packet in the order of `WritePacket`, and the part. */
  datatype Origin = Origin(no: nat, idx: nat)

  /** The counter starts at zero and is incremented, with wrap-around, before each packet. */
  function IdOf(no: nat): Id {
    (no + 1) % 0x1_0000_0000
  }

  predicate Sendable(pkts: seq<Bytes>) {
    forall i :: 0 <= i < |pkts| ==> 1 <= |pkts[i]| <= MTU
  }

  predicate FragmentOf(frame: Frame, o: Origin, pkts: seq<Bytes>) {
    && o.no < |pkts|
    && o.idx < FragmentCount(|pkts[o.no]|)
    && frame == Decode(Encode(IdOf(o.no), o.idx, FragmentCount(|pkts[o.no]|), Chunk(pkts[o.no], o.idx)))
  }

  /** Arbitrary loss, reordering, duplication and delay of the fragments of `pkts`. */
  predicate FedBy(es: seq<Event>, origin: seq<Origin>, pkts: seq<Bytes>) {
    && Sendable(pkts)
    && |origin| == |es|
    && forall i :: 0 <= i < |es| ==> FragmentOf(es[i].frame, origin[i], pkts)
  }

  /** An id shared by two packets is safe when their fragments arrive more than two seconds apart. */
  predicate ReuseSafe(es: seq<Event>, origin: seq<Origin>)
    requires |origin| == |es|
  {
    forall i, j :: 0 <= i < j < |es| && IdOf(origin[i].no) == IdOf(origin[j].no) && origin[i].no != origin[j].no
      ==> es[j].now - es[i].now > 2_000_000_000
  }

  lemma DecodeFragment(frame: Frame, o: Origin, pkts: seq<Bytes>)
    requires Sendable(pkts) && FragmentOf(frame, o, pkts)
    ensures frame == Good(IdOf(o.no), o.idx, FragmentCount(|pkts[o.no]|), Chunk(pkts[o.no], o.idx))
  {
    DecodeEncode(IdOf(o.no), o.idx, FragmentCount(|pkts[o.no]|), Chunk(pkts[o.no], o.idx));
  }

  lemma ChunksJoin(b: Bytes)
    requires 1 <= |b| <= MTU
    ensures FragmentCount(|b|) == 1 ==> Chunk(b, 0) == b
    ensures FragmentCount(|b|) == 2 ==> Chunk(b, 0) + Chunk(b, 1) == b
    ensures 1 <= FragmentCount(|b|) <= 2
  {
  }

  /** The parts of pushes `i` and `j` in index order. */
  function Glued(es: seq<Event>, i: nat, j: nat): Bytes
    requires i < |es| && j < |es| && FrameAt(es, i).Good? && FrameAt(es, j).Good?
  {
    if FrameAt(es, i).idx == 0 then FrameAt(es, i).data + FrameAt(es, j).data
    else FrameAt(es, j).data + FrameAt(es, i).data
  }

  /**
   Push `j` meets the open entry that push `i` made under the same id, not over two seconds
   old, and does not fit it: it is of a one-part packet, or it is the other part by its index
   and not by its bytes.
   */
  predicate Clashes(es: seq<Event>, i: nat, j: nat, packet: Bytes)
    requires i < j < |es| && FrameAt(es, j).Good?
  {
    && OpenFor(es, i, j, FrameAt(es, j).id)
    && es[j].now - es[i].now <= 2_000_000_000
    && (FrameAt(es, j).count != 2 || (FrameAt(es, j).idx != FrameAt(es, i).idx && Glued(es, i, j) != packet))
  }

  /** Push `j` does not fail, and delivers this packet if it delivers one. */
  predicate Sound(es: seq<Event>, j: nat, packet: Bytes)
    requires j < |es|
  {
    !OutcomeAt(es, j).Failed? && (OutcomeAt(es, j).Emitted? ==> OutcomeAt(es, j).packet == packet)
  }

  lemma ClashSpoils(es: seq<Event>, i: nat, j: nat, packet: Bytes)
    requires i < j < |es| && FrameAt(es, j).Good? && Clashes(es, i, j, packet)
    ensures !Sound(es, j, packet)
  {
    OpenIsPending(es, i, j);
    if FrameAt(es, j).count == 2 {
      CompletionEmits(es, i, j);
    } else {
      PendingUnexpired(StateAt(es, j), es[j].now, FrameAt(es, j).id);
    }
  }

  lemma SpoiledByClash(es: seq<Event>, j: nat, packet: Bytes)
    requires j < |es| && FrameAt(es, j).Good? && !Sound(es, j, packet)
    requires FrameAt(es, j).count == 1 ==> FrameAt(es, j).data == packet
    ensures exists i :: 0 <= i < j && Clashes(es, i, j, packet)
  {
    var id := FrameAt(es, j).id;
    assert id in StateAt(es, j).pending;
    PendingIsOpen(es, j, id);
    var i :| 0 <= i < j && OpenFor(es, i, j, id);
    OpenIsPending(es, i, j);
    assert es[j].now - es[i].now <= LIFETIME;
    if FrameAt(es, j).count == 2 {
      CompletionEmits(es, i, j);
    }
    assert Clashes(es, i, j, packet);
  }

  /**
   The exact condition, for fragments of sent packets in any order, with any loss, repetition
   and delay, and any reuse of ids: a push goes wrong if and only if it clashes with an entry
   that an earlier push opened.
   */
  lemma IntegrityIff(es: seq<Event>, origin: seq<Origin>, pkts: seq<Bytes>, j: nat)
    requires FedBy(es, origin, pkts) && j < |es|
    ensures FrameAt(es, j).Good?
    ensures Sound(es, j, pkts[origin[j].no]) <==> !exists i :: 0 <= i < j && Clashes(es, i, j, pkts[origin[j].no])
  {
    hide Sound, Clashes;
    DecodeFragment(es[j].frame, origin[j], pkts);
    var packet := pkts[origin[j].no];
    ChunksJoin(packet);
    if Sound(es, j, packet) {
      forall i | 0 <= i < j
        ensures !Clashes(es, i, j, packet)
      {
        if Clashes(es, i, j, packet) {
          ClashSpoils(es, i, j, packet);
        }
      }
    } else {
      SpoiledByClash(es, j, packet);
    }
  }

  lemma OwnPartsFit(es: seq<Event>, origin: seq<Origin>, pkts: seq<Bytes>, i: nat, j: nat)
    requires FedBy(es, origin, pkts) && i < j < |es| && origin[i].no == origin[j].no
    ensures FrameAt(es, j).Good? && !Clashes(es, i, j, pkts[origin[j].no])
  {
    hide Admits;
    DecodeFragment(es[i].frame, origin[i], pkts);
    DecodeFragment(es[j].frame, origin[j], pkts);
    ChunksJoin(pkts[origin[j].no]);
  }

  /** If ids are reused only two seconds apart, no push fails and every packet delivered is the packet that was sent. */
  lemma Integrity(es: seq<Event>, origin: seq<Origin>, pkts: seq<Bytes>, j: nat)
    requires FedBy(es, origin, pkts) && ReuseSafe(es, origin) && j < |es|
    ensures !OutcomeAt(es, j).Failed?
    ensures OutcomeAt(es, j).Emitted? ==> OutcomeAt(es, j).packet == pkts[origin[j].no]
  {
    IntegrityIff(es, origin, pkts, j);
    forall i | 0 <= i < j
      ensures !Clashes(es, i, j, pkts[origin[j].no])
    {
      if origin[i].no == origin[j].no {
        OwnPartsFit(es, origin, pkts, i, j);
      } else {
        DecodeFragment(es[i].frame, origin[i], pkts);
        DecodeFragment(es[j].frame, origin[j], pkts);
      }
    }
  }

  lemma IdsDiffer(a: nat, b: nat)
    requires a < 0x1_0000_0000 && b < 0x1_0000_0000 && IdOf(a) == IdOf(b)
    ensures a == b
  {
  }

  /** Before the 32-bit counter wraps there is nothing to assume about time. */
  lemma IntegrityBeforeWrap(es: seq<Event>, origin: seq<Origin>, pkts: seq<Bytes>, j: nat)
    requires FedBy(es, origin, pkts) && |pkts| <= 0x1_0000_0000 && j < |es|
    ensures !OutcomeAt(es, j).Failed?
    ensures OutcomeAt(es, j).Emitted? ==> OutcomeAt(es, j).packet == pkts[origin[j].no]
  {
    forall a, b | 0 <= a < b < |es| && IdOf(origin[a].no) == IdOf(origin[b].no)
      ensures origin[a].no == origin[b].no
    {
      assert FragmentOf(es[a].frame, origin[a], pkts) && FragmentOf(es[b].frame, origin[b], pkts);
      IdsDiffer(origin[a].no, origin[b].no);
    }
    Integrity(es, origin, pkts, j);
  }

  /** Packet `no`, and the packet that has its id again after the counter has wrapped. */
  function Wrapped(no: nat): nat {
    no + 0x1_0000_0000
  }

  /** The first part of packet `no`, then the second part of its successor in the id. */
  function MixedRun(pkts: seq<Bytes>, no: nat, t0: int, t1: int): seq<Event>
    requires Wrapped(no) < |pkts| && CHUNK_SIZE < |pkts[no]| <= MTU && CHUNK_SIZE < |pkts[Wrapped(no)]| <= MTU
  {
    [Event(Decode(Encode(IdOf(no), 0, 2, Chunk(pkts[no], 0))), t0, 0),
     Event(Decode(Encode(IdOf(Wrapped(no)), 1, 2, Chunk(pkts[Wrapped(no)], 1))), t1, 0)]
  }

  /** Two packets the sender gives one id are glued together when their parts arrive within two seconds. */
  lemma UnsafeReuseMixes(pkts: seq<Bytes>, no: nat, t0: int, t1: int)
    requires Sendable(pkts) && Wrapped(no) < |pkts|
    requires CHUNK_SIZE < |pkts[no]| && CHUNK_SIZE < |pkts[Wrapped(no)]| && t1 - t0 <= LIFETIME
    ensures var es := MixedRun(pkts, no, t0, t1);
      && FedBy(es, [Origin(no, 0), Origin(Wrapped(no), 1)], pkts) && Legal(es)
      && OutcomeAt(es, 1) == Emitted(pkts[no][..CHUNK_SIZE] + pkts[Wrapped(no)][CHUNK_SIZE..])
      && (pkts[no][..CHUNK_SIZE] != pkts[Wrapped(no)][..CHUNK_SIZE] ==> !Sound(es, 1, pkts[Wrapped(no)]))
  {
    hide Sound, Legal, Encode, Decode, IdOf, FragmentOf;
    var es, q := MixedRun(pkts, no, t0, t1), pkts[Wrapped(no)];
    var a, b := Chunk(pkts[no], 0), Chunk(q, 1);
    MixedFrames(pkts, no, t0, t1);
    MixingPushes(es, IdOf(no), a, b);
    if a != q[..CHUNK_SIZE] {
      GluedDiffers(a, b, q);
      WrongPacket(es, 1, a + b, q);
    }
  }

  lemma WrongPacket(es: seq<Event>, j: nat, packet: Bytes, other: Bytes)
    requires j < |es| && OutcomeAt(es, j) == Emitted(packet) && packet != other
    ensures !Sound(es, j, other)
  {
  }

  lemma GluedDiffers(a: Bytes, b: Bytes, q: Bytes)
    requires |a| == CHUNK_SIZE <= |q| && a != q[..CHUNK_SIZE]
    ensures a + b != q
  {
    assert (a + b)[..CHUNK_SIZE] == a;
  }

  lemma SameId(no: nat)
    ensures IdOf(Wrapped(no)) == IdOf(no)
  {
  }

  lemma MixedFrames(pkts: seq<Bytes>, no: nat, t0: int, t1: int)
    requires Sendable(pkts) && Wrapped(no) < |pkts| && CHUNK_SIZE < |pkts[no]| && CHUNK_SIZE < |pkts[Wrapped(no)]|
    ensures var es := MixedRun(pkts, no, t0, t1);
      && es[0].frame == Good(IdOf(no), 0, 2, Chunk(pkts[no], 0))
      && es[1].frame == Good(IdOf(no), 1, 2, Chunk(pkts[Wrapped(no)], 1))
      && FedBy(es, [Origin(no, 0), Origin(Wrapped(no), 1)], pkts)
  {
    hide Encode, Decode, IdOf;
    SameId(no);
    DecodeEncode(IdOf(no), 0, 2, Chunk(pkts[no], 0));
    DecodeEncode(IdOf(no), 1, 2, Chunk(pkts[Wrapped(no)], 1));
  }

  lemma MixingPushes(es: seq<Event>, id: Id, a: Bytes, b: Bytes)
    requires |es| == 2 && es[0].frame == Good(id, 0, 2, a) && es[1].frame == Good(id, 1, 2, b)
    requires es[1].now - es[0].now <= LIFETIME
    ensures Legal(es) && OutcomeAt(es, 1) == Emitted(a + b)
  {
    var t0, t1 := es[0].now, es[1].now;
    assert StateAt(es, 0) == EMPTY;
    assert Expire(EMPTY, t0) == EMPTY;
    assert StateAt(es, 1) == State(map[id := Partial(t0, Some(a), None, 2)], map[]);
    assert Expire(StateAt(es, 1), t1) == StateAt(es, 1);
  }

  // ---------------------------------------------------------------- arrival

  lemma {:induction false} StaysUnknown(s: State, e: Event, id: Id)
    requires id !in s.pending && id !in s.completed && (e.frame.Good? ==> e.frame.id != id)
    ensures id !in Step(s, e).0.pending && id !in Step(s, e).0.completed
  {
    if e.frame.Good? {
      var x := Expire(s, e.now);
      assert id !in x.pending && id !in x.completed;
      assert id !in Remember(x.completed, e.frame.id, e.now, e.victim);
      hide Expire, Remember;
    }
  }

  lemma {:induction false} UnknownId(es: seq<Event>, n: nat, id: Id)
    requires n <= |es| && forall k :: 0 <= k < n && FrameAt(es, k).Good? ==> FrameAt(es, k).id != id
    ensures id !in StateAt(es, n).pending && id !in StateAt(es, n).completed
  {
    hide Step;
    if n > 0 {
      UnknownId(es, n - 1, id);
      assert es[n - 1].frame == FrameAt(es, n - 1);
      StaysUnknown(StateAt(es, n - 1), es[n - 1], id);
    }
  }

  /** The first fragment of an id is taken unless 64 packets are waiting. */
  lemma {:induction false} FirstIsAdmitted(es: seq<Event>, i: nat)
    requires i < |es| && FrameAt(es, i).Good?
    requires forall k :: 0 <= k < i && FrameAt(es, k).Good? ==> FrameAt(es, k).id != FrameAt(es, i).id
    ensures Admits(es, i) <==> |Expire(StateAt(es, i), es[i].now).pending| < 64
    ensures !Admits(es, i) ==> OutcomeAt(es, i) == Silent && StateAt(es, i + 1) == Expire(StateAt(es, i), es[i].now)
  {
    UnknownId(es, i, FrameAt(es, i).id);
  }

  /**
   Packets do arrive: when the first fragment of an id comes and fewer than 64 packets are waiting, and
   all else of that id up to the other fragment, within two seconds, are repeats, the packet is delivered.
   */
  lemma {:induction false} SentArrives(es: seq<Event>, origin: seq<Origin>, pkts: seq<Bytes>, i: nat, j: nat)
    requires FedBy(es, origin, pkts) && Monotone(es) && i <= j < |es| && origin[i].no == origin[j].no
    requires if |pkts[origin[j].no]| <= 900 then i == j else i < j && origin[i].idx != origin[j].idx
    requires forall k :: 0 <= k < i ==> IdOf(origin[k].no) != IdOf(origin[j].no)
    requires forall k :: i < k < j && IdOf(origin[k].no) == IdOf(origin[j].no) ==> origin[k] == origin[i]
    requires |Expire(StateAt(es, i), es[i].now).pending| < 64 && es[j].now - es[i].now <= 2_000_000_000
    ensures OutcomeAt(es, j) == Emitted(pkts[origin[j].no])
  {
    hide IdOf, Expire, Step, StateAt, Admits, FragmentCount, Chunk, Decode, Encode;
    var packet := pkts[origin[j].no];
    forall k | 0 <= k < |es|
      ensures FrameAt(es, k).Good? && FrameAt(es, k).id == IdOf(origin[k].no) && FrameAt(es, k).idx == origin[k].idx
      ensures FrameAt(es, k).count == FragmentCount(|pkts[origin[k].no]|)
      ensures FrameAt(es, k).data == Chunk(pkts[origin[k].no], origin[k].idx)
    {
      DecodeFragment(es[k].frame, origin[k], pkts);
    }
    FirstIsAdmitted(es, i);
    SplitIs(packet);
    if i < j {
      assert OpenSince(es, i, j);
      CompletionEmits(es, i, j);
      assert packet == packet[..900] + packet[900..];
    } else {
      OnePartEmits(es, j);
    }
  }

  lemma NothingWaits(es: seq<Event>, now: int)
    ensures StateAt(es, 0) == EMPTY && |Expire(EMPTY, now).pending| == 0
  {
    assert Expire(EMPTY, now).pending == map[];
  }

  /** For one, the first packet on a quiet link. */
  lemma FirstPacketArrives(p: Bytes, now: int)
    requires 1 <= |p| <= 900
    ensures OutcomeAt([Event(Decode(Encode(1, 0, 1, p)), now, 0)], 0) == Emitted(p)
  {
    var es, origin := [Event(Decode(Encode(1, 0, 1, p)), now, 0)], [Origin(0, 0)];
    SplitIs(p);
    NothingWaits(es, now);
    hide Decode, Encode, Step, Expire, StateAt, FragmentCount, Chunk;
    assert FragmentOf(es[0].frame, origin[0], [p]);
    SentArrives(es, origin, [p], 0, 0);
  }

  lemma {:induction false} OnePartEmits(es: seq<Event>, j: nat)
    requires j < |es| && Admits(es, j) && FrameAt(es, j).count == 1
    ensures OutcomeAt(es, j) == Emitted(FrameAt(es, j).data)
  {
    hide Expire;
  }
}
