/** Every request is read back as that request, and every reply to it as its acknowledgement. */
module SipTransactions {
  import opened Octets
  import opened SipText
  import opened SipWire
  import opened SipRoundTrip
  import opened SipRequests
  import opened SipExchange

  const MESSAGE := "MESSAGE"
  const OPTIONS := "OPTIONS"

  /** Bounds on what the transport puts into its own fields. The address is whatever the socket prints. */
  predicate GoodParty(proto: string, address: string, id: string) {
    (proto == "TCP" || proto == "TLS") && Clean(address) && |address| <= 256 && |id| == 24 && IsHex(id)
  }

  /** The extra fields of the authentication messages. */
  ghost predicate GoodExtra(extra: map<string, string>) {
    forall k :: k in extra ==> GoodValue(extra[k]) && |extra[k]| <= 64 && exists i :: 7 <= i < 10 && k == Name(i)
  }

  // ---------------------------------------------------------------- requests

  lemma CleanParts(a: string, b: string)
    requires Clean(a) && Clean(b)
    ensures Clean(a + b)
  {
  }

  lemma ViaIsGood(proto: string, address: string, branch: string)
    requires (proto == "TCP" || proto == "TLS") && Clean(address) && |address| <= 256 && |branch| == 20 && IsHex(branch)
    ensures var v := VERSION_SLASH + proto + " " + address + ";branch=z9hG4bK" + branch;
      GoodValue(v) && |v| <= MAX_VALUE
  {
    hide GoodValue, Clean, IsHex;
    var a, b, c := VERSION_SLASH, proto + " " + address + ";branch=z9hG4bK", branch;
    Literals();
    CleanParts(proto, " ");
    CleanParts(proto + " ", address);
    CleanParts(proto + " " + address, ";branch=z9hG4bK");
    HexIsGood(branch);
    Around(a, b, c);
    assert a + b + c == VERSION_SLASH + proto + " " + address + ";branch=z9hG4bK" + branch;
  }

  lemma Literals()
    ensures GoodValue(VERSION_SLASH) && Clean(";branch=z9hG4bK") && Clean(" ") && Clean(TAG)
    ensures Clean("TCP") && Clean("TLS") && GoodValue("0") && GoodValue(MESSAGE) && GoodValue(OPTIONS)
    ensures GoodValue(PEER) && GoodValue(OCTETS) && Clean(TARGET)
  {
    LongLiterals();
  }

  lemma LongLiterals()
    ensures GoodValue(PEER) && GoodValue(OCTETS) && Clean(TARGET)
  {
  }

  lemma DecimalGood(n: nat)
    ensures GoodValue(Decimal(n)) && NoSpace(Decimal(n))
  {
    hide Decimal;
  }

  lemma CSeqIsGood(seqNo: nat, verb: string)
    requires seqNo < 0x1_0000_0000_0000_0000 && (verb == MESSAGE || verb == OPTIONS)
    ensures GoodValue(CSeq(seqNo, verb)) && |CSeq(seqNo, verb)| <= MAX_VALUE
  {
    hide GoodValue, Decimal, Clean;
    DecimalGood(seqNo);
    Literals();
    Around(Decimal(seqNo), " ", verb);
    Power10Is20();
    DecimalLength(seqNo, 20);
  }

  lemma Power10Is20()
    ensures Power10(20) >= 0x1_0000_0000_0000_0000
  {
    assert Power10(4) == 10_000;
    assert Power10(8) == 100_000_000;
    assert Power10(12) == 1_000_000_000_000;
    assert Power10(16) == 10_000_000_000_000_000;
    assert Power10(20) == 100_000_000_000_000_000_000;
  }

  lemma TaggedIsGood(s: string, id: string)
    requires GoodValue(s) && IsHex(id) && id != ""
    ensures GoodValue(s + TAG + id)
  {
    HexIsGood(id);
    Literals();
    Around(s, TAG, id);
  }

  ghost predicate IsRequest(h: map<string, string>, proto: string, address: string, id: string, seqNo: nat,
      verb: string) {
    exists branch, extra :: |branch| == 20 && IsHex(branch) && GoodExtra(extra)
      && h == RequestBase(proto, address, branch, id, CSeq(seqNo, verb)) + extra
  }

  lemma BaseValues(proto: string, address: string, branch: string, id: string, seqNo: nat, verb: string)
    requires GoodParty(proto, address, id) && |branch| == 20 && IsHex(branch)
    requires seqNo < 0x1_0000_0000_0000_0000 && (verb == MESSAGE || verb == OPTIONS)
    ensures var h := RequestBase(proto, address, branch, id, CSeq(seqNo, verb));
      forall k :: k in h ==> GoodValue(h[k]) && |h[k]| <= MAX_VALUE
  {
    hide GoodValue, CSeq, IsHex, Clean;
    ViaIsGood(proto, address, branch);
    CSeqIsGood(seqNo, verb);
    Literals();
    HexIsGood(id);
    TaggedIsGood(PEER, id);
  }

  lemma BaseNames(proto: string, address: string, branch: string, id: string, cseq: string)
    ensures var h := RequestBase(proto, address, branch, id, cseq);
      && (forall k :: k in h ==> exists i :: 0 <= i < 7 && k == Name(i))
      && (forall i :: 0 <= i < 5 ==> Name(i) in h)
  {
    var h := RequestBase(proto, address, branch, id, cseq);
    forall k | k in h
      ensures exists i :: 0 <= i < 7 && k == Name(i)
    {
      if k == "Via" { assert k == Name(0); }
      else if k == "From" { assert k == Name(1); }
      else if k == "To" { assert k == Name(2); }
      else if k == "Call-ID" { assert k == Name(3); }
      else if k == "CSeq" { assert k == Name(4); }
      else if k == "Max-Forwards" { assert k == Name(5); }
      else { assert k == Name(6); }
    }
  }

  /** The two spellings of one name differ, so a map in one spelling never has both. */
  lemma SpellingsDiffer(i: nat, j: nat)
    requires i < 10 && j < 10
    ensures Name(i) != LowName(j)
  {
    var a, b := Name(i), LowName(j);
    assert 'A' <= a[0] <= 'Z' && 'a' <= b[0] <= 'z';
  }

  lemma RequestIsFieldMap(h: map<string, string>, proto: string, address: string, id: string, seqNo: nat, verb: string)
    requires GoodParty(proto, address, id) && IsRequest(h, proto, address, id, seqNo, verb)
    requires seqNo < 0x1_0000_0000_0000_0000 && (verb == MESSAGE || verb == OPTIONS)
    ensures FieldMap(h) && Short(h)
  {
    hide GoodValue, CSeq, IsHex, Name, LowName, GoodParty, RequestBase;
    var branch, extra :| |branch| == 20 && IsHex(branch) && GoodExtra(extra)
      && h == RequestBase(proto, address, branch, id, CSeq(seqNo, verb)) + extra;
    BaseValues(proto, address, branch, id, seqNo, verb);
    BaseNames(proto, address, branch, id, CSeq(seqNo, verb));
    forall k | k in h
      ensures GoodValue(h[k]) && |h[k]| <= MAX_VALUE && exists i :: Named(k, i)
    {
      var i: nat :| i < 10 && k == Name(i);
      assert Named(k, i);
    }
    forall i | 0 <= i < 10
      ensures !(Name(i) in h && LowName(i) in h)
    {
      if LowName(i) in h {
        var j: nat :| j < 10 && LowName(i) == Name(j);
        SpellingsDiffer(j, i);
      }
    }
  }

  // ---------------------------------------------------------------- what the reader copies

  lemma LineHasNoBreak(data: string, total: nat)
    requires ReadLine(data, total).Parsed?
    ensures '\n' !in ReadLine(data, total).value
  {
    var i := Find(data, '\n');
    FindFirst(data, '\n');
    var b := data[..i + 1];
    assert forall j :: 0 <= j < i ==> data[..i][j] == data[j];
  }

  lemma {:induction false} LinesHaveNoBreak(data: string, total: nat)
    ensures forall i :: 0 <= i < |ReadLines(data, total).0| ==> '\n' !in ReadLines(data, total).0[i]
    decreases |data|
  {
    hide Find, ReadSlice;
    var l := ReadLine(data, total);
    if l.Parsed? {
      LineHasNoBreak(data, total);
      if l.value != "" {
        LinesHaveNoBreak(l.rest, l.total);
      }
    }
  }

  predicate Copyable(v: string) {
    Trimmed(v) && '\n' !in v
  }

  lemma SuffixIn(line: string, i: nat)
    requires i <= |line|
    ensures forall c :: c in line[i..] ==> c in line
  {
  }

  lemma ValueIsCopyable(line: string)
    requires '\n' !in line
    ensures Copyable(Trim(line[if Find(line, ':') < |line| then Find(line, ':') + 1 else |line|..]))
  {
    hide Trim, Trimmed, Find;
    var i := if Find(line, ':') < |line| then Find(line, ':') + 1 else |line|;
    SuffixIn(line, i);
    TrimTrims(line[i..]);
  }

  lemma {:induction false} AddedAreCopyable(lines: seq<string>, read: map<string, string>)
    requires forall i :: 0 <= i < |lines| ==> '\n' !in lines[i]
    requires forall k :: k in read ==> Copyable(read[k])
    requires AddFields(lines, read).Read?
    ensures forall k :: k in AddFields(lines, read).m ==> Copyable(AddFields(lines, read).m[k])
    decreases |lines|
  {
    hide Copyable, Trim, Find;
    if lines != [] {
      var c := Find(lines[0], ':');
      var k := Lower(Trim(lines[0][..c]));
      ValueIsCopyable(lines[0]);
      AddedAreCopyable(lines[1..], read[k := Trim(lines[0][c + 1..])]);
    }
  }

  lemma {:induction false} NoneMissing(m: map<string, string>, i: nat)
    requires i <= |REQUIRED| && FirstMissing(m, i) == None
    ensures forall j :: i <= j < |REQUIRED| ==> Get(m, REQUIRED[j]) != ""
    decreases |REQUIRED| - i
  {
    if i < |REQUIRED| {
      NoneMissing(m, i + 1);
    }
  }

  /** The five fields a reply copies are present, trimmed and without newline, but may hold a lone carriage return. */
  lemma ParsedFields(data: string)
    requires ReadSip(data).Parsed?
    ensures var h := ReadSip(data).value.headers;
      forall j :: 0 <= j < |REQUIRED| ==> Get(h, REQUIRED[j]) != "" && Copyable(Get(h, REQUIRED[j]))
  {
    hide Copyable, ReadLines, AddFields, ReadLine, Atoi, FirstMissing;
    var h := ReadSip(data).value.headers;
    var first := ReadLine(data, 0);
    var lines := ReadLines(first.rest, first.total).0;
    LinesHaveNoBreak(first.rest, first.total);
    AddedAreCopyable(lines, map[]);
    assert AddFields(lines, map[]) == Read(h);
    NoneMissing(h, 0);
  }

  // ---------------------------------------------------------------- replies

  /** Some copied field holds a carriage return that the reader let through. */
  predicate Tainted(m: Message) {
    exists j :: 0 <= j < |REQUIRED| && '\r' in Get(m.headers, REQUIRED[j])
  }

  lemma CopyableIsGood(v: string)
    requires v != "" && Copyable(v) && '\r' !in v
    ensures GoodValue(v)
  {
  }

  lemma BreakInside(k: string, a: string, b: string)
    requires '\r' in a
    ensures HasBreak(k + a) && HasBreak(k + (a + b))
  {
    var i :| 0 <= i < |a| && a[i] == '\r';
    assert (k + a)[|k| + i] == '\r' && (k + (a + b))[|k| + i] == '\r';
  }

  lemma TaintedInjects(m: Message, id: string)
    requires Tainted(m)
    ensures Injects(ReplyBase(m, id))
  {
    hide HasBreak, Contains;
    var j :| 0 <= j < |REQUIRED| && '\r' in Get(m.headers, REQUIRED[j]);
    var k, v := REQUIRED[j], Get(m.headers, REQUIRED[j]);
    var h := ReplyBase(m, id);
    BreakInside(k, v, TAG + id);
    assert k in h && (h[k] == v || h[k] == v + (TAG + id));
    assert HasBreak(k + h[k]);
  }

  lemma ReplyValues(data: string, id: string)
    requires ReadSip(data).Parsed? && !Tainted(ReadSip(data).value) && IsHex(id) && id != ""
    ensures var h := ReplyBase(ReadSip(data).value, id); forall k :: k in h ==> GoodValue(h[k])
  {
    hide ReadSip, GoodValue, Copyable, Contains, IsHex, Get;
    var m := ReadSip(data).value;
    ParsedFields(data);
    forall j | 0 <= j < |REQUIRED|
      ensures GoodValue(Get(m.headers, REQUIRED[j]))
    {
      CopyableIsGood(Get(m.headers, REQUIRED[j]));
    }
    assert REQUIRED[0] == "via" && REQUIRED[1] == "from" && REQUIRED[2] == "to" && REQUIRED[3] == "call-id"
      && REQUIRED[4] == "cseq";
    TaggedIsGood(Get(m.headers, "to"), id);
  }

  lemma ReplyNames(m: Message, id: string)
    ensures var h := ReplyBase(m, id);
      && (forall k :: k in h ==> exists i :: 0 <= i < 5 && k == LowName(i))
      && (forall i :: 0 <= i < 5 ==> LowName(i) in h)
  {
    hide Contains, Get;
    var h := ReplyBase(m, id);
    forall k | k in h
      ensures exists i :: 0 <= i < 5 && k == LowName(i)
    {
      if k == "via" { assert k == LowName(0); }
      else if k == "from" { assert k == LowName(1); }
      else if k == "to" { assert k == LowName(2); }
      else if k == "call-id" { assert k == LowName(3); }
      else { assert k == LowName(4); }
    }
  }

  /** The fields of a reply to any untainted message can be printed, whatever extra fields are added. */
  lemma ReplyIsFieldMap(data: string, id: string, extra: map<string, string>)
    requires ReadSip(data).Parsed? && !Tainted(ReadSip(data).value) && IsHex(id) && id != "" && GoodExtra(extra)
    ensures FieldMap(ReplyBase(ReadSip(data).value, id) + extra)
  {
    hide ReadSip, GoodValue, IsHex, Name, LowName, ReplyBase, Tainted;
    var base := ReplyBase(ReadSip(data).value, id);
    var h := base + extra;
    ReplyValues(data, id);
    ReplyNames(ReadSip(data).value, id);
    forall k | k in h
      ensures GoodValue(h[k]) && exists i :: Named(k, i)
    {
      if k in extra {
        var i: nat :| 7 <= i < 10 && k == Name(i);
        assert Named(k, i);
      } else {
        var i: nat :| i < 5 && k == LowName(i);
        assert Named(k, i);
      }
    }
    forall i | 0 <= i < 10
      ensures !(Name(i) in h && LowName(i) in h)
    {
      if Name(i) in h && LowName(i) in h {
        if LowName(i) in extra {
          var j: nat :| 7 <= j < 10 && LowName(i) == Name(j);
          SpellingsDiffer(j, i);
        } else {
          var j: nat :| j < 5 && LowName(i) == LowName(j);
          LowNamesDiffer(i, j);
          if Name(i) in extra {
            var n: nat :| 7 <= n < 10 && Name(i) == Name(n);
            NameLowers(i);
            NameLowers(n);
            LowNamesDiffer(i, n);
          } else {
            var n: nat :| n < 5 && Name(i) == LowName(n);
            SpellingsDiffer(i, n);
          }
        }
      }
    }
  }

  lemma NotInjected(h: map<string, string>)
    requires FieldMap(h)
    ensures !Injects(h)
  {
    hide GoodValue, Name, LowName, HasBreak, GoodName;
    forall k | k in h
      ensures !HasBreak(k + h[k])
    {
      var i: nat :| Named(k, i);
      NamedIs(k, i);
      GoodHasNoBreak(k, h[k]);
    }
  }

  lemma GoodHasNoBreak(k: string, v: string)
    requires GoodName(k) && GoodValue(v)
    ensures !HasBreak(k + v)
  {
    hide Trimmed;
  }

  /** `reply` refuses a message that was read without complaint exactly when a copied field holds a carriage return. */
  lemma ReplyRefusedIff(data: string, id: string)
    requires ReadSip(data).Parsed? && IsHex(id) && id != ""
    ensures Injects(ReplyBase(ReadSip(data).value, id)) <==> Tainted(ReadSip(data).value)
  {
    hide ReadSip, ReplyBase, Tainted, Injects, FieldMap, IsHex;
    var m := ReadSip(data).value;
    if Tainted(m) {
      TaintedInjects(m, id);
    } else {
      ReplyIsFieldMap(data, id, map[]);
      assert ReplyBase(m, id) + map[] == ReplyBase(m, id);
      NotInjected(ReplyBase(m, id));
    }
  }

  /** The copied fields and the extra ones, and no other of the names in use. */
  predicate ReplyArrived(m: Message, first: string, base: map<string, string>, extra: map<string, string>) {
    && m.first == first && m.body == ""
    && (forall i :: 0 <= i < 5 ==> Get(m.headers, LowName(i)) == Get(base, LowName(i)))
    && (forall i :: 7 <= i < 10 ==> Get(m.headers, LowName(i)) == Get(extra, Name(i)))
  }

  /**
   The reply's reader, if and only if the reply fits it, gets back the copied fields, and a `To`
   that carries a tag (section 8.2.6.2 of RFC 3261).
   */
  lemma ReplyRead(data: string, id: string, extra: map<string, string>, status: string, order: seq<string>,
      rest: string)
    requires ReadSip(data).Parsed? && !Tainted(ReadSip(data).value) && IsHex(id) && id != "" && GoodExtra(extra)
    requires '\n' !in status
    requires Enumerates(order, ReplyBase(ReadSip(data).value, id) + extra)
    ensures var h := ReplyBase(ReadSip(data).value, id) + extra;
      ReadSip(Print(VERSION + status, h, order, "") + rest).Parsed? <==> Fits(VERSION + status, h, order, "")
    ensures var h := ReplyBase(ReadSip(data).value, id) + extra;
      var p := ReadSip(Print(VERSION + status, h, order, "") + rest);
      p.Parsed? ==> p.rest == rest && ReplyArrived(p.value, VERSION + status, ReplyBase(ReadSip(data).value, id), extra)
  {
    hide ReadSip, ReplyBase, Tainted, FieldMap, IsHex, Name, LowName, Print, Fits, Enumerates, Lower, GoodExtra, Sound;
    var m := ReadSip(data).value;
    var h, first := ReplyBase(m, id) + extra, VERSION + status;
    ReplyIsFieldMap(data, id, extra);
    FieldMapIsSound(first, h, "");
    RoundTrip(first, h, order, "", rest);
    ReplyNames(m, id);
    EnumeratedKeys(h, order);
    var p := ReadSip(Print(first, h, order, "") + rest);
    if p.Parsed? {
      forall i | 0 <= i < 5
        ensures Get(p.value.headers, LowName(i)) == Get(ReplyBase(m, id), LowName(i))
      {
        NotExtra(extra, i);
        LowNameLowers(i);
        assert LowName(i) in h && h[LowName(i)] == ReplyBase(m, id)[LowName(i)];
      }
      forall i | 7 <= i < 10
        ensures Get(p.value.headers, LowName(i)) == Get(extra, Name(i))
      {
        ExtraInReply(m, id, extra, i);
        ReadByName(p.value, first, h, "", i);
      }
    }
  }

  /**
   In plain words: a reply has the status, no body, the four fields of its request and its To, with a
   tag added if there was none, and the authentication fields it was given.
   */
  lemma ReplyMeans(m: Message, id: string, extra: map<string, string>, status: string, r: Message)
    requires ReplyArrived(r, VERSION + status, ReplyBase(m, id), extra)
    ensures r.first == "SIP/2.0 " + status && r.body == ""
    ensures forall k :: k in ["via", "from", "call-id", "cseq"] ==> Get(r.headers, k) == Get(m.headers, k)
    ensures var was, now := Get(m.headers, "to"), Get(r.headers, "to");
      if exists i :: 0 <= i <= |was| && ";tag=" <= was[i..] then now == was else now == was + ";tag=" + id
    ensures Get(r.headers, "x-tunnel-nonce") == Get(extra, "X-Tunnel-Nonce")
    ensures Get(r.headers, "x-tunnel-proof") == Get(extra, "X-Tunnel-Proof")
  {
    assert LowName(0) == "via" && LowName(1) == "from" && LowName(2) == "to";
    assert LowName(3) == "call-id" && LowName(4) == "cseq";
    assert LowName(8) == "x-tunnel-nonce" && LowName(9) == "x-tunnel-proof";
    assert Name(8) == "X-Tunnel-Nonce" && Name(9) == "X-Tunnel-Proof";
    hide LowName, Name, Get;
    GetBase(m, id);
  }

  lemma GetBase(m: Message, id: string)
    ensures var b := ReplyBase(m, id);
      && Get(b, "via") == Get(m.headers, "via") && Get(b, "from") == Get(m.headers, "from")
      && Get(b, "call-id") == Get(m.headers, "call-id") && Get(b, "cseq") == Get(m.headers, "cseq")
      && Get(b, "to") == if Contains(Get(m.headers, "to"), TAG) then Get(m.headers, "to")
                         else Get(m.headers, "to") + TAG + id
  {
    hide Contains;
  }

  lemma ExtraInReply(m: Message, id: string, extra: map<string, string>, i: nat)
    requires GoodExtra(extra) && 7 <= i < 10
    ensures var h := ReplyBase(m, id) + extra; LowName(i) !in h && Get(h, Name(i)) == Get(extra, Name(i))
  {
    hide Name, LowName, ReplyBase;
    ReplyNames(m, id);
    NotExtra(extra, i);
    var base := ReplyBase(m, id);
    if LowName(i) in base {
      var j: nat :| j < 5 && LowName(i) == LowName(j);
      LowNamesDiffer(i, j);
    }
    if Name(i) in base {
      var j: nat :| j < 5 && Name(i) == LowName(j);
      SpellingsDiffer(i, j);
    }
  }

  /** A field in the spelling of `request` is found under its low name, and a missing one is missing. */
  lemma ReadByName(m: Message, first: string, h: map<string, string>, body: string, i: nat)
    requires FieldMap(h) && ParsedFrom(m, first, h, body) && i < 10 && LowName(i) !in h
    ensures Get(m.headers, LowName(i)) == Get(h, Name(i))
  {
    hide Name, LowName, Lower, GoodValue;
    NameLowers(i);
    if Name(i) !in h && LowName(i) in m.headers {
      LowNamesDiffer(i, i);
      var k :| k in h && Lower(k) == LowName(i);
      var j: nat :| Named(k, j);
      NamedIs(k, j);
      LowNamesDiffer(i, j);
    }
  }

  lemma NotExtra(extra: map<string, string>, i: nat)
    requires GoodExtra(extra) && i < 10
    ensures LowName(i) !in extra
  {
    hide Name, LowName, GoodValue;
    if LowName(i) in extra {
      var j: nat :| 7 <= j < 10 && LowName(i) == Name(j);
      SpellingsDiffer(j, i);
    }
  }

  // ---------------------------------------------------------------- the read loop

  datatype Incoming = Acknowledges(cseq: string) | Carries(k: nat) | Drops

  /** How the read loop takes a message, before it looks at the order of numbers and at the sealed body. */
  function Classify(m: Message): Incoming {
    var cseq := Get(m.headers, "cseq");
    if VERSION <= m.first then if m.first == OK_LINE then Acknowledges(cseq) else Drops
    else
      var fields := Fields(cseq);
      if |fields| != 2 || fields[1] != MESSAGE || !(MESSAGE + " " <= m.first) then Drops
      else
        var k := ParseUint(fields[0]);
        if k.None? || Get(m.headers, "content-type") != OCTETS then Drops else Carries(k.value)
  }

  /** For every message: what is an acknowledgement, and what carries a packet and under which number. */
  lemma ClassifyIff(m: Message, c: string, k: nat)
    ensures Classify(m) == Acknowledges(c) <==> m.first == "SIP/2.0 200 OK" && c == Get(m.headers, "cseq")
    ensures Classify(m) == Carries(k) <==>
        && !("SIP/2.0 " <= m.first) && "MESSAGE " <= m.first
        && Get(m.headers, "content-type") == "application/octet-stream"
        && var fields := Fields(Get(m.headers, "cseq"));
           && |fields| == 2 && fields[0] != "" && fields[1] == "MESSAGE"
           && DigitsValue(fields[0]) == Some(k) && k < 18446744073709551616
  {
    hide Fields, DigitsValue, Get;
    assert OK_LINE[..8] == VERSION;
    assert MESSAGE + " " == "MESSAGE ";
  }

  lemma CSeqNumber(seqNo: nat)
    requires seqNo < 0x1_0000_0000_0000_0000
    ensures Fields(CSeq(seqNo, MESSAGE)) == [Decimal(seqNo), MESSAGE] && ParseUint(Decimal(seqNo)) == Some(seqNo)
  {
    hide Decimal, Fields, DigitsValue;
    DecimalGood(seqNo);
    FieldsOfTwo(Decimal(seqNo), MESSAGE);
    DecimalValue(seqNo);
  }

  /** A packet printed by `request` in any order is read back whole, with its sequence number and its sealed body. */
  lemma RequestRead(h: map<string, string>, order: seq<string>, proto: string, address: string, id: string, seqNo: nat,
                    verb: string, body: string, rest: string)
    requires GoodParty(proto, address, id) && IsRequest(h, proto, address, id, seqNo, verb)
    requires seqNo < 0x1_0000_0000_0000_0000 && (verb == MESSAGE || verb == OPTIONS)
    requires Enumerates(order, h) && |body| <= MAX_BODY
    ensures var p := ReadSip(Print(verb + TARGET, h, order, body) + rest);
      && p.Parsed? && p.rest == rest && ParsedFrom(p.value, verb + TARGET, h, body)
      && Get(p.value.headers, "cseq") == CSeq(seqNo, verb)
      && (verb == MESSAGE ==> Classify(p.value) == Carries(seqNo))
  {
    hide ReadSip, Print, IsRequest, FieldMap, Short, Fits, Sound, GoodParty, Classify, CSeq, Enumerates;
    RequestIsFieldMap(h, proto, address, id, seqNo, verb);
    TargetIsGood(verb);
    FieldMapIsSound(verb + TARGET, h, body);
    FieldMapFits(verb + TARGET, h, order, body);
    RoundTrip(verb + TARGET, h, order, body, rest);
    EnumeratedKeys(h, order);
    var m := ReadSip(Print(verb + TARGET, h, order, body) + rest).value;
    RequestFields(h, proto, address, id, seqNo, verb, m, body);
    if verb == MESSAGE {
      RequestCarries(m, seqNo);
    }
  }

  lemma TargetIsGood(verb: string)
    requires verb == MESSAGE || verb == OPTIONS
    ensures var first := verb + TARGET; '\n' !in first && GoodStart(first) && |first| <= 4000
  {
    var first := verb + TARGET;
    assert first[|first| - |VERSION_END|..] == VERSION_END;
    Literals();
    CleanParts(verb, TARGET);
    assert Clean(first);
  }

  lemma RequestFields(h: map<string, string>, proto: string, address: string, id: string, seqNo: nat, verb: string,
                      m: Message, body: string)
    requires IsRequest(h, proto, address, id, seqNo, verb) && ParsedFrom(m, verb + TARGET, h, body)
    ensures Get(m.headers, "cseq") == CSeq(seqNo, verb) && Get(m.headers, "content-type") == OCTETS
    ensures Get(m.headers, "to") == PEER && Get(m.headers, "from") == PEER + TAG + id && Get(m.headers, "call-id") == id
  {
    hide CSeq, GoodExtra, IsHex, Lower, LowName, Name, GoodParty, ParsedFrom, Get;
    var branch, extra :| |branch| == 20 && IsHex(branch) && GoodExtra(extra)
      && h == RequestBase(proto, address, branch, id, CSeq(seqNo, verb)) + extra;
    BaseNotExtra(extra);
    Spelled();
    FieldOf(m, verb + TARGET, h, body, "From");
    FieldOf(m, verb + TARGET, h, body, "To");
    FieldOf(m, verb + TARGET, h, body, "Call-ID");
    FieldOf(m, verb + TARGET, h, body, "CSeq");
    FieldOf(m, verb + TARGET, h, body, "Content-Type");
  }

  lemma FieldOf(m: Message, first: string, h: map<string, string>, body: string, k: string)
    requires ParsedFrom(m, first, h, body) && k in h
    ensures Get(m.headers, Lower(k)) == h[k]
  {
    hide Lower;
  }

  lemma Spelled()
    ensures Lower("From") == "from" && Lower("To") == "to" && Lower("Call-ID") == "call-id"
    ensures Lower("CSeq") == "cseq" && Lower("Content-Type") == "content-type"
  {
    NameLowers(1);
    NameLowers(2);
    NameLowers(3);
    NameLowers(4);
    NameLowers(6);
  }

  lemma BaseNotExtra(extra: map<string, string>)
    requires GoodExtra(extra)
    ensures "From" !in extra && "To" !in extra && "Call-ID" !in extra && "CSeq" !in extra && "Content-Type" !in extra
  {
    hide GoodValue;
  }

  lemma RequestCarries(m: Message, seqNo: nat)
    requires seqNo < 0x1_0000_0000_0000_0000
    requires m.first == MESSAGE + TARGET && Get(m.headers, "cseq") == CSeq(seqNo, MESSAGE)
    requires Get(m.headers, "content-type") == OCTETS
    ensures Classify(m) == Carries(seqNo)
  {
    hide CSeq, Fields, ParseUint, Decimal;
    CSeqNumber(seqNo);
    assert m.first[0] == 'M' && m.first[..8] == MESSAGE + " ";
  }

  // ---------------------------------------------------------------- request and reply

  lemma RequiredCopied(m: Message, first: string, h: map<string, string>, body: string, j: nat)
    requires FieldMap(h) && Short(h) && ParsedFrom(m, first, h, body) && j < 5
    ensures GoodValue(Get(m.headers, REQUIRED[j])) && |Get(m.headers, REQUIRED[j])| <= MAX_VALUE
  {
    hide GoodValue, Lower, Name, LowName, ParsedFrom;
    assert REQUIRED[j] in REQUIRED;
    RequiredNamed(h, REQUIRED[j]);
    var k :| k in h && Lower(k) == REQUIRED[j] && h[k] != "";
    FieldOf(m, first, h, body, k);
  }

  lemma RequestUntainted(m: Message, first: string, h: map<string, string>, body: string)
    requires FieldMap(h) && Short(h) && ParsedFrom(m, first, h, body)
    ensures !Tainted(m)
  {
    hide FieldMap, Short, ParsedFrom;
    forall j | 0 <= j < |REQUIRED|
      ensures '\r' !in Get(m.headers, REQUIRED[j])
    {
      RequiredCopied(m, first, h, body, j);
    }
  }

  lemma ReplyIsShort(m: Message, first: string, h: map<string, string>, body: string, id: string,
      extra: map<string, string>)
    requires FieldMap(h) && Short(h) && ParsedFrom(m, first, h, body) && GoodExtra(extra)
    requires Get(m.headers, "to") == PEER && |id| == 24
    ensures Short(ReplyBase(m, id) + extra)
  {
    hide FieldMap, Name, ParsedFrom, GoodValue, Contains;
    RequiredCopied(m, first, h, body, 0);
    RequiredCopied(m, first, h, body, 1);
    RequiredCopied(m, first, h, body, 3);
    RequiredCopied(m, first, h, body, 4);
  }

  lemma StatusIsGood(status: string)
    requires '\n' !in status && |status| <= 100
    ensures var first := VERSION + status; '\n' !in first && GoodStart(first) && |first| <= 4000
  {
  }

  /**
   A reply to a request, whatever authentication fields it adds, is never refused, always fits
   the reader, and is read back with the request's CSeq and its own fields.
   */
  lemma RequestAnswered(h: map<string, string>, order: seq<string>, proto: string, address: string, id: string,
      seqNo: nat,
                        verb: string, body: string, rest: string, data: string, peerId: string, status: string,
                        extra: map<string, string>, replyOrder: seq<string>, more: string)
    requires GoodParty(proto, address, id) && IsRequest(h, proto, address, id, seqNo, verb)
    requires seqNo < 0x1_0000_0000_0000_0000 && |body| <= MAX_BODY && (verb == MESSAGE || verb == OPTIONS)
    requires Enumerates(order, h) && data == Print(verb + TARGET, h, order, body) + rest
    requires |peerId| == 24 && IsHex(peerId) && GoodExtra(extra) && '\n' !in status && |status| <= 100
    requires ReadSip(data).Parsed? ==> Enumerates(replyOrder, ReplyBase(ReadSip(data).value, peerId) + extra)
    ensures ReadSip(data).Parsed? && !Injects(ReplyBase(ReadSip(data).value, peerId) + extra)
    ensures Fits(VERSION + status, ReplyBase(ReadSip(data).value, peerId) + extra, replyOrder, "")
    ensures var base := ReplyBase(ReadSip(data).value, peerId);
      var p := ReadSip(Print(VERSION + status, base + extra, replyOrder, "") + more);
      && p.Parsed? && p.rest == more && ReplyArrived(p.value, VERSION + status, base, extra)
      && Get(p.value.headers, "cseq") == CSeq(seqNo, verb)
  {
    hide ReadSip, Print, IsRequest, FieldMap, Short, Fits, GoodParty, GoodExtra, CSeq, Enumerates, ReplyBase, IsHex,
      Injects, Tainted, ParsedFrom, LowName, Name, Get;
    RequestRead(h, order, proto, address, id, seqNo, verb, body, rest);
    var m := ReadSip(data).value;
    RequestIsFieldMap(h, proto, address, id, seqNo, verb);
    RequestFields(h, proto, address, id, seqNo, verb, m, body);
    RequestUntainted(m, verb + TARGET, h, body);
    var base := ReplyBase(m, peerId);
    ReplyIsFieldMap(data, peerId, extra);
    NotInjected(base + extra);
    ReplyIsShort(m, verb + TARGET, h, body, peerId, extra);
    EnumeratedKeys(base + extra, replyOrder);
    StatusIsGood(status);
    FieldMapFits(VERSION + status, base + extra, replyOrder, "");
    ReplyRead(data, peerId, extra, status, replyOrder, more);
    ReplyCSeq(m, peerId);
  }

  /** The responder's reply to a packet is read back as the acknowledgement of exactly that packet's CSeq. */
  lemma Exchange(h: map<string, string>, order: seq<string>, proto: string, address: string, id: string, seqNo: nat,
                 body: string, rest: string, data: string, peerId: string, replyOrder: seq<string>, more: string)
    requires GoodParty(proto, address, id) && IsRequest(h, proto, address, id, seqNo, MESSAGE)
    requires seqNo < 0x1_0000_0000_0000_0000 && |body| <= MAX_BODY
    requires Enumerates(order, h) && data == Print(MESSAGE + TARGET, h, order, body) + rest
    requires |peerId| == 24 && IsHex(peerId)
    requires ReadSip(data).Parsed? ==> Enumerates(replyOrder, ReplyBase(ReadSip(data).value, peerId))
    ensures var m := ReadSip(data);
      && m.Parsed? && !Injects(ReplyBase(m.value, peerId))
      && var p := ReadSip(Print(OK_LINE, ReplyBase(m.value, peerId), replyOrder, "") + more);
         p.Parsed? && p.rest == more && Classify(p.value) == Acknowledges(CSeq(seqNo, MESSAGE))
  {
    hide ReadSip, Print, IsRequest, FieldMap, Short, Fits, GoodParty, CSeq, Enumerates, ReplyBase, IsHex, Injects,
      ReplyArrived, Get;
    var none: map<string, string> := map[];
    if ReadSip(data).Parsed? {
      assert ReplyBase(ReadSip(data).value, peerId) + none == ReplyBase(ReadSip(data).value, peerId);
    }
    assert VERSION + "200 OK" == OK_LINE;
    RequestAnswered(h, order, proto, address, id, seqNo, MESSAGE, body, rest, data, peerId, "200 OK",
                    none, replyOrder, more);
    var base := ReplyBase(ReadSip(data).value, peerId);
    assert base + none == base;
    EnumeratedKeys(base, replyOrder);
    var m := ReadSip(Print(OK_LINE, base, replyOrder, "") + more).value;
    IsAcknowledgement(m, base, none, seqNo);
  }

  lemma IsAcknowledgement(m: Message, base: map<string, string>, extra: map<string, string>, seqNo: nat)
    requires ReplyArrived(m, OK_LINE, base, extra) && Get(m.headers, "cseq") == CSeq(seqNo, MESSAGE)
    ensures Classify(m) == Acknowledges(CSeq(seqNo, MESSAGE))
  {
    hide CSeq, Get, LowName, Name;
    assert OK_LINE[..|VERSION|] == VERSION;
  }

  lemma ReplyCSeq(m: Message, id: string)
    ensures LowName(4) == "cseq" && Get(ReplyBase(m, id), "cseq") == Get(m.headers, "cseq")
  {
    hide Contains;
  }

  // ---------------------------------------------------------------- a message that cannot be answered

  /** A request with a carriage return in its Via field. */
  function Tainting(): map<string, string> {
    map["via" := "a\rb", "from" := "x", "to" := "x", "call-id" := "x", "cseq" := "x"]
  }

  function TaintingOrder(): seq<string> {
    ["via", "from", "to", "call-id", "cseq"]
  }

  function TaintingRequest(): string {
    Print(OPTIONS + TARGET, Tainting(), TaintingOrder(), "")
  }

  lemma TaintingNames(i: nat)
    requires i < 5
    ensures TaintingOrder()[i] == REQUIRED[i] == LowName(i) && LowName(i) in Tainting()
    ensures Tainting()[LowName(i)] == if i == 0 then "a\rb" else "x"
  {
  }

  lemma TaintingKeys(k: string)
    ensures k in Tainting() <==> exists i :: 0 <= i < 5 && k == LowName(i)
  {
    hide LowName;
    forall i | 0 <= i < 5
      ensures LowName(i) in Tainting()
    {
      TaintingNames(i);
    }
    if k in Tainting() {
      assert k in TaintingOrder();
      var i :| 0 <= i < 5 && TaintingOrder()[i] == k;
      TaintingNames(i);
    }
  }

  lemma TaintingEnumerated()
    ensures Enumerates(TaintingOrder(), Tainting())
  {
    hide LowName;
    var order := TaintingOrder();
    forall i, j | 0 <= i < j < |order|
      ensures order[i] != order[j]
    {
      TaintingNames(i);
      TaintingNames(j);
      LowNamesDiffer(i, j);
    }
  }

  lemma TaintingValues()
    ensures Trimmed("a\rb") && Trimmed("x") && '\n' !in "a\rb" && '\n' !in "x"
  {
  }

  lemma TaintingSound()
    ensures Sound(OPTIONS + TARGET, Tainting(), "")
  {
    hide LowName, Lower, GoodStart, Trimmed, Tainting, TaintingOrder;
    var h := Tainting();
    TargetIsGood(OPTIONS);
    TaintingValues();
    forall k | k in h
      ensures GoodField(k, h[k]) && Lower(k) == k != LENGTH
    {
      TaintingKeys(k);
      var i :| 0 <= i < 5 && k == LowName(i);
      TaintingNames(i);
      LowNameIsGood(i);
      LowNameLowers(i);
      LowNamesDiffer(i, i);
    }
    forall r | r in REQUIRED
      ensures r in h && Lower(r) == r && h[r] != ""
    {
      var i :| 0 <= i < 5 && REQUIRED[i] == r;
      TaintingNames(i);
      LowNameLowers(i);
    }
  }

  lemma {:induction false} ShortHeaders(h: map<string, string>, order: seq<string>)
    requires forall k :: k in order ==> k in h && |k| <= 16 && |h[k]| <= 16
    ensures |PrintHeaders(h, order)| <= 36 * |order|
  {
    if order != [] {
      ShortHeaders(h, order[1..]);
    }
  }

  lemma TaintingFits()
    ensures Fits(OPTIONS + TARGET, Tainting(), TaintingOrder(), "")
  {
    hide PrintHeaders;
    ShortHeaders(Tainting(), TaintingOrder());
  }

  /** Such a message exists: the reader takes it, and no reply to it can be sent. */
  lemma TaintedIsRead(id: string)
    requires IsHex(id) && id != ""
    ensures var p := ReadSip(TaintingRequest());
      p.Parsed? && Tainted(p.value) && Injects(ReplyBase(p.value, id))
  {
    hide ReadSip, Print, Fits, Sound, Enumerates, Injects, ReplyBase, IsHex, Lower, Tainting, TaintingOrder;
    TaintingSound();
    TaintingFits();
    TaintingEnumerated();
    var none := "";
    RoundTrip(OPTIONS + TARGET, Tainting(), TaintingOrder(), "", none);
    assert TaintingRequest() + none == TaintingRequest();
    TaintingNames(0);
    LowNameLowers(0);
    var m := ReadSip(TaintingRequest()).value;
    FieldOf(m, OPTIONS + TARGET, Tainting(), "", LowName(0));
    assert Get(m.headers, REQUIRED[0])[1] == '\r';
    ReplyRefusedIff(TaintingRequest(), id);
  }
}
