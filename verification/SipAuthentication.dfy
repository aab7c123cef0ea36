/**
 The authentication exchange of the SIP transport, over the bytes: four messages in any
 enumeration order, each followed by anything, and a connection that may break after any
 of them. The keyed hash is a parameter; a key is the hash it is made from.
 */
module SipAuthentication {
  import opened Octets
  import opened SipWire
  import opened SipRoundTrip
  import opened SipRequests
  import opened SipExchange
  import opened SipTransactions

  /** `proof(token, label, challenge)`. */
  type Proof = (string, string, string) -> string

  datatype Keys = Keys(send: string, receive: string)

  const NONCE_LENGTH: int := 64

  /** What `randomHex(32)` and a hash in hexadecimal look like. */
  predicate IsNonce(s: string) {
    |s| == 64 && IsHex(s)
  }

  ghost predicate IsHash(proof: Proof) {
    forall t, l, c :: IsNonce(proof(t, l, c))
  }

  function VersionOf(m: Message): string {
    Get(m.headers, LowName(7))
  }

  function NonceOf(m: Message): string {
    Get(m.headers, LowName(8))
  }

  function ProofOf(m: Message): string {
    Get(m.headers, LowName(9))
  }

  function CSeqOf(m: Message): string {
    Get(m.headers, "cseq")
  }

  /** Each side sends with the key of its own label. */
  function SetKey(proof: Proof, token: string, challenge: string, server: bool): Keys {
    var c, s := proof(token, "client-key:", challenge), proof(token, "server-key:", challenge);
    if server then Keys(s, c) else Keys(c, s)
  }

  // ---------------------------------------------------------------- what each side does

  function HelloFields(nonce: string): map<string, string> {
    map[Name(7) := "1", Name(8) := nonce]
  }

  /** The fields of the first reply, if the first request is a handshake. */
  function Challenge(proof: Proof, token: string, m: Message, challenge: string): Option<map<string, string>> {
    if !(OPTIONS + " " <= m.first) || VersionOf(m) != "1" || |NonceOf(m)| != NONCE_LENGTH then None
    else Some(map[Name(8) := challenge, Name(9) := proof(token, "server:", NonceOf(m) + challenge)])
  }

  /** The fields of the second request, if the server's proof is right. */
  function Answer(proof: Proof, token: string, nonce: string, cseq: string, m: Message): Option<map<string, string>> {
    var challenge := NonceOf(m);
    if m.first != OK_LINE || CSeqOf(m) != cseq || |challenge| != NONCE_LENGTH
       || ProofOf(m) != proof(token, "server:", nonce + challenge) then None
    else Some(map[Name(9) := proof(token, "client:", nonce + challenge)])
  }

  predicate Admits(proof: Proof, token: string, nonce: string, challenge: string, m: Message) {
    OPTIONS + " " <= m.first && ProofOf(m) == proof(token, "client:", nonce + challenge)
  }

  function Status(admitted: bool): string {
    if admitted then "200 OK" else "403 Forbidden"
  }

  function Accept(proof: Proof, token: string, nonce: string, challenge: string, cseq: string,
      m: Message): Option<Keys> {
    if m.first != OK_LINE || CSeqOf(m) != cseq then None
    else Some(SetKey(proof, token, nonce + challenge, false))
  }

  // ---------------------------------------------------------------- the exchange

  datatype Secrets = Secrets(proof: Proof, mine: string, theirs: string, nonce: string, challenge: string)

  datatype Client = Client(proto: string, address: string, id: string, seqNo: nat)

  /**
   Whatever a peer sends: the server answers the first message and admits the second exactly when they
   are OPTIONS requests, the first of version 1 with a nonce of 64 characters, the second with the
   proof of the server's own token over both nonces.
   */
  lemma ServerAdmitsIff(proof: Proof, token: string, challenge: string, hello: Message, answer: Message)
    ensures var nonce := Get(hello.headers, "x-tunnel-nonce");
      Challenge(proof, token, hello, challenge).Some? && Admits(proof, token, NonceOf(hello), challenge, answer) <==>
        && "OPTIONS " <= hello.first && Get(hello.headers, "x-tunnel-version") == "1" && |nonce| == 64
        && "OPTIONS " <= answer.first
        && Get(answer.headers, "x-tunnel-proof") == proof(token, "client:", nonce + challenge)
    ensures var nonce := Get(hello.headers, "x-tunnel-nonce");
      Challenge(proof, token, hello, challenge).Some? ==>
        Challenge(proof, token, hello, challenge).value
        == map["X-Tunnel-Nonce" := challenge, "X-Tunnel-Proof" := proof(token, "server:", nonce + challenge)]
  {
    assert OPTIONS + " " == "OPTIONS ";
  }

  /**
   And the client takes the keys exactly when both replies are acceptances of its own requests, the
   first with a nonce of 64 characters and the proof of the client's own token over both nonces.
   */
  lemma ClientAcceptsIff(proof: Proof, token: string, nonce: string, cseq1: string, cseq2: string, reply: Message,
      last: Message)
    ensures var challenge := Get(reply.headers, "x-tunnel-nonce");
      && Answer(proof, token, nonce, cseq1, reply).Some?
      && Accept(proof, token, nonce, NonceOf(reply), cseq2, last).Some? <==>
        && reply.first == "SIP/2.0 200 OK" && Get(reply.headers, "cseq") == cseq1 && |challenge| == 64
        && Get(reply.headers, "x-tunnel-proof") == proof(token, "server:", nonce + challenge)
        && last.first == "SIP/2.0 200 OK" && Get(last.headers, "cseq") == cseq2
    ensures var challenge := Get(reply.headers, "x-tunnel-nonce");
      && (Answer(proof, token, nonce, cseq1, reply).Some? ==>
            Answer(proof, token, nonce, cseq1, reply).value
            == map["X-Tunnel-Proof" := proof(token, "client:", nonce + challenge)])
      && (Accept(proof, token, nonce, NonceOf(reply), cseq2, last).Some? ==>
            Accept(proof, token, nonce, NonceOf(reply), cseq2, last).value
            == Keys(proof(token, "client-key:", nonce + challenge), proof(token, "server-key:", nonce + challenge)))
  {
  }

  /** What each reader finds on its connection, message by message. */
  datatype Transcript = Transcript(hello: string, challenge: string, answer: string, last: string)

  datatype Result = Result(client: Option<Keys>, server: Option<Keys>)

  /** The two sides when `delivered` messages arrive; `written` says whether the server could write its last reply. */
  function Run(s: Secrets, cseq1: string, cseq2: string, t: Transcript, delivered: nat, written: bool): Result {
    var none := Result(None, None);
    var hello := ReadSip(t.hello);
    if delivered < 1 || hello.Failed? then none
    else if Challenge(s.proof, s.theirs, hello.value, s.challenge).None? then none
    else
      var challenge := ReadSip(t.challenge);
      if delivered < 2 || challenge.Failed? then none
      else if Answer(s.proof, s.mine, s.nonce, cseq1, challenge.value).None? then none
      else
        var answer := ReadSip(t.answer);
        if delivered < 3 || answer.Failed? then none
        else
          var admitted := Admits(s.proof, s.theirs, NonceOf(hello.value), s.challenge, answer.value);
          var server := if admitted && written
            then Some(SetKey(s.proof, s.theirs, NonceOf(hello.value) + s.challenge, true)) else None;
          var last := ReadSip(t.last);
          if delivered < 4 || last.Failed? then Result(None, server)
          else Result(Accept(s.proof, s.mine, s.nonce, NonceOf(challenge.value), cseq2, last.value), server)
  }

  /** A request with these fields, printed in some order and followed by anything. */
  ghost predicate Requests(data: string, c: Client, seqNo: nat, extra: map<string, string>) {
    exists h, order, rest :: IsRequestWith(h, c, seqNo, extra) && Enumerates(order, h)
      && data == Print(OPTIONS + TARGET, h, order, "") + rest
  }

  ghost predicate IsRequestWith(h: map<string, string>, c: Client, seqNo: nat, extra: map<string, string>) {
    exists branch :: |branch| == 20 && IsHex(branch)
      && h == RequestBase(c.proto, c.address, branch, c.id, CSeq(seqNo, OPTIONS)) + extra
  }

  /** A reply to `m` with these fields, printed in some order and followed by anything. */
  ghost predicate Replies(data: string, m: Message, id: string, status: string, extra: map<string, string>) {
    exists order, rest :: Enumerates(order, ReplyBase(m, id) + extra)
      && data == Print(VERSION + status, ReplyBase(m, id) + extra, order, "") + rest
  }

  /** Every message that is sent is what its sender prints. */
  ghost predicate Honest(s: Secrets, c: Client, serverId: string, t: Transcript) {
    && Requests(t.hello, c, c.seqNo, HelloFields(s.nonce))
    && (ReadSip(t.hello).Parsed? ==>
          var hello := ReadSip(t.hello).value;
          var fields := Challenge(s.proof, s.theirs, hello, s.challenge);
          fields.Some? ==> Replies(t.challenge, hello, serverId, "200 OK", fields.value))
    && (ReadSip(t.challenge).Parsed? ==>
          var fields := Answer(s.proof, s.mine, s.nonce, CSeq(c.seqNo, OPTIONS), ReadSip(t.challenge).value);
          fields.Some? ==> Requests(t.answer, c, c.seqNo + 1, fields.value))
    && (ReadSip(t.answer).Parsed? ==>
          var answer := ReadSip(t.answer).value;
          Replies(t.last, answer, serverId, Status(Admits(s.proof, s.theirs, s.nonce, s.challenge, answer)), map[]))
  }

  ghost predicate Proper(s: Secrets, c: Client, serverId: string) {
    && IsHash(s.proof) && IsNonce(s.nonce) && IsNonce(s.challenge)
    && GoodParty(c.proto, c.address, c.id) && c.seqNo + 1 < 0x1_0000_0000_0000_0000
    && |serverId| == 24 && IsHex(serverId)
  }

  // ---------------------------------------------------------------- the messages arrive

  lemma NonceIsGood(v: string)
    requires IsNonce(v)
    ensures GoodValue(v) && |v| <= 64
  {
    HexIsGood(v);
  }

  lemma ExtrasAreGood(a: string, b: string)
    requires IsNonce(a) && IsNonce(b)
    ensures GoodExtra(map[Name(7) := "1", Name(8) := a])
    ensures GoodExtra(map[Name(8) := a, Name(9) := b])
    ensures GoodExtra(map[Name(9) := a]) && GoodExtra(map[])
  {
    hide Name, GoodValue;
    NonceIsGood(a);
    NonceIsGood(b);
    OneIsGood();
  }

  lemma OneIsGood()
    ensures GoodValue("1")
  {
  }

  /** A request is read back, with its number and exactly its authentication fields. */
  lemma RequestArrives(data: string, c: Client, seqNo: nat, extra: map<string, string>)
    requires Requests(data, c, seqNo, extra) && GoodExtra(extra) && GoodParty(c.proto, c.address, c.id)
    requires seqNo < 0x1_0000_0000_0000_0000
    ensures ReadSip(data).Parsed?
    ensures var m := ReadSip(data).value;
      && m.first == OPTIONS + TARGET && CSeqOf(m) == CSeq(seqNo, OPTIONS)
      && forall i :: 7 <= i < 10 ==> Get(m.headers, LowName(i)) == Get(extra, Name(i))
  {
    hide ReadSip, Print, CSeq, GoodExtra, GoodParty, FieldMap, Short, LowName, Name, Get, RequestBase, IsHex;
    var h, order, rest :| IsRequestWith(h, c, seqNo, extra) && Enumerates(order, h)
      && data == Print(OPTIONS + TARGET, h, order, "") + rest;
    assert IsRequest(h, c.proto, c.address, c.id, seqNo, OPTIONS);
    RequestRead(h, order, c.proto, c.address, c.id, seqNo, OPTIONS, "", rest);
    RequestIsFieldMap(h, c.proto, c.address, c.id, seqNo, OPTIONS);
    var m := ReadSip(data).value;
    forall i | 7 <= i < 10
      ensures Get(m.headers, LowName(i)) == Get(extra, Name(i))
    {
      ExtraInRequest(h, c, seqNo, extra, i);
      ReadByName(m, OPTIONS + TARGET, h, "", i);
    }
  }

  lemma ExtraInRequest(h: map<string, string>, c: Client, seqNo: nat, extra: map<string, string>, i: nat)
    requires IsRequestWith(h, c, seqNo, extra) && GoodExtra(extra) && 7 <= i < 10
    ensures LowName(i) !in h && Get(h, Name(i)) == Get(extra, Name(i))
  {
    hide Name, LowName, RequestBase, CSeq, IsHex, GoodValue;
    var branch :| |branch| == 20 && IsHex(branch)
      && h == RequestBase(c.proto, c.address, branch, c.id, CSeq(seqNo, OPTIONS)) + extra;
    var base := RequestBase(c.proto, c.address, branch, c.id, CSeq(seqNo, OPTIONS));
    BaseNames(c.proto, c.address, branch, c.id, CSeq(seqNo, OPTIONS));
    NotExtra(extra, i);
    if LowName(i) in base {
      var j :| 0 <= j < 7 && LowName(i) == Name(j);
      SpellingsDiffer(j, i);
    }
    if Name(i) in base {
      var j :| 0 <= j < 7 && Name(i) == Name(j);
      NameLowers(i);
      NameLowers(j);
      LowNamesDiffer(i, j);
    }
  }

  /** The reply to a request is read back, with the request's number and exactly its own authentication fields. */
  lemma ReplyArrives(asked: string, c: Client, seqNo: nat, sent: map<string, string>, data: string, serverId: string,
      status: string, extra: map<string, string>)
    requires Requests(asked, c, seqNo, sent) && GoodExtra(sent) && GoodExtra(extra)
      && GoodParty(c.proto, c.address, c.id)
    requires seqNo < 0x1_0000_0000_0000_0000 && |serverId| == 24 && IsHex(serverId) && '\n' !in status
      && |status| <= 100
    requires ReadSip(asked).Parsed? && Replies(data, ReadSip(asked).value, serverId, status, extra)
    ensures ReadSip(data).Parsed?
    ensures var m := ReadSip(data).value;
      && m.first == VERSION + status && CSeqOf(m) == CSeq(seqNo, OPTIONS)
      && forall i :: 7 <= i < 10 ==> Get(m.headers, LowName(i)) == Get(extra, Name(i))
  {
    hide ReadSip, Print, CSeq, GoodExtra, GoodParty, Fits, Injects, LowName, Name, Get, RequestBase, ReplyBase, IsHex;
    var h, order, rest :| IsRequestWith(h, c, seqNo, sent) && Enumerates(order, h)
      && asked == Print(OPTIONS + TARGET, h, order, "") + rest;
    assert IsRequest(h, c.proto, c.address, c.id, seqNo, OPTIONS);
    var m := ReadSip(asked).value;
    var replyOrder, more :| Enumerates(replyOrder, ReplyBase(m, serverId) + extra)
      && data == Print(VERSION + status, ReplyBase(m, serverId) + extra, replyOrder, "") + more;
    RequestAnswered(h, order, c.proto, c.address, c.id, seqNo, OPTIONS, "", rest,
                    asked, serverId, status, extra, replyOrder, more);
  }

  lemma Starts()
    ensures OPTIONS + " " <= OPTIONS + TARGET && VERSION + "200 OK" == OK_LINE && VERSION + "403 Forbidden" != OK_LINE
  {
    assert TARGET[0] == ' ';
    assert (VERSION + "403 Forbidden")[8] == '4';
  }

  lemma NamesApart()
    ensures Name(7) != Name(8) && Name(7) != Name(9) && Name(8) != Name(9)
  {
  }

  // ---------------------------------------------------------------- the four messages

  lemma HelloTaken(s: Secrets, c: Client, serverId: string, t: Transcript)
    requires Proper(s, c, serverId) && Honest(s, c, serverId, t)
    ensures ReadSip(t.hello).Parsed? && NonceOf(ReadSip(t.hello).value) == s.nonce
    ensures Challenge(s.proof, s.theirs, ReadSip(t.hello).value, s.challenge)
      == Some(map[Name(8) := s.challenge, Name(9) := s.proof(s.theirs, "server:", s.nonce + s.challenge)])
  {
    hide ReadSip, Requests, Replies, Answer, Admits, GoodParty, Name, LowName, IsHex, GoodExtra;
    ExtrasAreGood(s.nonce, s.nonce);
    RequestArrives(t.hello, c, c.seqNo, HelloFields(s.nonce));
    Starts();
    NamesApart();
    assert Get(HelloFields(s.nonce), Name(7)) == "1";
  }

  lemma ChallengeTaken(s: Secrets, c: Client, serverId: string, t: Transcript)
    requires Proper(s, c, serverId) && Honest(s, c, serverId, t)
    ensures ReadSip(t.challenge).Parsed? && NonceOf(ReadSip(t.challenge).value) == s.challenge
    ensures var x := s.nonce + s.challenge;
      Answer(s.proof, s.mine, s.nonce, CSeq(c.seqNo, OPTIONS), ReadSip(t.challenge).value)
      == if s.proof(s.theirs, "server:", x) == s.proof(s.mine, "server:", x)
           then Some(map[Name(9) := s.proof(s.mine, "client:", x)])
           else None
  {
    hide ReadSip, Requests, Replies, Challenge, Admits, GoodParty, Name, LowName, IsHex, GoodExtra, CSeq;
    HelloTaken(s, c, serverId, t);
    var mac := s.proof(s.theirs, "server:", s.nonce + s.challenge);
    ExtrasAreGood(s.nonce, s.nonce);
    ExtrasAreGood(s.challenge, mac);
    Starts();
    NamesApart();
    ReplyArrives(t.hello, c, c.seqNo, HelloFields(s.nonce), t.challenge, serverId, "200 OK",
                 map[Name(8) := s.challenge, Name(9) := mac]);
  }

  lemma AnswerTaken(s: Secrets, c: Client, serverId: string, t: Transcript)
    requires Proper(s, c, serverId) && Honest(s, c, serverId, t)
    requires ReadSip(t.challenge).Parsed?
      && Answer(s.proof, s.mine, s.nonce, CSeq(c.seqNo, OPTIONS), ReadSip(t.challenge).value).Some?
    ensures ReadSip(t.answer).Parsed?
    ensures var x := s.nonce + s.challenge;
      Admits(s.proof, s.theirs, s.nonce, s.challenge, ReadSip(t.answer).value)
      <==> s.proof(s.mine, "client:", x) == s.proof(s.theirs, "client:", x)
  {
    hide ReadSip, Requests, Replies, Challenge, Answer, GoodParty, Name, LowName, IsHex, GoodExtra, CSeq;
    ChallengeTaken(s, c, serverId, t);
    var mac := s.proof(s.mine, "client:", s.nonce + s.challenge);
    ExtrasAreGood(mac, mac);
    Starts();
    RequestArrives(t.answer, c, c.seqNo + 1, map[Name(9) := mac]);
  }

  lemma LastTaken(s: Secrets, c: Client, serverId: string, t: Transcript)
    requires Proper(s, c, serverId) && Honest(s, c, serverId, t)
    requires ReadSip(t.challenge).Parsed?
      && Answer(s.proof, s.mine, s.nonce, CSeq(c.seqNo, OPTIONS), ReadSip(t.challenge).value).Some?
    ensures ReadSip(t.answer).Parsed? && ReadSip(t.last).Parsed?
    ensures Accept(s.proof, s.mine, s.nonce, s.challenge, CSeq(c.seqNo + 1, OPTIONS), ReadSip(t.last).value)
      == if Admits(s.proof, s.theirs, s.nonce, s.challenge, ReadSip(t.answer).value)
         then Some(SetKey(s.proof, s.mine, s.nonce + s.challenge, false)) else None
  {
    hide ReadSip, Requests, Replies, Challenge, Answer, Admits, GoodParty, Name, LowName, IsHex, GoodExtra, CSeq,
      SetKey;
    ChallengeTaken(s, c, serverId, t);
    AnswerTaken(s, c, serverId, t);
    var mac := s.proof(s.mine, "client:", s.nonce + s.challenge);
    ExtrasAreGood(mac, mac);
    Starts();
    var admitted := Admits(s.proof, s.theirs, s.nonce, s.challenge, ReadSip(t.answer).value);
    ReplyArrives(t.answer, c, c.seqNo + 1, map[Name(9) := mac], t.last, serverId, Status(admitted), map[]);
  }

  ghost predicate Agree(s: Secrets) {
    var x := s.nonce + s.challenge;
    s.proof(s.mine, "server:", x) == s.proof(s.theirs, "server:", x)
    && s.proof(s.mine, "client:", x) == s.proof(s.theirs, "client:", x)
  }

  /**
   For all orders of all header maps and anything that follows on the connections: the client
   gets keys exactly when the two tokens give the same two proofs and all four messages arrive;
   the server exactly when they do, three messages arrive, and it can write the fourth.
   */
  lemma Handshake(s: Secrets, c: Client, serverId: string, t: Transcript, delivered: nat, written: bool)
    requires Proper(s, c, serverId) && Honest(s, c, serverId, t) && (delivered >= 4 ==> written)
    ensures var r := Run(s, CSeq(c.seqNo, OPTIONS), CSeq(c.seqNo + 1, OPTIONS), t, delivered, written);
      && (r.client.Some? <==> Agree(s) && delivered >= 4)
      && (r.server.Some? <==> Agree(s) && delivered >= 3 && written)
      && var x := s.nonce + s.challenge;
      && (r.client.Some? ==>
            r.client.value == Keys(s.proof(s.mine, "client-key:", x), s.proof(s.mine, "server-key:", x)))
      && (r.server.Some? ==>
            r.server.value == Keys(s.proof(s.theirs, "server-key:", x), s.proof(s.theirs, "client-key:", x)))
  {
    hide ReadSip, Honest, Proper, Challenge, Answer, Admits, Accept, NonceOf, CSeq;
    HelloTaken(s, c, serverId, t);
    ChallengeTaken(s, c, serverId, t);
    if Answer(s.proof, s.mine, s.nonce, CSeq(c.seqNo, OPTIONS), ReadSip(t.challenge).value).Some? {
      AnswerTaken(s, c, serverId, t);
      LastTaken(s, c, serverId, t);
    }
  }

  /**
   With one token a client that gets keys has a server that got them, each receives with the key the
   other sends with, and a connection that holds gives both their keys.
   */
  lemma KeysAgree(s: Secrets, c: Client, serverId: string, t: Transcript, delivered: nat, written: bool)
    requires Proper(s, c, serverId) && Honest(s, c, serverId, t) && (delivered >= 4 ==> written) && s.mine == s.theirs
    ensures var r := Run(s, CSeq(c.seqNo, OPTIONS), CSeq(c.seqNo + 1, OPTIONS), t, delivered, written);
      && (delivered >= 4 ==> r.client.Some?)
      && (r.client.Some? ==> r.server.Some?)
      && (r.client.Some? ==> r.client.value.send == r.server.value.receive)
      && (r.client.Some? ==> r.client.value.receive == r.server.value.send)
  {
    hide Run, Honest, Proper, CSeq;
    Handshake(s, c, serverId, t, delivered, written);
  }

  /**
   Neither side gets keys if and only if the two tokens differ in one of the two proofs over these
   nonces, or the exchange is cut before the server could write its last reply.
   */
  lemma RefusedIff(s: Secrets, c: Client, serverId: string, t: Transcript, delivered: nat, written: bool)
    requires Proper(s, c, serverId) && Honest(s, c, serverId, t) && (delivered >= 4 ==> written)
    ensures Run(s, CSeq(c.seqNo, OPTIONS), CSeq(c.seqNo + 1, OPTIONS), t, delivered, written) == Result(None, None)
      <==> !Agree(s) || delivered < 3 || !written
  {
    hide Run, Honest, Proper, CSeq, Agree;
    Handshake(s, c, serverId, t, delivered, written);
  }

  /** Wrong tokens: whatever arrives and whatever is written, neither side gets keys. */
  lemma WrongTokenIsRefused(s: Secrets, c: Client, serverId: string, t: Transcript, delivered: nat, written: bool)
    requires Proper(s, c, serverId) && Honest(s, c, serverId, t) && (delivered >= 4 ==> written)
    requires var x := s.nonce + s.challenge;
      || s.proof(s.mine, "server:", x) != s.proof(s.theirs, "server:", x)
      || s.proof(s.mine, "client:", x) != s.proof(s.theirs, "client:", x)
    ensures Run(s, CSeq(c.seqNo, OPTIONS), CSeq(c.seqNo + 1, OPTIONS), t, delivered, written) == Result(None, None)
  {
    hide Run, Honest, Proper, CSeq;
    RefusedIff(s, c, serverId, t, delivered, written);
  }

  // ---------------------------------------------------------------- such exchanges exist

  lemma {:induction false} SomeOrder(h: map<string, string>, left: set<string>, taken: seq<string>)
    returns (order: seq<string>)
    requires left <= h.Keys && Distinct(taken) && forall k :: k in taken <==> k in h.Keys - left
    ensures Enumerates(order, h)
    decreases |left|
  {
    if left == {} {
      order := taken;
    } else {
      var k :| k in left;
      assert k !in taken;
      assert forall j :: j in taken + [k] <==> j in h.Keys - (left - {k});
      order := SomeOrder(h, left - {k}, taken + [k]);
    }
  }

  lemma SomeRequest(c: Client, seqNo: nat, extra: map<string, string>) returns (data: string)
    ensures Requests(data, c, seqNo, extra)
  {
    hide Enumerates, Print;
    var branch := seq(20, _ => '0');
    var h := RequestBase(c.proto, c.address, branch, c.id, CSeq(seqNo, OPTIONS)) + extra;
    assert IsRequestWith(h, c, seqNo, extra) by { assert |branch| == 20 && IsHex(branch); }
    var order := SomeOrder(h, h.Keys, []);
    data := Print(OPTIONS + TARGET, h, order, "") + "";
  }

  lemma SomeReply(m: Message, id: string, status: string, extra: map<string, string>) returns (data: string)
    ensures Replies(data, m, id, status, extra)
  {
    hide Enumerates, Print, ReplyBase;
    var h := ReplyBase(m, id) + extra;
    var order := SomeOrder(h, h.Keys, []);
    data := Print(VERSION + status, h, order, "") + "";
  }

  /** Whatever the secrets, the two sides have an exchange to print. */
  lemma HonestExists(s: Secrets, c: Client, serverId: string) returns (t: Transcript)
    ensures Honest(s, c, serverId, t)
  {
    hide Requests, Replies, ReadSip, Challenge, Answer, Admits, CSeq;
    var hello := SomeRequest(c, c.seqNo, HelloFields(s.nonce));
    var challenge, answer, last := "", "", "";
    if ReadSip(hello).Parsed? {
      var fields := Challenge(s.proof, s.theirs, ReadSip(hello).value, s.challenge);
      if fields.Some? {
        challenge := SomeReply(ReadSip(hello).value, serverId, "200 OK", fields.value);
      }
    }
    if ReadSip(challenge).Parsed? {
      var fields := Answer(s.proof, s.mine, s.nonce, CSeq(c.seqNo, OPTIONS), ReadSip(challenge).value);
      if fields.Some? {
        answer := SomeRequest(c, c.seqNo + 1, fields.value);
      }
    }
    if ReadSip(answer).Parsed? {
      var m := ReadSip(answer).value;
      last := SomeReply(m, serverId, Status(Admits(s.proof, s.theirs, s.nonce, s.challenge, m)), map[]);
    }
    t := Transcript(hello, challenge, answer, last);
  }

  /** Two wrong tokens that meet every condition of the theorems. */
  lemma WrongTokensExist() returns (s: Secrets, c: Client, serverId: string, t: Transcript)
    ensures Proper(s, c, serverId) && Honest(s, c, serverId, t) && !Agree(s)
  {
    var zeros, ones, id := seq(64, _ => '0'), seq(64, _ => '1'), seq(24, _ => '0');
    s := Secrets((token, which, text) => if token == "right" then zeros else ones, "right", "wrong", zeros, zeros);
    c, serverId := Client("TCP", "", id, 0), id;
    assert zeros[0] != ones[0];
    t := HonestExists(s, c, serverId);
  }
}
