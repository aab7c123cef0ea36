/** The requests and replies of the SIP transport, and what the peer's reader makes of them. */
module SipRequests {
  import opened Streams
  import opened SipText
  import opened SipWire
  import opened SipRoundTrip

  const PEER := "<sip:peer@tunnel.invalid>"
  const TARGET := " sip:peer@tunnel.invalid SIP/2.0"
  const TAG := ";tag="
  const OCTETS := "application/octet-stream"
  const OK_LINE := "SIP/2.0 200 OK"

  predicate IsHex(s: string) {
    forall i :: 0 <= i < |s| ==> IsDigit(s[i]) || 'a' <= s[i] <= 'f'
  }

  /** `randomHex`: any string of `2 * n` hexadecimal digits. */
  method RandomHex(n: nat) returns (s: string)
    ensures |s| == 2 * n && IsHex(s)
  {
    s := "";
    for i := 0 to 2 * n
      invariant |s| == i && IsHex(s)
    {
      var d: int :| 0 <= d < 10;
      s := s + [Digit(d)];
    }
  }

  function CSeq(seqNo: nat, verb: string): string {
    Decimal(seqNo) + " " + verb
  }

  function RequestBase(proto: string, address: string, branch: string, id: string, cseq: string): map<string, string> {
    map["Via" := VERSION_SLASH + proto + " " + address + ";branch=z9hG4bK" + branch,
        "From" := PEER + TAG + id, "To" := PEER, "Call-ID" := id, "CSeq" := cseq,
        "Max-Forwards" := "0", "Content-Type" := OCTETS]
  }

  lemma PrintNext(h: map<string, string>, k: string, more: seq<string>)
    requires k in h && forall x :: x in more ==> x in h
    ensures PrintHeaders(h, [k] + more) == (k + ": " + h[k] + "\r\n") + PrintHeaders(h, more)
  {
    assert ([k] + more)[0] == k && ([k] + more)[1..] == more;
  }

  lemma PrintSeven(h: map<string, string>, a: string, b: string, c: string, d: string, e: string, f: string, g: string)
    requires a in h && b in h && c in h && d in h && e in h && f in h && g in h
    ensures PrintHeaders(h, [a, b, c, d, e, f, g]) ==
      (a + ": " + h[a] + "\r\n") + ((b + ": " + h[b] + "\r\n") + ((c + ": " + h[c] + "\r\n")
      + ((d + ": " + h[d] + "\r\n") + ((e + ": " + h[e] + "\r\n") + ((f + ": " + h[f] + "\r\n")
      + ((g + ": " + h[g] + "\r\n") + ""))))))
  {
    assert PrintHeaders(h, []) == "";
    hide PrintHeaders;
    assert [a, b, c, d, e, f, g] == [a] + [b, c, d, e, f, g] && [b, c, d, e, f, g] == [b] + [c, d, e, f, g];
    assert [c, d, e, f, g] == [c] + [d, e, f, g] && [d, e, f, g] == [d] + [e, f, g] && [e, f, g] == [e] + [f, g];
    assert [f, g] == [f] + [g] && [g] == [g] + [];
    PrintNext(h, a, [b, c, d, e, f, g]);
    PrintNext(h, b, [c, d, e, f, g]);
    PrintNext(h, c, [d, e, f, g]);
    PrintNext(h, d, [e, f, g]);
    PrintNext(h, e, [f, g]);
    PrintNext(h, f, [g]);
    PrintNext(h, g, []);
  }

  lemma RequestValues(proto: string, address: string, branch: string, id: string, cseq: string)
    ensures var h := RequestBase(proto, address, branch, id, cseq);
      && h.Keys == {"Via", "From", "To", "Call-ID", "CSeq", "Max-Forwards", "Content-Type"}
      && h["Via"] == "SIP/2.0/" + proto + " " + address + ";branch=z9hG4bK" + branch
      && h["From"] == "<sip:peer@tunnel.invalid>" + ";tag=" + id && h["To"] == "<sip:peer@tunnel.invalid>"
      && h["Call-ID"] == id && h["CSeq"] == cseq
      && h["Max-Forwards"] == "0" && h["Content-Type"] == "application/octet-stream"
  {
  }

  /** A request on the wire, in one of its orders. */
  lemma RequestText(verb: string, proto: string, address: string, branch: string, id: string, n: nat, body: string)
    ensures var h := RequestBase(proto, address, branch, id, CSeq(n, verb));
      && h.Keys == {"Via", "From", "To", "Call-ID", "CSeq", "Max-Forwards", "Content-Type"}
      && Print(verb + TARGET, h, ["Via", "From", "To", "Call-ID", "CSeq", "Max-Forwards", "Content-Type"], body) ==
        (verb + " sip:peer@tunnel.invalid SIP/2.0") + "\r\n"
        + (("Via" + ": " + ("SIP/2.0/" + proto + " " + address + ";branch=z9hG4bK" + branch) + "\r\n")
        + (("From" + ": " + ("<sip:peer@tunnel.invalid>" + ";tag=" + id) + "\r\n")
        + (("To" + ": " + "<sip:peer@tunnel.invalid>" + "\r\n")
        + (("Call-ID" + ": " + id + "\r\n")
        + (("CSeq" + ": " + (Decimal(n) + " " + verb) + "\r\n")
        + (("Max-Forwards" + ": " + "0" + "\r\n")
        + (("Content-Type" + ": " + "application/octet-stream" + "\r\n") + "")))))))
        + ("Content-Length: " + Decimal(|body|) + "\r\n" + "\r\n") + body
  {
    hide PrintHeaders, Decimal, RequestBase;
    var h := RequestBase(proto, address, branch, id, CSeq(n, verb));
    RequestValues(proto, address, branch, id, CSeq(n, verb));
    PrintSeven(h, "Via", "From", "To", "Call-ID", "CSeq", "Max-Forwards", "Content-Type");
  }

  const VERSION_SLASH := "SIP/2.0/"

  function Contains(s: string, part: string): bool {
    exists i :: 0 <= i <= |s| && part <= s[i..]
  }

  function ReplyBase(m: Message, id: string): map<string, string> {
    var to := Get(m.headers, "to");
    map["via" := Get(m.headers, "via"), "from" := Get(m.headers, "from"),
        "to" := if Contains(to, TAG) then to else to + TAG + id,
        "call-id" := Get(m.headers, "call-id"), "cseq" := Get(m.headers, "cseq")]
  }

  /** The first `i` of the header fields that section 8.2.6.2 of RFC 3261 copies into a response. */
  function Copied(m: Message, i: nat): map<string, string>
    requires i <= |REQUIRED|
  {
    if i == 0 then map[] else Copied(m, i - 1)[REQUIRED[i - 1] := Get(m.headers, REQUIRED[i - 1])]
  }

  lemma CopiedAll(m: Message)
    ensures Copied(m, |REQUIRED|) == map["via" := Get(m.headers, "via"), "from" := Get(m.headers, "from"),
      "to" := Get(m.headers, "to"), "call-id" := Get(m.headers, "call-id"), "cseq" := Get(m.headers, "cseq")]
  {
    assert Copied(m, 1) == map["via" := Get(m.headers, "via")];
    assert Copied(m, 3) == Copied(m, 2)["to" := Get(m.headers, "to")];
    assert Copied(m, 5) == Copied(m, 4)["cseq" := Get(m.headers, "cseq")];
  }

  /**
   A message with a line break in a field leaves the connection alone; any other is sent up to where
   the write stopped.
   */
  ghost predicate WasSent(before: string, after: string, first: string, h: map<string, string>, body: string,
                          order: seq<string>, taken: nat, ok: bool)
  {
    if Injects(h) then !ok && after == before
    else
      && Enumerates(order, h)
      && var text := Print(first, h, order, body);
         taken <= |text| && after == before + text[..taken] && (ok ==> after == before + text)
  }

  class SipConn {
    const proto: string
    const address: string
    const id: string
    const conn: Sink<char>
    var seqNo: nat

    constructor (conn: Sink<char>, proto: string, address: string)
      ensures this.conn == conn && this.proto == proto && this.address == address && seqNo == 0
      ensures |id| == 24 && IsHex(id)
    {
      var hex := RandomHex(12);
      this.conn, this.proto, this.address, this.id, seqNo := conn, proto, address, hex, 0;
    }

    /** Takes the next sequence number whether or not the message can be sent. */
    method Request(verb: string, extra: map<string, string>, body: string)
      returns (cseq: string, ok: bool, ghost branch: string, ghost order: seq<string>, ghost taken: nat)
      modifies this`seqNo, conn
      ensures seqNo == old(seqNo) + 1 && cseq == CSeq(seqNo, verb)
      ensures |branch| == 20 && IsHex(branch)
      ensures WasSent(old(conn.sent), conn.sent, verb + TARGET, RequestBase(proto, address, branch, id, cseq) + extra,
        body, order, taken, ok)
      ensures ok <==>
        !Injects(RequestBase(proto, address, branch, id, cseq) + extra) && conn.failures == old(conn.failures)
    {
      seqNo := seqNo + 1;
      cseq := CSeq(seqNo, verb);
      var hex := RandomHex(10);
      branch := hex;
      var h := RequestBase(proto, address, hex, id, cseq) + extra;
      ok, order, taken := Send(conn, verb + TARGET, h, body);
    }

    method Reply(m: Message, status: string, extra: map<string, string>)
      returns (ok: bool, ghost order: seq<string>, ghost taken: nat)
      modifies conn
      ensures WasSent(old(conn.sent), conn.sent, VERSION + status, ReplyBase(m, id) + extra, "", order, taken, ok)
      ensures ok <==> !Injects(ReplyBase(m, id) + extra) && conn.failures == old(conn.failures)
    {
      var h: map<string, string> := map[];
      for i := 0 to |REQUIRED|
        invariant h == Copied(m, i)
      {
        h := h[REQUIRED[i] := Get(m.headers, REQUIRED[i])];
      }
      CopiedAll(m);
      if !Contains(h["to"], TAG) {
        h := h["to" := h["to"] + TAG + id];
      }
      assert h == ReplyBase(m, id);
      h := h + extra;
      ok, order, taken := Send(conn, VERSION + status, h, "");
    }
  }
}
