/**
 Printing and parsing SIP messages on a byte stream. Each character stands for one byte.

 Start lines and header fields follow section 7.3.1 of RFC 3261, and the body is framed
 by Content-Length as in section 18.3.
 */
module SipWire {
  import opened Octets
  import opened Streams
  import opened SipText

  /** The size of the buffered reader and the limit on all header bytes. */
  const LIMIT: int := 8192
  const MAX_BODY: int := 2048

  const VERSION := "SIP/2.0 "
  const VERSION_END := " SIP/2.0"
  const LENGTH := "content-length"
  const CRLF := "\r\n"

  datatype Message = Message(first: string, headers: map<string, string>, body: string)

  datatype ParseError = StreamFailed | BadLine | BadStart | BadHeader | Duplicate | BadLength | Missing(key: string)

  // ---------------------------------------------------------------- reading lines

  datatype Slice = Line(b: string, rest: string) | NoLine(rest: string)

  /** `ReadSlice`: up to the next newline, if it comes within one buffer. */
  function ReadSlice(data: string): Slice {
    var i := Find(data, '\n');
    if i < |data| && i < LIMIT then Line(data[..i + 1], data[i + 1..])
    else NoLine(if |data| >= LIMIT then data[LIMIT..] else "")
  }

  datatype Parsed<T> = Parsed(value: T, rest: string, total: nat) | Failed(error: ParseError)

  function ReadLine(data: string, total: nat): (p: Parsed<string>)
    ensures p.Parsed? ==> |p.rest| < |data|
  {
    var s := ReadSlice(data);
    if s.NoLine? then Failed(StreamFailed)
    else
      var n := |s.b|;
      if total + n > LIMIT || n < 2 || s.b[n - 2] != '\r' then Failed(BadLine)
      else Parsed(s.b[..n - 2], s.rest, total + n)
  }

  predicate StartsWithLine(data: string, line: string, rest: string) {
    data == line + CRLF + rest && '\n' !in line
  }

  /** Whatever line the data starts with would exceed the limit on all header bytes. */
  ghost predicate NoLineFits(data: string, total: nat) {
    forall line, rest :: StartsWithLine(data, line, rest) ==> total + |line| + 2 > LIMIT
  }

  lemma ReadLineIsLine(data: string, total: nat)
    requires ReadLine(data, total).Parsed?
    ensures var l := ReadLine(data, total);
      StartsWithLine(data, l.value, l.rest) && l.total == total + |l.value| + 2 <= LIMIT
  {
    var l, i := ReadLine(data, total), Find(data, '\n');
    FindFirst(data, '\n');
    assert l.value == data[..i - 1] && data[i - 1..i + 1] == CRLF;
    assert data == data[..i - 1] + data[i - 1..i + 1] + data[i + 1..];
    assert forall c :: c in l.value ==> c in data[..i];
  }

  lemma LineIsRead(data: string, total: nat, line: string, rest: string)
    requires StartsWithLine(data, line, rest) && total + |line| + 2 <= LIMIT
    ensures ReadLine(data, total).Parsed?
  {
    var a := line + "\r";
    assert data == a + ['\n'] + rest;
    FindIn(a, '\n', rest);
    assert data[..|line| + 2][|line|] == '\r';
  }

  lemma LineMeans(data: string, total: nat)
    ensures var l := ReadLine(data, total);
      l.Parsed? ==> StartsWithLine(data, l.value, l.rest) && l.total == total + |l.value| + 2 <= LIMIT
    ensures ReadLine(data, total).Failed? ==> NoLineFits(data, total)
  {
    hide StartsWithLine, ReadLine;
    if ReadLine(data, total).Parsed? {
      ReadLineIsLine(data, total);
    }
    forall line, rest | StartsWithLine(data, line, rest) && total + |line| + 2 <= LIMIT
      ensures ReadLine(data, total).Parsed?
    {
      LineIsRead(data, total, line, rest);
    }
  }

  // ---------------------------------------------------------------- parsing

  function Get(m: map<string, string>, k: string): string {
    if k in m then m[k] else ""
  }

  datatype LineEnd = Blank(rest: string, total: nat) | Broken(error: ParseError)

  /** The lines up to the blank one, or up to the first that cannot be read. */
  function ReadLines(data: string, total: nat): (seq<string>, LineEnd)
    decreases |data|
  {
    var l := ReadLine(data, total);
    if l.Failed? then ([], Broken(l.error))
    else if l.value == "" then ([], Blank(l.rest, l.total))
    else
      var (more, end) := ReadLines(l.rest, l.total);
      ([l.value] + more, end)
  }

  datatype HeaderMap = Read(m: map<string, string>) | Rejected(error: ParseError)

  /** The header fields on these lines, on top of those already read. */
  function AddFields(lines: seq<string>, read: map<string, string>): HeaderMap
    decreases |lines|
  {
    if lines == [] then Read(read)
    else
      var c := Find(lines[0], ':');
      var k := Lower(Trim(lines[0][..c]));
      if c == |lines[0]| || k == "" then Rejected(BadHeader)
      else if k in read then Rejected(Duplicate)
      else AddFields(lines[1..], read[k := Trim(lines[0][c + 1..])])
  }

  /** A field error comes from an earlier line than the failure to read a line. */
  function Combine(m: HeaderMap, end: LineEnd): Parsed<map<string, string>> {
    if m.Rejected? then Failed(m.error)
    else if end.Broken? then Failed(end.error)
    else Parsed(m.m, end.rest, end.total)
  }

  function ReadHeaders(data: string, total: nat, read: map<string, string>): Parsed<map<string, string>> {
    var (lines, end) := ReadLines(data, total);
    Combine(AddFields(lines, read), end)
  }

  /** What one more line makes of the fields read so far. */
  lemma HeadersStep(data: string, total: nat, read: map<string, string>)
    ensures var l, all := ReadLine(data, total), ReadHeaders(data, total, read);
      if l.Failed? then all == Failed(l.error)
      else if l.value == "" then all == Parsed(read, l.rest, l.total)
      else
        var c := Find(l.value, ':');
        var k := Lower(Trim(l.value[..c]));
        if c == |l.value| || k == "" then all == Failed(BadHeader)
        else if k in read then all == Failed(Duplicate)
        else all == ReadHeaders(l.rest, l.total, read[k := Trim(l.value[c + 1..])])
  {
    hide ReadLine, Find, Lower, Trim;
    var l := ReadLine(data, total);
    if l.Parsed? && l.value != "" {
      var (more, end) := ReadLines(l.rest, l.total);
      assert ReadLines(data, total) == ([l.value] + more, end);
      assert ([l.value] + more)[0] == l.value && ([l.value] + more)[1..] == more;
    }
  }

  const REQUIRED: seq<string> := ["via", "from", "to", "call-id", "cseq"]

  function FirstMissing(h: map<string, string>, i: nat): Option<string>
    requires i <= |REQUIRED|
    decreases |REQUIRED| - i
  {
    if i == |REQUIRED| then None
    else if Get(h, REQUIRED[i]) == "" then Some(REQUIRED[i])
    else FirstMissing(h, i + 1)
  }

  predicate GoodStart(first: string) {
    VERSION <= first || (|first| >= |VERSION_END| && first[|first| - |VERSION_END|..] == VERSION_END)
  }

  function ReadSip(data: string): Parsed<Message> {
    var l := ReadLine(data, 0);
    if l.Failed? then Failed(l.error)
    else if !GoodStart(l.value) then Failed(BadStart)
    else
      var h := ReadHeaders(l.rest, l.total, map[]);
      if h.Failed? then Failed(h.error)
      else
        var n := Atoi(Get(h.value, LENGTH));
        if n.None? || n.value < 0 || n.value > MAX_BODY then Failed(BadLength)
        else
          var m := FirstMissing(h.value, 0);
          if m.Some? then Failed(Missing(m.value))
          else if |h.rest| < n.value then Failed(StreamFailed)
          else Parsed(Message(l.value, h.value, h.rest[..n.value]), h.rest[n.value..], h.total)
  }

  /** The buffered reader: what has arrived and will arrive, whatever the pieces. */
  class Reader {
    var data: string

    constructor (data: string)
      ensures this.data == data
    {
      this.data := data;
    }

    /**
     Takes the line the data starts with, if it ends in CRLF and keeps the limit on all header
     bytes, and fails only otherwise.
     */
    method NextLine(total: nat) returns (line: Parsed<string>)
      modifies this
      ensures line == ReadLine(old(data), total)
      ensures line.Parsed? ==> data == line.rest && line.total == total + |line.value| + 2 <= LIMIT
      ensures line.Parsed? ==> StartsWithLine(old(data), line.value, data)
      ensures line.Failed? ==> NoLineFits(old(data), total)
    {
      LineMeans(data, total);
      var s := ReadSlice(data);
      data := s.rest;
      if s.NoLine? {
        return Failed(StreamFailed);
      }
      var n := |s.b|;
      if total + n > LIMIT || n < 2 || s.b[n - 2] != '\r' {
        return Failed(BadLine);
      }
      return Parsed(s.b[..n - 2], s.rest, total + n);
    }

    /** The read loop's one call: parses a message and leaves exactly what follows it. */
    method Next() returns (m: Parsed<Message>)
      modifies this
      ensures m == ReadSip(old(data))
      ensures m.Parsed? ==> data == m.rest
    {
      hide StartsWithLine, NoLineFits, ReadHeaders, ReadLine, Find, Lower, Trim, Atoi, GoodStart;
      var first := NextLine(0);
      if first.Failed? {
        return Failed(first.error);
      }
      if !GoodStart(first.value) {
        return Failed(BadStart);
      }
      var total, headers := first.total, map[];
      ghost var all := ReadHeaders(data, total, headers);
      while true
        invariant ReadHeaders(data, total, headers) == all
        decreases |data|
      {
        HeadersStep(data, total, headers);
        var l := NextLine(total);
        if l.Failed? {
          return Failed(l.error);
        }
        total := l.total;
        if l.value == "" {
          break;
        }
        var c := Find(l.value, ':');
        var k := Lower(Trim(l.value[..c]));
        if c == |l.value| || k == "" {
          return Failed(BadHeader);
        }
        if k in headers {
          return Failed(Duplicate);
        }
        headers := headers[k := Trim(l.value[c + 1..])];
      }
      assert all == Parsed(headers, data, total);
      var n := Atoi(Get(headers, LENGTH));
      if n.None? || n.value < 0 || n.value > MAX_BODY {
        return Failed(BadLength);
      }
      for i := 0 to |REQUIRED|
        invariant FirstMissing(headers, i) == FirstMissing(headers, 0)
      {
        if Get(headers, REQUIRED[i]) == "" {
          return Failed(Missing(REQUIRED[i]));
        }
      }
      if |data| < n.value {
        data := "";
        return Failed(StreamFailed);
      }
      var body := data[..n.value];
      data := data[n.value..];
      m := Parsed(Message(first.value, headers, body), data, total);
    }
  }

  // ---------------------------------------------------------------- printing

  predicate HasBreak(s: string) {
    '\r' in s || '\n' in s
  }

  function HeaderLine(k: string, v: string): string {
    k + ": " + v + CRLF
  }

  /** The header fields in one enumeration order. */
  function PrintHeaders(h: map<string, string>, order: seq<string>): string
    requires forall k :: k in order ==> k in h
  {
    if order == [] then "" else HeaderLine(order[0], h[order[0]]) + PrintHeaders(h, order[1..])
  }

  function LengthLines(n: nat): string {
    "Content-Length: " + Decimal(n) + CRLF + CRLF
  }

  function PrintHead(first: string, h: map<string, string>, order: seq<string>, n: nat): string
    requires forall k :: k in order ==> k in h
  {
    first + CRLF + PrintHeaders(h, order) + LengthLines(n)
  }

  function Print(first: string, h: map<string, string>, order: seq<string>, body: string): string
    requires forall k :: k in order ==> k in h
  {
    PrintHead(first, h, order, |body|) + body
  }

  predicate Distinct(order: seq<string>) {
    forall i, j :: 0 <= i < j < |order| ==> order[i] != order[j]
  }

  /** An order in which the map can be enumerated. */
  ghost predicate Enumerates(order: seq<string>, h: map<string, string>) {
    Distinct(order) && forall k :: k in order <==> k in h
  }

  predicate Injects(h: map<string, string>) {
    exists k :: k in h && HasBreak(k + h[k])
  }

  lemma InjectsIff(h: map<string, string>)
    ensures Injects(h) <==>
      exists k :: k in h && ('\r' in k || '\n' in k || '\r' in h[k] || '\n' in h[k])
  {
    forall k | k in h
      ensures HasBreak(k + h[k]) <==> '\r' in k || '\n' in k || '\r' in h[k] || '\n' in h[k]
    {
      assert forall c :: c in k + h[k] <==> c in k || c in h[k];
    }
  }

  lemma {:induction false} PrintHeadersAppend(h: map<string, string>, order: seq<string>, k: string)
    requires k in h && forall x :: x in order ==> x in h
    ensures PrintHeaders(h, order + [k]) == PrintHeaders(h, order) + HeaderLine(k, h[k])
  {
    if order == [] {
      assert [k][1..] == [];
    } else {
      PrintHeadersAppend(h, order[1..], k);
      assert (order + [k])[1..] == order[1..] + [k] && (order + [k])[0] == order[0];
      var first, more := HeaderLine(order[0], h[order[0]]), PrintHeaders(h, order[1..]);
      assert PrintHeaders(h, order) == first + more;
      assert PrintHeaders(h, order + [k]) == first + PrintHeaders(h, order[1..] + [k]);
      hide PrintHeaders, HeaderLine;
      ThreeParts(first, more, HeaderLine(k, h[k]));
    }
  }

  lemma ThreeParts(a: string, b: string, c: string)
    ensures a + (b + c) == a + b + c
  {
  }

  /** Prints the map in whatever order it is enumerated; a line break in any field means nothing is written. */
  method Send(w: Sink<char>, first: string, h: map<string, string>, body: string)
    returns (ok: bool, ghost order: seq<string>, ghost taken: nat)
    modifies w
    ensures Injects(h) ==> !ok && w.sent == old(w.sent)
    ensures !Injects(h) ==> Enumerates(order, h)
    ensures !Injects(h) ==> taken <= |Print(first, h, order, body)|
    ensures !Injects(h) ==> w.sent == old(w.sent) + Print(first, h, order, body)[..taken]
    ensures ok ==> !Injects(h) && w.sent == old(w.sent) + Print(first, h, order, body)
    ensures ok <==> !Injects(h) && w.failures == old(w.failures)
  {
    var out := first + CRLF;
    var keys := h.Keys;
    order, taken := [], 0;
    while keys != {}
      invariant w.sent == old(w.sent) && w.failures == old(w.failures) && keys <= h.Keys && Distinct(order)
      invariant forall k :: k in order <==> k in h && k !in keys
      invariant out == first + CRLF + PrintHeaders(h, order)
      invariant forall k :: k in order ==> !HasBreak(k + h[k])
      decreases |keys|
    {
      var k :| k in keys;
      if HasBreak(k + h[k]) {
        return false, order, 0;
      }
      out := out + (k + ": " + h[k] + CRLF);
      PrintHeadersAppend(h, order, k);
      order := order + [k];
      keys := keys - {k};
    }
    out := out + ("Content-Length: " + Decimal(|body|) + CRLF + CRLF);
    assert out == PrintHead(first, h, order, |body|);
    ok, taken := WriteAll(w, out + body);
  }
}
