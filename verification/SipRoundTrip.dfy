/** What `readSIP` makes of the output of `send`, for every enumeration order of the header map. */
module SipRoundTrip {
  import opened Octets
  import opened SipText
  import opened SipWire

  // ---------------------------------------------------------------- one line

  lemma LineRead(line: string, rest: string, total: nat)
    requires '\n' !in line
    ensures total + |line| + 2 <= LIMIT
      ==> ReadLine(line + CRLF + rest, total) == Parsed(line, rest, total + |line| + 2)
    ensures total + |line| + 2 > LIMIT ==> ReadLine(line + CRLF + rest, total).Failed?
  {
    var d, a := line + CRLF + rest, line + "\r";
    assert d == a + ['\n'] + rest;
    FindIn(a, '\n', rest);
    assert d[..|line| + 2] == line + CRLF && d[|line| + 2..] == rest;
    assert (line + CRLF)[..|line|] == line;
  }

  // ---------------------------------------------------------------- header fields

  /** A field that comes out of the parser as it went in. A lone carriage return is no obstacle to the parser. */
  predicate GoodField(k: string, v: string) {
    k != "" && Trimmed(k) && ':' !in k && Trimmed(v) && '\n' !in k && '\n' !in v
  }

  function FieldLine(k: string, v: string): string {
    k + ": " + v
  }

  predicate Plain(l: string) {
    l != "" && '\n' !in l
  }

  lemma FieldSplits(k: string, v: string)
    requires GoodField(k, v)
    ensures var line := FieldLine(k, v);
      && Plain(line)
      && Find(line, ':') == |k| && Lower(Trim(line[..|k|])) == Lower(k) != ""
      && Trim(line[|k| + 1..]) == v
  {
    hide Lower, Trim, Find, Trimmed;
    var line := FieldLine(k, v);
    CutAtColon(k, v);
    FindIn(k, ':', " " + v);
    TrimOfTrimmed(k);
    TrimOfTrimmed(v);
    LowerKeepsLength(k);
  }

  lemma CutAtColon(k: string, v: string)
    ensures var line := FieldLine(k, v);
      line == k + [':'] + (" " + v) && line[..|k|] == k && line[|k| + 1..] == " " + v
    ensures k != "" && '\n' !in k && '\n' !in v ==> Plain(FieldLine(k, v))
  {
  }

  lemma LowerKeepsLength(k: string)
    ensures |Lower(k)| == |k|
  {
  }

  predicate LowDistinct(order: seq<string>) {
    forall i, j :: 0 <= i < j < |order| ==> Lower(order[i]) != Lower(order[j])
  }

  /** What the parser's map becomes after the fields in this order. */
  function Added(read: map<string, string>, h: map<string, string>, order: seq<string>): map<string, string>
    requires forall k :: k in order ==> k in h
    decreases |order|
  {
    if order == [] then read else Added(read[Lower(order[0]) := h[order[0]]], h, order[1..])
  }

  lemma {:induction false} AddedFields(read: map<string, string>, h: map<string, string>, order: seq<string>)
    requires (forall k :: k in order ==> k in h) && LowDistinct(order)
    requires forall k :: k in order ==> Lower(k) !in read
    ensures var m := Added(read, h, order);
      && (forall k :: k in order ==> Lower(k) in m && m[Lower(k)] == h[k])
      && (forall k :: k in read ==> k in m && m[k] == read[k])
      && (forall l :: l in m ==> l in read || exists k :: k in order && Lower(k) == l)
    decreases |order|
  {
    hide Lower;
    if order != [] {
      var k := order[0];
      assert forall x :: x in order[1..] ==> Lower(x) != Lower(k);
      AddedFields(read[Lower(k) := h[k]], h, order[1..]);
    }
  }

  /** Fields the parser accepts after it has read `read`. */
  predicate Printable(h: map<string, string>, order: seq<string>, read: map<string, string>) {
    && (forall k :: k in order ==> k in h && GoodField(k, h[k]) && Lower(k) !in read)
    && LowDistinct(order)
  }

  lemma PrintableTail(h: map<string, string>, order: seq<string>, read: map<string, string>)
    requires order != [] && Printable(h, order, read)
    ensures var k := order[0];
      k in h && GoodField(k, h[k]) && Lower(k) !in read && Printable(h, order[1..], read[Lower(k) := h[k]])
  {
    assert forall x :: x in order[1..] ==> x in order && Lower(x) != Lower(order[0]);
  }

  function FieldLines(h: map<string, string>, order: seq<string>): seq<string>
    requires forall k :: k in order ==> k in h
  {
    if order == [] then [] else [FieldLine(order[0], h[order[0]])] + FieldLines(h, order[1..])
  }

  lemma AddField(k: string, v: string, lines: seq<string>, read: map<string, string>)
    requires GoodField(k, v) && Lower(k) !in read
    ensures AddFields([FieldLine(k, v)] + lines, read) == AddFields(lines, read[Lower(k) := v])
  {
    FieldSplits(k, v);
    var all := [FieldLine(k, v)] + lines;
    assert all[0] == FieldLine(k, v) && all[1..] == lines;
  }

  lemma {:induction false} FieldsAdded(h: map<string, string>, order: seq<string>, last: seq<string>,
      read: map<string, string>)
    requires Printable(h, order, read)
    ensures AddFields(FieldLines(h, order) + last, read) == AddFields(last, Added(read, h, order))
    decreases |order|
  {
    if order == [] {
      assert FieldLines(h, order) + last == last;
    } else {
      var k, more := order[0], order[1..];
      var tail := FieldLines(h, more) + last;
      PrintableTail(h, order, read);
      assert FieldLines(h, order) + last == [FieldLine(k, h[k])] + tail;
      AddField(k, h[k], tail, read);
      FieldsAdded(h, more, last, read[Lower(k) := h[k]]);
    }
  }

  // ---------------------------------------------------------------- the lines on the wire

  function Joined(lines: seq<string>): string {
    if lines == [] then "" else lines[0] + CRLF + Joined(lines[1..])
  }

  predicate PlainLines(lines: seq<string>) {
    forall i :: 0 <= i < |lines| ==> Plain(lines[i])
  }

  lemma FirstLineRead(l: string, tail: string, total: nat)
    requires Plain(l)
    ensures var r := ReadLines(l + CRLF + tail, total); var n := total + |l| + 2;
      if n <= LIMIT then r == ([l] + ReadLines(tail, n).0, ReadLines(tail, n).1) else r.1.Broken?
  {
    hide ReadLine;
    LineRead(l, tail, total);
  }

  lemma NoLinesRead(rest: string, total: nat)
    ensures var r := ReadLines(CRLF + rest, total);
      if total + 2 <= LIMIT then r == ([], Blank(rest, total + 2)) else r.1.Broken?
  {
    assert CRLF + rest == "" + CRLF + rest;
    LineRead("", rest, total);
  }

  lemma JoinedTail(lines: seq<string>, tail: string)
    requires lines != []
    ensures Joined(lines) + tail == lines[0] + CRLF + (Joined(lines[1..]) + tail)
    ensures |Joined(lines)| == |lines[0]| + 2 + |Joined(lines[1..])|
  {
    var line, others := lines[0], Joined(lines[1..]);
    assert Joined(lines) == line + CRLF + others;
    hide Joined;
    FourParts(line, CRLF, others, tail);
  }

  lemma FourParts(a: string, b: string, c: string, d: string)
    ensures a + b + c + d == a + b + (c + d)
    ensures a + (b + c + d) == a + b + c + d
  {
  }

  /** The lines are read back when they and the blank line fit, and reading fails otherwise. */
  lemma {:induction false} LinesRead(lines: seq<string>, rest: string, total: nat)
    requires PlainLines(lines)
    ensures var r := ReadLines(Joined(lines) + (CRLF + rest), total); var n := total + |Joined(lines)| + 2;
      if n <= LIMIT then r == (lines, Blank(rest, n)) else r.1.Broken?
  {
    hide ReadLines;
    if lines == [] {
      assert Joined(lines) + (CRLF + rest) == CRLF + rest;
      NoLinesRead(rest, total);
    } else {
      var l, more, end := lines[0], lines[1..], CRLF + rest;
      JoinedTail(lines, end);
      FirstLineRead(l, Joined(more) + end, total);
      LinesRead(more, rest, total + |l| + 2);
      assert [l] + more == lines;
    }
  }

  lemma JoinedCons(line: string, lines: seq<string>)
    ensures Joined([line] + lines) == line + CRLF + Joined(lines)
  {
    assert ([line] + lines)[1..] == lines;
  }

  lemma {:induction false} PrintIsJoined(h: map<string, string>, order: seq<string>, last: string)
    requires forall k :: k in order ==> k in h
    ensures Joined(FieldLines(h, order) + [last]) == PrintHeaders(h, order) + last + CRLF
  {
    if order == [] {
      assert FieldLines(h, order) + [last] == [last] && [last][1..] == [];
    } else {
      var k, more := order[0], order[1..];
      PrintIsJoined(h, more, last);
      var first, others := FieldLine(k, h[k]), FieldLines(h, more) + [last];
      assert FieldLines(h, order) + [last] == [first] + others;
      JoinedCons(first, others);
      var headers := PrintHeaders(h, more);
      assert HeaderLine(k, h[k]) == first + CRLF && PrintHeaders(h, order) == HeaderLine(k, h[k]) + headers;
      hide Joined, PrintHeaders, FieldLines, HeaderLine, FieldLine;
      FourParts(first + CRLF, headers, last, CRLF);
    }
  }

  lemma {:induction false} FieldLinesPlain(h: map<string, string>, order: seq<string>)
    requires forall k :: k in order ==> k in h && GoodField(k, h[k])
    ensures PlainLines(FieldLines(h, order))
  {
    hide GoodField, Plain, FieldLine;
    if order != [] {
      FieldLinesPlain(h, order[1..]);
      FieldSplits(order[0], h[order[0]]);
    }
  }

  const LENGTH_NAME := "Content-Length"

  lemma LengthName()
    ensures Lower(LENGTH_NAME) == LENGTH
  {
    hide Lower;
  }

  lemma DecimalIsGood(n: nat)
    ensures GoodField(LENGTH_NAME, Decimal(n))
  {
    var d := Decimal(n);
    assert IsDigit(d[0]) && IsDigit(d[|d| - 1]);
    assert forall c :: c in d ==> IsDigit(c);
  }

  // ---------------------------------------------------------------- whole messages

  /** What `send` must be given for the peer to read the same message. */
  ghost predicate Sound(first: string, h: map<string, string>, body: string) {
    && '\n' !in first && GoodStart(first)
    && (forall k :: k in h ==> GoodField(k, h[k]) && Lower(k) != LENGTH)
    && (forall j, k :: j in h && k in h && j != k ==> Lower(j) != Lower(k))
    && (forall r :: r in REQUIRED ==> exists k :: k in h && Lower(k) == r && h[k] != "")
    && |body| <= MAX_BODY
  }

  predicate HasFields(m: map<string, string>, h: map<string, string>) {
    forall k :: k in h ==> Lower(k) in m && m[Lower(k)] == h[k]
  }

  predicate HasOnly(m: map<string, string>, h: map<string, string>, len: string) {
    forall l :: l in m ==> l == len || exists k :: k in h && Lower(k) == l
  }

  /** The same start line and body, the lower-cased fields, and the length. */
  ghost predicate ParsedFrom(m: Message, first: string, h: map<string, string>, body: string) {
    && m.first == first && m.body == body
    && LENGTH in m.headers && m.headers[LENGTH] == Decimal(|body|)
    && HasFields(m.headers, h) && HasOnly(m.headers, h, LENGTH)
  }

  predicate Fits(first: string, h: map<string, string>, order: seq<string>, body: string)
    requires forall k :: k in order ==> k in h
  {
    |PrintHead(first, h, order, |body|)| <= LIMIT
  }

  lemma SoundIsPrintable(first: string, h: map<string, string>, order: seq<string>, body: string)
    requires Enumerates(order, h) && Sound(first, h, body)
    ensures Printable(h, order, map[]) && LENGTH !in Added(map[], h, order)
  {
    var read: map<string, string> := map[];
    assert Printable(h, order, read);
    AddedFields(read, h, order);
  }

  function AllLines(h: map<string, string>, order: seq<string>, n: nat): seq<string>
    requires forall k :: k in order ==> k in h
  {
    FieldLines(h, order) + [FieldLine(LENGTH_NAME, Decimal(n))]
  }

  lemma HeaderMapRead(first: string, h: map<string, string>, order: seq<string>, body: string)
    requires Enumerates(order, h) && Sound(first, h, body)
    ensures AddFields(AllLines(h, order, |body|), map[]) == Read(Added(map[], h, order)[LENGTH := Decimal(|body|)])
  {
    hide AddFields, GoodField, Added, Sound, Printable, Lower, Decimal, Enumerates;
    var last := FieldLine(LENGTH_NAME, Decimal(|body|));
    SoundIsPrintable(first, h, order, body);
    FieldsAdded(h, order, [last], map[]);
    LengthName();
    DecimalIsGood(|body|);
    AddField(LENGTH_NAME, Decimal(|body|), [], Added(map[], h, order));
    assert [last] + [] == [last];
    NothingAdded(Added(map[], h, order)[LENGTH := Decimal(|body|)]);
  }

  lemma NothingAdded(m: map<string, string>)
    ensures AddFields([], m) == Read(m)
  {
  }

  lemma LengthLinesJoined(n: nat)
    ensures LengthLines(n) == FieldLine(LENGTH_NAME, Decimal(n)) + CRLF + CRLF
  {
  }

  lemma LinesOnWire(h: map<string, string>, order: seq<string>, n: nat, rest: string)
    requires forall k :: k in order ==> k in h && GoodField(k, h[k])
    ensures PlainLines(AllLines(h, order, n))
    ensures PrintHeaders(h, order) + (LengthLines(n) + rest) == Joined(AllLines(h, order, n)) + (CRLF + rest)
    ensures |Joined(AllLines(h, order, n))| + 2 == |PrintHeaders(h, order)| + |LengthLines(n)|
  {
    hide HeaderLine, FieldLines, FieldLine, PrintHeaders, LengthLines, Joined, Decimal, GoodField, Trimmed, Find,
      Trim, Lower;
    var last := FieldLine(LENGTH_NAME, Decimal(n));
    FieldLinesPlain(h, order);
    DecimalIsGood(n);
    FieldSplits(LENGTH_NAME, Decimal(n));
    PrintIsJoined(h, order, last);
    LengthLinesJoined(n);
    Regroup(PrintHeaders(h, order), last, CRLF, rest);
  }

  lemma Regroup(a: string, b: string, c: string, d: string)
    ensures a + (b + c + c + d) == a + b + c + (c + d)
  {
  }

  lemma SoundFields(first: string, h: map<string, string>, order: seq<string>, body: string)
    requires Enumerates(order, h) && Sound(first, h, body)
    ensures '\n' !in first && GoodStart(first) && |body| <= MAX_BODY
    ensures forall k :: k in order ==> k in h && GoodField(k, h[k])
  {
  }

  lemma AllHeadersRead(first: string, h: map<string, string>, order: seq<string>, body: string, rest: string)
    requires Enumerates(order, h) && Sound(first, h, body)
    ensures var r := ReadHeaders(PrintHeaders(h, order) + (LengthLines(|body|) + rest), |first| + 2, map[]);
      var n := |first| + 2 + |PrintHeaders(h, order)| + |LengthLines(|body|)|;
      if n <= LIMIT then r == Parsed(Added(map[], h, order)[LENGTH := Decimal(|body|)], rest, n) else r.Failed?
  {
    hide Sound, GoodField, PlainLines, ReadLines, AddFields, AllLines, Added, Joined, PrintHeaders, LengthLines,
      Decimal;
    SoundFields(first, h, order, body);
    LinesOnWire(h, order, |body|, rest);
    HeaderMapRead(first, h, order, body);
    LinesRead(AllLines(h, order, |body|), rest, |first| + 2);
  }

  lemma {:induction false} NothingMissing(m: map<string, string>, i: nat)
    requires i <= |REQUIRED| && forall r :: r in REQUIRED ==> Get(m, r) != ""
    ensures FirstMissing(m, i) == None
    decreases |REQUIRED| - i
  {
    if i < |REQUIRED| {
      assert REQUIRED[i] in REQUIRED;
      NothingMissing(m, i + 1);
    }
  }

  lemma RequiredPresent(first: string, h: map<string, string>, body: string, m: Message)
    requires Sound(first, h, body) && ParsedFrom(m, first, h, body)
    ensures FirstMissing(m.headers, 0) == None
  {
    forall r | r in REQUIRED
      ensures Get(m.headers, r) != ""
    {
      var k :| k in h && Lower(k) == r && h[k] != "";
    }
    NothingMissing(m.headers, 0);
  }

  lemma FieldsAndLength(h: map<string, string>, m: map<string, string>, len: string, v: string)
    requires HasFields(m, h) && HasOnly(m, h, len) && forall k :: k in h ==> Lower(k) != len
    ensures HasFields(m[len := v], h) && HasOnly(m[len := v], h, len)
  {
    hide Lower;
  }

  lemma AddedIsParsed(first: string, h: map<string, string>, order: seq<string>, body: string)
    requires Enumerates(order, h) && Sound(first, h, body)
    ensures ParsedFrom(Message(first, Added(map[], h, order)[LENGTH := Decimal(|body|)], body), first, h, body)
  {
    hide GoodField, Lower, Decimal, GoodStart, Added, HasFields, HasOnly;
    var m := Added(map[], h, order);
    AddedHasFields(first, h, order, body);
    FieldsAndLength(h, m, LENGTH, Decimal(|body|));
  }

  lemma AddedHasFields(first: string, h: map<string, string>, order: seq<string>, body: string)
    requires Enumerates(order, h) && Sound(first, h, body)
    ensures HasFields(Added(map[], h, order), h) && HasOnly(Added(map[], h, order), h, LENGTH)
  {
    hide GoodField, Lower, GoodStart, Added, Sound;
    SoundIsPrintable(first, h, order, body);
    AddedFields(map[], h, order);
  }

  /**
   For every order, `readSIP` returns exactly the message that was printed and leaves
   exactly the bytes after it, if and only if the header fits the reader's limit.
   */
  lemma RoundTrip(first: string, h: map<string, string>, order: seq<string>, body: string, rest: string)
    requires Enumerates(order, h) && Sound(first, h, body)
    ensures var p := ReadSip(Print(first, h, order, body) + rest);
      && (p.Parsed? <==> Fits(first, h, order, body))
      && (p.Parsed? ==> p.rest == rest && ParsedFrom(p.value, first, h, body))
  {
    hide Sound, Enumerates, ReadHeaders, ParsedFrom, Added, PrintHeaders, PrintHead, LengthLines, Decimal, Print,
      FirstMissing, Atoi, ReadLine;
    SoundFields(first, h, order, body);
    var tail := body + rest;
    var fields := PrintHeaders(h, order) + (LengthLines(|body|) + tail);
    PrintSplits(first, h, order, body, rest);
    LineRead(first, fields, 0);
    AllHeadersRead(first, h, order, body, tail);
    var m := Message(first, Added(map[], h, order)[LENGTH := Decimal(|body|)], body);
    AddedIsParsed(first, h, order, body);
    RequiredPresent(first, h, body, m);
    AtoiDecimal(|body|);
    assert tail[..|body|] == body && tail[|body|..] == rest;
  }

  lemma PrintSplits(first: string, h: map<string, string>, order: seq<string>, body: string, rest: string)
    requires forall k :: k in order ==> k in h
    ensures Print(first, h, order, body) + rest
      == first + CRLF + (PrintHeaders(h, order) + (LengthLines(|body|) + (body + rest)))
    ensures |PrintHead(first, h, order, |body|)| == |first| + 2 + |PrintHeaders(h, order)| + |LengthLines(|body|)|
  {
    hide PrintHeaders, LengthLines;
    FiveParts(first, CRLF, PrintHeaders(h, order), LengthLines(|body|), body, rest);
  }

  lemma FiveParts(a: string, b: string, c: string, d: string, e: string, f: string)
    ensures a + b + c + d + e + f == a + b + (c + (d + (e + f)))
  {
  }

  // ---------------------------------------------------------------- streams of messages

  datatype Outgoing = Outgoing(first: string, h: map<string, string>, order: seq<string>, body: string)

  ghost predicate Ready(o: Outgoing) {
    Enumerates(o.order, o.h) && Sound(o.first, o.h, o.body) && Fits(o.first, o.h, o.order, o.body)
  }

  ghost predicate AllReady(os: seq<Outgoing>) {
    forall i :: 0 <= i < |os| ==> Ready(os[i])
  }

  ghost function Wire(os: seq<Outgoing>): string
    requires AllReady(os)
  {
    if os == [] then "" else Print(os[0].first, os[0].h, os[0].order, os[0].body) + Wire(os[1..])
  }

  /** The results of `n` successive reads, and what they leave. */
  function ReadMany(data: string, n: nat): Option<(seq<Message>, string)>
    decreases n
  {
    if n == 0 then Some(([], data))
    else
      var p := ReadSip(data);
      if p.Failed? then None
      else
        var more := ReadMany(p.rest, n - 1);
        if more.None? then None else Some(([p.value] + more.value.0, more.value.1))
  }

  /** Any sequence of messages on one stream is read back message by message. */
  lemma {:induction false} StreamRoundTrip(os: seq<Outgoing>, rest: string)
    requires AllReady(os)
    ensures var r := ReadMany(Wire(os) + rest, |os|);
      && r.Some? && |r.value.0| == |os| && r.value.1 == rest
      && forall i :: 0 <= i < |os| ==> ParsedFrom(r.value.0[i], os[i].first, os[i].h, os[i].body)
  {
    if os == [] {
      assert Wire(os) + rest == rest;
    } else {
      var o, more := os[0], os[1..];
      hide Print, ParsedFrom, Fits, Sound, Enumerates, ReadSip;
      var tail := Wire(more) + rest;
      assert Wire(os) + rest == Print(o.first, o.h, o.order, o.body) + tail by {
        hide ReadMany;
      }
      RoundTrip(o.first, o.h, o.order, o.body, tail);
      StreamRoundTrip(more, rest);
    }
  }
}
