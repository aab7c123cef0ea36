/**
 What the reader accepts, as a grammar: a message is a start line, header lines, an empty line and
 a body of the announced length, and `ReadSip` reads it if and only if it has arrived whole.
 */
module SipGrammar {
  import opened Octets
  import opened SipText
  import opened SipWire
  import opened SipRoundTrip

  // ---------------------------------------------------------------- the grammar

  function NameOf(line: string): string {
    Lower(Trim(line[..Find(line, ':')]))
  }

  function ValueOf(line: string): string {
    var c := Find(line, ':');
    if c < |line| then Trim(line[c + 1..]) else ""
  }

  predicate IsHeader(line: string) {
    '\n' !in line && ':' in line && NameOf(line) != ""
  }

  /** Header lines with different names. */
  predicate AreHeaders(lines: seq<string>) {
    && (forall i :: 0 <= i < |lines| ==> IsHeader(lines[i]))
    && (forall i, j :: 0 <= i < j < |lines| ==> NameOf(lines[i]) != NameOf(lines[j]))
  }

  predicate HasField(lines: seq<string>, name: string)
    requires AreHeaders(lines)
  {
    exists i :: 0 <= i < |lines| && NameOf(lines[i]) == name && ValueOf(lines[i]) != ""
  }

  /** The start line of a request or a reply. */
  predicate IsStart(first: string) {
    '\n' !in first && ("SIP/2.0 " <= first || (|first| >= 8 && first[|first| - 8..] == " SIP/2.0"))
  }

  /** A message and its limits: 8192 bytes of head, and a body of the announced length, up to 2048 bytes. */
  predicate WellFormed(first: string, lines: seq<string>, body: string) {
    && IsStart(first) && AreHeaders(lines)
    && (forall r :: r in ["via", "from", "to", "call-id", "cseq"] ==> HasField(lines, r))
    && (exists i :: 0 <= i < |lines| && NameOf(lines[i]) == "content-length" && Atoi(ValueOf(lines[i])) == Some(|body|))
    && |body| <= 2048
    && |first| + 2 + |Joined(lines)| + 2 <= 8192
  }

  function Text(first: string, lines: seq<string>, body: string): string {
    first + "\r\n" + (Joined(lines) + ("\r\n" + body))
  }

  /** The map holds the fields of these lines, and no others. */
  predicate Holds(m: map<string, string>, lines: seq<string>)
    requires AreHeaders(lines)
  {
    && (forall i :: 0 <= i < |lines| ==> NameOf(lines[i]) in m && m[NameOf(lines[i])] == ValueOf(lines[i]))
    && (forall k :: k in m ==> exists i :: 0 <= i < |lines| && NameOf(lines[i]) == k)
  }

  lemma StartIff(first: string)
    requires '\n' !in first
    ensures GoodStart(first) <==> IsStart(first)
  {
  }

  // ---------------------------------------------------------------- header fields

  lemma ColonIff(line: string)
    ensures ':' in line <==> Find(line, ':') < |line|
  {
    FindFirst(line, ':');
    assert line[..|line|] == line;
  }

  /** What was read before, and the fields of these lines. */
  predicate Extends(m: map<string, string>, read: map<string, string>, lines: seq<string>)
    requires AreHeaders(lines)
  {
    && (forall k :: k in read ==> k in m && m[k] == read[k])
    && (forall i :: 0 <= i < |lines| ==> NameOf(lines[i]) in m && m[NameOf(lines[i])] == ValueOf(lines[i]))
    && (forall k :: k in m ==> k in read || exists i :: 0 <= i < |lines| && NameOf(lines[i]) == k)
  }

  predicate AllNew(lines: seq<string>, read: map<string, string>) {
    AreHeaders(lines) && forall i :: 0 <= i < |lines| ==> NameOf(lines[i]) !in read
  }

  lemma NewFirst(lines: seq<string>, read: map<string, string>, v: string)
    requires lines != [] && IsHeader(lines[0]) && NameOf(lines[0]) !in read
    ensures AllNew(lines[1..], read[NameOf(lines[0]) := v]) <==> AllNew(lines, read)
  {
    hide NameOf, IsHeader;
    var more := lines[1..];
    assert forall i :: 0 <= i < |more| ==> more[i] == lines[i + 1];
    if AllNew(more, read[NameOf(lines[0]) := v]) {
      forall i | 0 <= i < |lines|
        ensures IsHeader(lines[i]) && NameOf(lines[i]) !in read && (i > 0 ==> NameOf(lines[i]) != NameOf(lines[0]))
      {
        if i > 0 {
          assert lines[i] == more[i - 1];
        }
      }
      forall i, j | 0 <= i < j < |lines|
        ensures NameOf(lines[i]) != NameOf(lines[j])
      {
        if i > 0 {
          assert lines[i] == more[i - 1] && lines[j] == more[j - 1];
        }
      }
    }
  }

  lemma ExtendsFirst(m: map<string, string>, read: map<string, string>, lines: seq<string>)
    requires lines != [] && AllNew(lines, read) && AreHeaders(lines[1..])
    requires Extends(m, read[NameOf(lines[0]) := ValueOf(lines[0])], lines[1..])
    ensures Extends(m, read, lines)
  {
    hide NameOf, ValueOf, IsHeader;
    var more := lines[1..];
    forall i | 0 <= i < |lines|
      ensures NameOf(lines[i]) in m && m[NameOf(lines[i])] == ValueOf(lines[i])
    {
      if i > 0 {
        assert lines[i] == more[i - 1];
      }
    }
    forall k | k in m && k !in read
      ensures exists i :: 0 <= i < |lines| && NameOf(lines[i]) == k
    {
      if k != NameOf(lines[0]) {
        var i :| 0 <= i < |more| && NameOf(more[i]) == k;
        assert lines[i + 1] == more[i];
      }
    }
  }

  /** One more line. */
  lemma FieldFirst(lines: seq<string>, read: map<string, string>)
    requires lines != [] && '\n' !in lines[0]
    ensures if IsHeader(lines[0]) && NameOf(lines[0]) !in read
      then AddFields(lines, read) == AddFields(lines[1..], read[NameOf(lines[0]) := ValueOf(lines[0])])
      else AddFields(lines, read).Rejected?
  {
    hide Find, Lower, Trim;
    ColonIff(lines[0]);
  }

  /** The fields are taken exactly when the lines are headers with names that are new. */
  lemma {:induction false} FieldsIff(lines: seq<string>, read: map<string, string>)
    requires forall i :: 0 <= i < |lines| ==> '\n' !in lines[i]
    ensures AddFields(lines, read).Read? <==> AllNew(lines, read)
    ensures AddFields(lines, read).Read? ==> AreHeaders(lines) && Extends(AddFields(lines, read).m, read, lines)
    decreases |lines|
  {
    hide NameOf, ValueOf, IsHeader, AllNew, Extends, AreHeaders;
    if lines == [] {
      NoFields(read);
    } else {
      FieldFirst(lines, read);
      AllNewFirst(lines, read);
      if IsHeader(lines[0]) && NameOf(lines[0]) !in read {
        var next := read[NameOf(lines[0]) := ValueOf(lines[0])];
        FieldsIff(lines[1..], next);
        NewFirst(lines, read, ValueOf(lines[0]));
        if AddFields(lines, read).Read? {
          NewAreHeaders(lines[1..], next);
          NewAreHeaders(lines, read);
          ExtendsFirst(AddFields(lines, read).m, read, lines);
        }
      }
    }
  }

  lemma NoFields(read: map<string, string>)
    ensures AddFields([], read) == Read(read) && AllNew([], read) && Extends(read, read, [])
  {
  }

  lemma AllNewFirst(lines: seq<string>, read: map<string, string>)
    requires lines != []
    ensures AllNew(lines, read) ==> IsHeader(lines[0]) && NameOf(lines[0]) !in read
  {
  }

  lemma NewAreHeaders(lines: seq<string>, read: map<string, string>)
    requires AllNew(lines, read)
    ensures AreHeaders(lines)
  {
  }

  // ---------------------------------------------------------------- lines

  predicate NonEmptyLines(lines: seq<string>) {
    forall i :: 0 <= i < |lines| ==> lines[i] != "" && '\n' !in lines[i]
  }

  /** The lines read are the ones the data starts with, and the empty line follows them. */
  lemma {:induction false} LinesTaken(data: string, total: nat)
    ensures var (lines, end) := ReadLines(data, total);
      && (end.Blank? ==> NonEmptyLines(lines) && data == Joined(lines) + (CRLF + end.rest))
      && (end.Blank? ==> end.total == total + |Joined(lines)| + 2 <= LIMIT)
    decreases |data|
  {
    hide ReadLine;
    var l := ReadLine(data, total);
    if l.Parsed? {
      ReadLineIsLine(data, total);
      if l.value != "" {
        var (more, end) := ReadLines(l.rest, l.total);
        LinesTaken(l.rest, l.total);
        assert ReadLines(data, total) == ([l.value] + more, end);
        if end.Blank? {
          JoinedCons(l.value, more);
          Regrouped(l.value, CRLF, Joined(more), CRLF + end.rest);
        }
      } else {
        assert Joined([]) + (CRLF + l.rest) == "" + CRLF + l.rest;
      }
    }
  }

  lemma Regrouped(a: string, b: string, c: string, d: string)
    ensures a + b + (c + d) == a + b + c + d
  {
  }

  lemma NothingMissingMeans(m: map<string, string>, i: nat)
    requires i <= |REQUIRED|
    ensures FirstMissing(m, i).None? <==> forall k :: i <= k < |REQUIRED| ==> Get(m, REQUIRED[k]) != ""
    decreases |REQUIRED| - i
  {
    if i < |REQUIRED| {
      NothingMissingMeans(m, i + 1);
    }
  }

  lemma NonEmptyHeaders(lines: seq<string>)
    requires AreHeaders(lines)
    ensures NonEmptyLines(lines) && PlainLines(lines)
  {
    hide NameOf;
    forall i | 0 <= i < |lines|
      ensures lines[i] != "" && '\n' !in lines[i]
    {
      assert IsHeader(lines[i]);
    }
  }

  // ---------------------------------------------------------------- whole messages

  /** The required fields are present exactly when the lines have them, and so is the length. */
  lemma FieldsPresent(m: map<string, string>, lines: seq<string>, n: nat)
    requires AreHeaders(lines) && Holds(m, lines)
    ensures FirstMissing(m, 0).None?
      <==> forall r :: r in ["via", "from", "to", "call-id", "cseq"] ==> HasField(lines, r)
    ensures Atoi(Get(m, LENGTH)) == Some(n)
      <==> exists i :: 0 <= i < |lines| && NameOf(lines[i]) == "content-length" && Atoi(ValueOf(lines[i])) == Some(n)
  {
    hide NameOf, ValueOf, AreHeaders, FirstMissing;
    NothingMissingMeans(m, 0);
    assert Atoi("") == None;
    forall r
      ensures Get(m, r) != "" <==> HasField(lines, r)
    {
    }
    assert REQUIRED == ["via", "from", "to", "call-id", "cseq"];
    if FirstMissing(m, 0).None? {
      forall r | r in REQUIRED
        ensures HasField(lines, r)
      {
        var k :| 0 <= k < |REQUIRED| && REQUIRED[k] == r;
        assert Get(m, REQUIRED[k]) != "";
      }
    }
    if i :| 0 <= i < |lines| && NameOf(lines[i]) == "content-length" && Atoi(ValueOf(lines[i])) == Some(n) {
      assert Get(m, LENGTH) == ValueOf(lines[i]);
    }
  }

  lemma ExtendsHolds(m: map<string, string>, lines: seq<string>)
    requires AreHeaders(lines)
    ensures Extends(m, map[], lines) <==> Holds(m, lines)
  {
    hide NameOf, ValueOf;
  }

  lemma EmptyMapIsNew(lines: seq<string>)
    ensures AllNew(lines, map[]) <==> AreHeaders(lines)
  {
  }

  /** A message that arrives whole is read, whatever follows it. */
  lemma WholeIsRead(first: string, lines: seq<string>, body: string, rest: string)
    requires WellFormed(first, lines, body)
    ensures var p := ReadSip(Text(first, lines, body) + rest);
      && p.Parsed? && p.rest == rest && p.value.first == first && p.value.body == body
      && Holds(p.value.headers, lines)
  {
    hide ReadLine, ReadLines, AddFields, AreHeaders, Joined, Extends, Holds, HasField, Atoi, FirstMissing, NameOf,
      ValueOf, IsStart, GoodStart, AllNew;
    var tail := body + rest;
    var after := Joined(lines) + (CRLF + tail);
    assert Text(first, lines, body) + rest == first + CRLF + after;
    StartHasNoBreak(first);
    LineRead(first, after, 0);
    StartIff(first);
    NonEmptyHeaders(lines);
    LinesRead(lines, tail, |first| + 2);
    EmptyMapIsNew(lines);
    FieldsIff(lines, map[]);
    var m := AddFields(lines, map[]).m;
    ExtendsHolds(m, lines);
    FieldsPresent(m, lines, |body|);
    assert tail[..|body|] == body && tail[|body|..] == rest;
  }

  lemma StartHasNoBreak(first: string)
    requires IsStart(first)
    ensures '\n' !in first
  {
  }

  /** What is read as a message is one, whole, and what is left is what follows it. */
  lemma ReadIsWhole(data: string) returns (lines: seq<string>)
    requires ReadSip(data).Parsed?
    ensures var p := ReadSip(data); var m := p.value;
      && WellFormed(m.first, lines, m.body) && Holds(m.headers, lines)
      && data == Text(m.first, lines, m.body) + p.rest
  {
    hide ReadLine, ReadLines, AddFields, AreHeaders, Joined, Extends, Holds, HasField, Atoi, FirstMissing, NameOf,
      ValueOf, IsStart, GoodStart, AllNew, NonEmptyLines;
    var p := ReadSip(data);
    var l := ReadLine(data, 0);
    ReadLineIsLine(data, 0);
    StartIff(l.value);
    lines := ReadLines(l.rest, l.total).0;
    var end := ReadLines(l.rest, l.total).1;
    LinesTaken(l.rest, l.total);
    NoBreaks(lines);
    FieldsIff(lines, map[]);
    EmptyMapIsNew(lines);
    var m := AddFields(lines, map[]).m;
    ExtendsHolds(m, lines);
    FieldsPresent(m, lines, |p.value.body|);
    assert end.rest == p.value.body + p.rest;
    TextSplits(l.value, lines, p.value.body, p.rest);
  }

  lemma NoBreaks(lines: seq<string>)
    requires NonEmptyLines(lines)
    ensures forall i :: 0 <= i < |lines| ==> '\n' !in lines[i]
  {
  }

  lemma TextSplits(first: string, lines: seq<string>, body: string, rest: string)
    ensures Text(first, lines, body) + rest == first + CRLF + (Joined(lines) + (CRLF + (body + rest)))
  {
    hide Joined;
  }

  /** A message is read from the data if and only if the data starts with a whole one. */
  lemma ReadIff(data: string)
    ensures ReadSip(data).Parsed?
      <==> exists first, lines, body, rest :: WellFormed(first, lines, body) && data == Text(first, lines, body) + rest
  {
    hide ReadSip, WellFormed, Text, Holds;
    if ReadSip(data).Parsed? {
      var lines := ReadIsWhole(data);
    }
    if first, lines, body, rest :| WellFormed(first, lines, body) && data == Text(first, lines, body) + rest {
      WholeIsRead(first, lines, body, rest);
    }
  }

  /** The body of a message that was read has exactly the length its Content-Length announces. */
  lemma BodyIsWhole(data: string)
    requires ReadSip(data).Parsed?
    ensures var m := ReadSip(data).value;
      "content-length" in m.headers && Atoi(m.headers["content-length"]) == Some(|m.body|) && |m.body| <= 2048
  {
    var lines := ReadIsWhole(data);
    hide ReadSip, NameOf, ValueOf, AreHeaders, HasField, Joined;
  }

  lemma SameMap(m: map<string, string>, n: map<string, string>, first: string, lines: seq<string>, body: string)
    requires WellFormed(first, lines, body) && Holds(m, lines) && Holds(n, lines)
    ensures m == n
  {
    hide NameOf, ValueOf;
    forall k
      ensures k in m <==> k in n
      ensures k in m ==> m[k] == n[k]
    {
    }
  }

  /** More data does not change what was read. */
  lemma MoreIsLeft(data: string, more: string)
    requires ReadSip(data).Parsed?
    ensures var p, q := ReadSip(data), ReadSip(data + more);
      q.Parsed? && q.value == p.value && q.rest == p.rest + more
  {
    hide ReadSip, WellFormed, Text, Holds;
    var p := ReadSip(data);
    var lines := ReadIsWhole(data);
    WholeIsRead(p.value.first, lines, p.value.body, p.rest + more);
    var text := Text(p.value.first, lines, p.value.body);
    assert text + (p.rest + more) == data + more;
    SameMap(p.value.headers, ReadSip(data + more).value.headers, p.value.first, lines, p.value.body);
  }

  /** A message that does not arrive whole is never read, wherever it is cut. */
  lemma CutMessage(first: string, lines: seq<string>, body: string, n: nat)
    requires WellFormed(first, lines, body) && n < |Text(first, lines, body)|
    ensures ReadSip(Text(first, lines, body)[..n]).Failed?
  {
    hide ReadSip, WellFormed, Text, Holds;
    var text := Text(first, lines, body);
    if ReadSip(text[..n]).Parsed? {
      MoreIsLeft(text[..n], text[n..]);
      assert text[..n] + text[n..] == text == text + "";
      WholeIsRead(first, lines, body, "");
    }
  }

  /** So it is with every printed message that fits the reader's limit. */
  lemma CutPrint(first: string, h: map<string, string>, order: seq<string>, body: string, n: nat)
    requires Enumerates(order, h) && Sound(first, h, body) && Fits(first, h, order, body)
    requires n < |Print(first, h, order, body)|
    ensures ReadSip(Print(first, h, order, body)[..n]).Failed?
  {
    hide ReadSip, Sound, Fits, Print, ParsedFrom;
    var text := Print(first, h, order, body);
    if ReadSip(text[..n]).Parsed? {
      MoreIsLeft(text[..n], text[n..]);
      assert text[..n] + text[n..] == text == text + "";
      RoundTrip(first, h, order, body, "");
    }
  }
}
