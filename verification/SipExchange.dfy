/** A request and its reply over the wire: both are read back, and the reply names the request. */
module SipExchange {
  import opened SipText
  import opened SipWire
  import opened SipRoundTrip
  import opened SipRequests

  // ---------------------------------------------------------------- field values

  predicate Clean(s: string) {
    forall i :: 0 <= i < |s| ==> s[i] != '\r' && s[i] != '\n'
  }

  predicate GoodValue(v: string) {
    Clean(v) && Trimmed(v) && v != ""
  }

  predicate GoodName(k: string) {
    Clean(k) && Trimmed(k) && k != "" && ':' !in k
  }

  lemma FieldIsGood(k: string, v: string)
    requires GoodName(k) && GoodValue(v)
    ensures GoodField(k, v)
  {
  }

  /** Good text around clean text is good text. */
  lemma Around(a: string, b: string, c: string)
    requires GoodValue(a) && Clean(b) && GoodValue(c)
    ensures GoodValue(a + b + c)
  {
  }

  lemma HexIsGood(s: string)
    requires IsHex(s) && s != ""
    ensures GoodValue(s)
  {
    assert forall i :: 0 <= i < |s| ==> !IsSpace(s[i]);
  }

  // ---------------------------------------------------------------- names

  /** The header names as `request` spells them. */
  function Name(i: nat): string
    requires i < 10
  {
    ["Via", "From", "To", "Call-ID", "CSeq", "Max-Forwards", "Content-Type",
     "X-Tunnel-Version", "X-Tunnel-Nonce", "X-Tunnel-Proof"][i]
  }

  /** The same names as the parser keeps them. */
  function LowName(i: nat): string
    requires i < 10
  {
    ["via", "from", "to", "call-id", "cseq", "max-forwards", "content-type",
     "x-tunnel-version", "x-tunnel-nonce", "x-tunnel-proof"][i]
  }

  lemma NameIsGood(i: nat)
    requires i < 10
    ensures GoodName(Name(i)) && |Name(i)| <= 16
  {
  }

  lemma LowNameIsGood(i: nat)
    requires i < 10
    ensures GoodName(LowName(i)) && |LowName(i)| <= 16
  {
  }

  lemma NameLowers(i: nat)
    requires i < 10
    ensures Lower(Name(i)) == LowName(i)
  {
    hide Lower;
    var k, l := Name(i), LowName(i);
    assert |k| == |l|;
    assert forall j :: 0 <= j < |k| ==> LowerChar(k[j]) == l[j];
  }

  lemma LowNameLowers(i: nat)
    requires i < 10
    ensures Lower(LowName(i)) == LowName(i)
  {
    hide Lower;
  }

  lemma LowNamesDiffer(i: nat, j: nat)
    requires i < 10 && j < 10
    ensures LowName(i) != LENGTH
    ensures i != j ==> LowName(i) != LowName(j)
  {
  }

  // ---------------------------------------------------------------- maps of fields

  const MAX_VALUE: int := 360

  /** `k` is the `i`-th name, as `request` spells it or as the parser does. */
  predicate Named(k: string, i: nat) {
    i < 10 && (k == Name(i) || k == LowName(i))
  }

  /** A map of at most one spelling of each known name, with printable values. */
  ghost predicate FieldMap(h: map<string, string>) {
    && (forall k :: k in h ==> GoodValue(h[k]) && exists i :: Named(k, i))
    && (forall i :: 0 <= i < 10 ==> !(Name(i) in h && LowName(i) in h))
    && (forall i :: 0 <= i < 5 ==> Name(i) in h || LowName(i) in h)
  }

  predicate Short(h: map<string, string>) {
    forall k :: k in h ==> |h[k]| <= MAX_VALUE
  }

  lemma NamedIs(k: string, i: nat)
    requires Named(k, i)
    ensures GoodName(k) && |k| <= 16 && Lower(k) == LowName(i) != LENGTH
  {
    hide Lower, GoodName, Name, LowName;
    LowNamesDiffer(i, i);
    if k == Name(i) {
      NameIsGood(i);
      NameLowers(i);
    } else {
      LowNameIsGood(i);
      LowNameLowers(i);
    }
  }

  lemma FieldMapIsSound(first: string, h: map<string, string>, body: string)
    requires FieldMap(h) && '\n' !in first && GoodStart(first) && |body| <= MAX_BODY
    ensures Sound(first, h, body)
  {
    hide Lower, GoodName, GoodValue, GoodField, GoodStart, Named, Name, LowName;
    forall k | k in h
      ensures GoodField(k, h[k]) && Lower(k) != LENGTH
    {
      var i: nat :| Named(k, i);
      NamedIs(k, i);
      FieldIsGood(k, h[k]);
    }
    forall j, k | j in h && k in h && j != k
      ensures Lower(j) != Lower(k)
    {
      NamesDiffer(h, j, k);
    }
    forall r | r in REQUIRED
      ensures exists k :: k in h && Lower(k) == r && h[k] != ""
    {
      RequiredNamed(h, r);
    }
  }

  lemma NamesDiffer(h: map<string, string>, j: string, k: string)
    requires FieldMap(h) && j in h && k in h && j != k
    ensures Lower(j) != Lower(k)
  {
    hide Lower, GoodName, GoodValue, Name, LowName;
    var a: nat :| Named(j, a);
    var b: nat :| Named(k, b);
    NamedIs(j, a);
    NamedIs(k, b);
    LowNamesDiffer(a, b);
    assert !(Name(a) in h && LowName(a) in h);
  }

  lemma RequiredNamed(h: map<string, string>, r: string)
    requires FieldMap(h) && r in REQUIRED
    ensures exists k :: k in h && Lower(k) == r && h[k] != ""
  {
    hide Lower, GoodName;
    var i :| 0 <= i < 5 && REQUIRED[i] == r;
    assert LowName(i) == r;
    RequiredSpelled(h, r, i);
  }

  lemma RequiredSpelled(h: map<string, string>, r: string, i: nat)
    requires FieldMap(h) && i < 5 && LowName(i) == r
    ensures exists k :: k in h && Lower(k) == r && h[k] != ""
  {
    hide Lower, GoodName, Name, LowName;
    var k := if Name(i) in h then Name(i) else LowName(i);
    assert k in h && GoodValue(h[k]);
    assert Named(k, i);
    NamedIs(k, i);
  }

  // ---------------------------------------------------------------- size

  lemma {:induction false} Pigeonhole<T>(s: seq<T>, t: seq<T>)
    requires forall i, j :: 0 <= i < j < |s| ==> s[i] != s[j]
    requires forall i :: 0 <= i < |s| ==> s[i] in t
    ensures |s| <= |t|
  {
    if s != [] {
      var p :| 0 <= p < |t| && t[p] == s[0];
      var rest := t[..p] + t[p + 1..];
      forall i | 0 <= i < |s[1..]|
        ensures s[1..][i] in rest
      {
        var q :| 0 <= q < |t| && t[q] == s[i + 1];
        assert rest[if q < p then q else q - 1] == s[i + 1];
      }
      Pigeonhole(s[1..], rest);
    }
  }

  lemma FewFields(h: map<string, string>, order: seq<string>)
    requires FieldMap(h) && Enumerates(order, h)
    ensures |order| <= 10
  {
    hide Lower, GoodName, GoodValue, FieldMap, Name, LowName;
    var all := seq(10, i requires 0 <= i < 10 => LowName(i));
    var lows := seq(|order|, i requires 0 <= i < |order| => Lower(order[i]));
    forall i | 0 <= i < |lows|
      ensures lows[i] in all
    {
      KnownName(h, order[i]);
      var n :| 0 <= n < 10 && Lower(order[i]) == LowName(n);
      assert all[n] == lows[i];
    }
    forall i, j | 0 <= i < j < |lows|
      ensures lows[i] != lows[j]
    {
      NamesDiffer(h, order[i], order[j]);
    }
    Pigeonhole(lows, all);
  }

  lemma KnownName(h: map<string, string>, k: string)
    requires FieldMap(h) && k in h
    ensures (exists i :: 0 <= i < 10 && Lower(k) == LowName(i)) && |k| <= 16
  {
    hide Lower, GoodName, GoodValue, Name, LowName;
    var i: nat :| Named(k, i);
    NamedIs(k, i);
  }

  lemma {:induction false} HeadersLength(h: map<string, string>, order: seq<string>)
    requires FieldMap(h) && Short(h) && forall k :: k in order ==> k in h
    ensures |PrintHeaders(h, order)| <= 380 * |order|
  {
    hide FieldMap;
    if order != [] {
      KnownName(h, order[0]);
      HeadersLength(h, order[1..]);
    }
  }

  lemma FieldMapFits(first: string, h: map<string, string>, order: seq<string>, body: string)
    requires FieldMap(h) && Short(h) && Enumerates(order, h) && |first| <= 4000 && |body| <= MAX_BODY
    ensures Fits(first, h, order, body)
  {
    hide FieldMap, Enumerates, PrintHeaders, Decimal;
    EnumeratedKeys(h, order);
    FewFields(h, order);
    HeadersLength(h, order);
    assert Power10(2) == 100 && Power10(4) == 10_000;
    DecimalLength(|body|, 4);
  }

  lemma EnumeratedKeys(h: map<string, string>, order: seq<string>)
    requires Enumerates(order, h)
    ensures forall k :: k in order ==> k in h
  {
  }
}
