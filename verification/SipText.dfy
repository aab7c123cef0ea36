/** The string operations the SIP code uses, on strings whose characters each stand for one byte. */
module SipText {
  import opened Octets

  predicate IsSpace(c: char) {
    c == ' ' || c == '\t' || c == '\n' || c == '\r' || c == '\U{0B}' || c == '\U{0C}'
  }

  /** Position of the first `c`, or the length when there is none. */
  function Find(s: string, c: char): (i: nat)
    ensures i <= |s|
  {
    if s == [] || s[0] == c then 0 else 1 + Find(s[1..], c)
  }

  lemma {:induction false} FindFirst(s: string, c: char)
    ensures c !in s[..Find(s, c)]
    ensures Find(s, c) < |s| ==> s[Find(s, c)] == c
  {
    if s != [] && s[0] != c {
      FindFirst(s[1..], c);
      assert s[..Find(s, c)] == [s[0]] + s[1..][..Find(s[1..], c)];
    }
  }

  lemma {:induction false} FindIn(a: string, c: char, b: string)
    requires c !in a
    ensures Find(a + [c] + b, c) == |a|
  {
    var s := a + [c] + b;
    if a != [] {
      FindIn(a[1..], c, b);
      assert s[1..] == a[1..] + [c] + b && s[0] == a[0];
    }
  }

  // ---------------------------------------------------------------- trimming

  function TrimLeft(s: string): string {
    if s != [] && IsSpace(s[0]) then TrimLeft(s[1..]) else s
  }

  function TrimRight(s: string): string {
    if s != [] && IsSpace(s[|s| - 1]) then TrimRight(s[..|s| - 1]) else s
  }

  function Trim(s: string): string {
    TrimRight(TrimLeft(s))
  }

  predicate Trimmed(s: string) {
    s == [] || (!IsSpace(s[0]) && !IsSpace(s[|s| - 1]))
  }

  lemma {:induction false} TrimRightKeeps(s: string)
    ensures TrimRight(s) <= s
    ensures TrimRight(s) != [] ==> !IsSpace(TrimRight(s)[|TrimRight(s)| - 1])
  {
    if s != [] && IsSpace(s[|s| - 1]) {
      TrimRightKeeps(s[..|s| - 1]);
    }
  }

  lemma {:induction false} TrimLeftKeeps(s: string)
    ensures |TrimLeft(s)| <= |s| && TrimLeft(s) == s[|s| - |TrimLeft(s)|..]
    ensures TrimLeft(s) != [] ==> !IsSpace(TrimLeft(s)[0])
  {
    if s != [] && IsSpace(s[0]) {
      TrimLeftKeeps(s[1..]);
    }
  }

  lemma TrimTrims(s: string)
    ensures Trimmed(Trim(s))
    ensures forall c :: c in Trim(s) ==> c in s
    ensures |Trim(s)| <= |s|
  {
    TrimLeftKeeps(s);
    TrimRightKeeps(TrimLeft(s));
  }

  lemma TrimOfTrimmed(s: string)
    requires Trimmed(s)
    ensures Trim(s) == s && Trim(" " + s) == s
  {
    assert (" " + s)[1..] == s;
  }

  lemma {:induction false} TrimLeftIs(s: string)
    ensures |TrimLeft(s)| <= |s| && forall c :: c in s[..|s| - |TrimLeft(s)|] ==> c in " \t\n\r\U{0B}\U{0C}"
    ensures (TrimLeft(s) != "" ==> TrimLeft(s)[0] !in " \t\n\r\U{0B}\U{0C}")
  {
    TrimLeftKeeps(s);
    if s != [] && IsSpace(s[0]) {
      TrimLeftIs(s[1..]);
      var n := |s| - |TrimLeft(s)|;
      assert s[..n] == [s[0]] + s[1..][..n - 1];
    }
  }

  lemma {:induction false} TrimRightIs(s: string)
    ensures TrimRight(s) <= s && forall c :: c in s[|TrimRight(s)|..] ==> c in " \t\n\r\U{0B}\U{0C}"
    ensures (TrimRight(s) != "" ==> TrimRight(s)[|TrimRight(s)| - 1] !in " \t\n\r\U{0B}\U{0C}")
  {
    TrimRightKeeps(s);
    if s != [] && IsSpace(s[|s| - 1]) {
      TrimRightIs(s[..|s| - 1]);
      var n := |TrimRight(s)|;
      assert s[n..] == s[..|s| - 1][n..] + [s[|s| - 1]];
    }
  }

  /** What is left lies between white space, and neither starts nor ends with any. */
  lemma TrimIs(s: string) returns (a: string, b: string)
    ensures s == a + Trim(s) + b
    ensures forall c :: c in a + b ==> c in " \t\n\r\U{0B}\U{0C}"
    ensures Trim(s) != "" ==> Trim(s)[0] !in " \t\n\r\U{0B}\U{0C}"
    ensures Trim(s) != "" ==> Trim(s)[|Trim(s)| - 1] !in " \t\n\r\U{0B}\U{0C}"
  {
    var left, n := TrimLeft(s), |s| - |TrimLeft(s)|;
    TrimLeftIs(s);
    TrimLeftKeeps(s);
    TrimRightIs(left);
    a, b := s[..n], left[|Trim(s)|..];
    assert left == Trim(s) + b && s == a + left;
  }

  // ---------------------------------------------------------------- lower case

  function LowerChar(c: char): char {
    if 'A' <= c <= 'Z' then (c as int + 32) as char else c
  }

  function Lower(s: string): (l: string)
    ensures |l| == |s| && forall i :: 0 <= i < |s| ==> l[i] == LowerChar(s[i])
  {
    if s == [] then [] else [LowerChar(s[0])] + Lower(s[1..])
  }

  /** Only the letters of ASCII change, each to its small one. */
  lemma LowerLetters(i: nat, c: char)
    ensures i < 26 ==> LowerChar("ABCDEFGHIJKLMNOPQRSTUVWXYZ"[i]) == "abcdefghijklmnopqrstuvwxyz"[i]
    ensures c < 'A' || c > 'Z' ==> LowerChar(c) == c
  {
  }

  // ---------------------------------------------------------------- decimal numbers

  predicate IsDigit(c: char) {
    '0' <= c <= '9'
  }

  function Digit(n: int): char
    requires 0 <= n < 10
  {
    ('0' as int + n) as char
  }

  function Decimal(n: nat): (s: string)
    ensures s != [] && forall i :: 0 <= i < |s| ==> IsDigit(s[i])
  {
    if n < 10 then [Digit(n)] else Decimal(n / 10) + [Digit(n % 10)]
  }

  /** The value of a string of digits. */
  function DigitsValue(s: string): Option<nat> {
    if s == [] then Some(0)
    else
      var c := s[|s| - 1];
      var v := DigitsValue(s[..|s| - 1]);
      if IsDigit(c) && v.Some? then Some(10 * v.value + (c as int - '0' as int)) else None
  }

  lemma {:induction false} DecimalValue(n: nat)
    ensures DigitsValue(Decimal(n)) == Some(n)
  {
    if n < 10 {
      assert Decimal(n)[..0] == [];
    } else {
      DecimalValue(n / 10);
      assert Decimal(n)[..|Decimal(n)| - 1] == Decimal(n / 10);
    }
  }

  /** `strconv.Atoi`: an optional sign and digits. The range of the result is left to the callers. */
  function Atoi(s: string): Option<int> {
    if s != [] && (s[0] == '-' || s[0] == '+') then
      var v := if s[1..] == [] then None else DigitsValue(s[1..]);
      if v.None? then None else
        var n: int := v.value;
        Some(if s[0] == '-' then -n else n)
    else
      var v := if s == [] then None else DigitsValue(s);
      if v.None? then None else Some(v.value)
  }

  /** The usual notation: the last digit and, before it, the tenth. */
  lemma DecimalDigits(n: nat, d: nat)
    requires d < 10
    ensures Decimal(d) == ["0123456789"[d]]
    ensures n > 0 ==> Decimal(10 * n + d) == Decimal(n) + ["0123456789"[d]]
  {
    assert (10 * n + d) / 10 == n && (10 * n + d) % 10 == d;
  }

  lemma DigitIn(c: char)
    ensures IsDigit(c) <==> c in "0123456789"
  {
    if IsDigit(c) {
      assert "0123456789"[c as int - '0' as int] == c;
    }
  }

  /** Signs are read, and nothing but digits after them. */
  lemma AtoiSigns(n: nat, c: char, s: string)
    ensures var k: int := n; Atoi("-" + Decimal(n)) == Some(-k) && Atoi("+" + Decimal(n)) == Some(k)
    ensures Atoi("") == Atoi("-") == Atoi("+") == None
    ensures c !in "0123456789" ==> Atoi(s + [c]) == None
  {
    DecimalValue(n);
    assert ("-" + Decimal(n))[1..] == Decimal(n) && ("+" + Decimal(n))[1..] == Decimal(n);
    if c !in "0123456789" {
      DigitIn(c);
      NoValue(s, c);
      if s != [] {
        NoValue(s[1..], c);
        assert (s + [c])[1..] == s[1..] + [c];
      }
    }
  }

  lemma NoValue(s: string, c: char)
    requires !IsDigit(c)
    ensures DigitsValue(s + [c]) == None
  {
    assert (s + [c])[|s|] == c;
  }

  /** `strconv.ParseUint` for base 10 and 64 bits. */
  function ParseUint(s: string): Option<nat> {
    var v := if s == [] then None else DigitsValue(s);
    if v.Some? && v.value < 0x1_0000_0000_0000_0000 then v else None
  }

  lemma AtoiDecimal(n: nat)
    ensures Atoi(Decimal(n)) == Some(n)
  {
    DecimalValue(n);
    assert IsDigit(Decimal(n)[0]);
  }

  lemma {:induction false} DecimalLength(n: nat, k: nat)
    requires n < Power10(k) && k >= 1
    ensures |Decimal(n)| <= k
  {
    if n >= 10 {
      DecimalLength(n / 10, k - 1);
    }
  }

  function Power10(k: nat): nat {
    if k == 0 then 1 else 10 * Power10(k - 1)
  }

  // ---------------------------------------------------------------- fields

  function Word(s: string): (w: string)
    ensures w <= s
  {
    if s == [] || IsSpace(s[0]) then [] else [s[0]] + Word(s[1..])
  }

  function Fields(s: string): seq<string>
    decreases |s|
  {
    if s == [] then []
    else if IsSpace(s[0]) then Fields(s[1..])
    else [Word(s)] + Fields(s[|Word(s)|..])
  }

  predicate NoSpace(s: string) {
    forall i :: 0 <= i < |s| ==> !IsSpace(s[i])
  }

  lemma {:induction false} WordIn(a: string, b: string)
    requires NoSpace(a) && (b == [] || IsSpace(b[0]))
    ensures Word(a + b) == a
  {
    if a == [] {
      assert a + b == b;
    } else {
      WordIn(a[1..], b);
      assert (a + b)[1..] == a[1..] + b && (a + b)[0] == a[0];
    }
  }

  /** Two words with a blank between them. */
  lemma FieldsOfTwo(a: string, b: string)
    requires NoSpace(a) && NoSpace(b) && a != [] && b != []
    ensures Fields(a + " " + b) == [a, b]
  {
    var s := a + " " + b;
    assert s == a + (" " + b);
    WordIn(a, " " + b);
    var t := " " + b;
    assert s[|a|..] == t && t[1..] == b;
    WordIn(b, []);
    assert b + [] == b && b[|b|..] == [];
    assert Fields(b) == [b] + Fields([]);
  }
}
