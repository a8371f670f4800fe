/** Decimal numbers as text: digits, padding, and the two number formats the code accepts. */
module DecimalText {
  import opened Wrappers

  function Pow10(n: nat): (p: nat)
    ensures p > 0
  {
    if n == 0 then 1 else 10 * Pow10(n - 1)
  }

  lemma {:induction false} Pow10Sum(a: nat, b: nat)
    ensures Pow10(a + b) == Pow10(a) * Pow10(b)
  {
    if a > 0 {
      Pow10Sum(a - 1, b);
      assert Pow10(a + b) == 10 * (Pow10(a - 1) * Pow10(b));
      Reorder(10, Pow10(a - 1), Pow10(b));
    }
  }

  lemma Reorder(a: int, b: int, c: int)
    ensures a * (b * c) == (a * b) * c
  {
  }

  // ----- digits -----

  predicate IsDigit(c: char) { '0' <= c <= '9' }

  predicate AllDigits(s: string) { forall i :: 0 <= i < |s| ==> IsDigit(s[i]) }

  function DigitValue(c: char): nat
    requires IsDigit(c)
  {
    c as int - '0' as int
  }

  function DigitChar(d: nat): (c: char)
    requires d < 10
    ensures IsDigit(c) && DigitValue(c) == d
  {
    ('0' as int + d) as char
  }

  /** The number a string of digits denotes. */
  function Value(s: string): nat
    requires AllDigits(s)
  {
    if |s| == 0 then 0 else Value(s[..|s| - 1]) * 10 + DigitValue(s[|s| - 1])
  }

  function Print(n: nat): (s: string)
    ensures AllDigits(s) && |s| > 0
  {
    if n < 10 then [DigitChar(n)] else Print(n / 10) + [DigitChar(n % 10)]
  }

  lemma {:induction false} PrintValue(n: nat)
    ensures Value(Print(n)) == n
  {
    if n < 10 {
      assert Print(n)[..0] == "";
      assert Value(Print(n)) == Value("") * 10 + n;
    } else {
      PrintValue(n / 10);
      assert Print(n)[..|Print(n)| - 1] == Print(n / 10);
    }
  }

  lemma {:induction false} ValueConcat(a: string, b: string)
    requires AllDigits(a) && AllDigits(b)
    ensures AllDigits(a + b) && Value(a + b) == Value(a) * Pow10(|b|) + Value(b)
  {
    if |b| == 0 {
      assert a + b == a;
    } else {
      var n := |b| - 1;
      ValueConcat(a, b[..n]);
      assert (a + b)[..|a + b| - 1] == a + b[..n];
      Reorder(Value(a), Pow10(n), 10);
      assert Value(a) * Pow10(|b|) == Value(a) * Pow10(n) * 10;
    }
  }

  lemma {:induction false} ValueBound(s: string)
    requires AllDigits(s)
    ensures Value(s) < Pow10(|s|)
  {
    if |s| > 0 {
      ValueBound(s[..|s| - 1]);
    }
  }

  /** No superfluous leading zero. */
  predicate NoLeadingZero(s: string) { |s| > 0 && (|s| > 1 ==> s[0] != '0') }

  lemma {:induction false} PrintNoLeadingZero(n: nat)
    ensures NoLeadingZero(Print(n)) && (n > 0 ==> Print(n)[0] != '0')
  {
    if n >= 10 {
      PrintNoLeadingZero(n / 10);
      assert Print(n)[0] == Print(n / 10)[0];
    }
  }

  lemma {:induction false} LeadingDigitWeighs(s: string)
    requires AllDigits(s) && |s| > 0 && s[0] != '0'
    ensures Value(s) > 0
  {
    if |s| > 1 {
      LeadingDigitWeighs(s[..|s| - 1]);
    }
  }

  /** Printing undoes reading exactly on the texts without leading zeros. */
  lemma {:induction false} PrintOfValue(s: string)
    requires AllDigits(s)
    ensures Print(Value(s)) == s <==> NoLeadingZero(s)
  {
    PrintNoLeadingZero(Value(s));
    if NoLeadingZero(s) {
      var n := |s| - 1;
      if n > 0 {
        assert s[..n][0] == s[0];
        LeadingDigitWeighs(s[..n]);
        PrintOfValue(s[..n]);
        assert s == s[..n] + [s[n]];
        assert Value(s) / 10 == Value(s[..n]) && Value(s) % 10 == DigitValue(s[n]);
      } else {
        assert s[..0] == "";
        assert Value(s) == DigitValue(s[0]);
      }
    }
  }

  // ----- padding and stripping -----

  function Zeros(n: nat): (z: string)
    ensures |z| == n && AllDigits(z)
  {
    if n == 0 then "" else Zeros(n - 1) + "0"
  }

  lemma {:induction false} ZerosValue(n: nat)
    ensures Value(Zeros(n)) == 0
  {
    if n > 0 {
      ZerosValue(n - 1);
      assert Zeros(n)[..n - 1] == Zeros(n - 1);
    }
  }

  function PadStart(s: string, n: nat): string { if |s| >= n then s else Zeros(n - |s|) + s }

  function PadEnd(s: string, n: nat): string { if |s| >= n then s else s + Zeros(n - |s|) }

  lemma PadStartValue(s: string, n: nat)
    requires AllDigits(s)
    ensures AllDigits(PadStart(s, n)) && Value(PadStart(s, n)) == Value(s)
    ensures |PadStart(s, n)| == if |s| >= n then |s| else n
  {
    if |s| < n {
      ValueConcat(Zeros(n - |s|), s);
      ZerosValue(n - |s|);
    }
  }

  lemma PadEndValue(s: string, n: nat)
    requires AllDigits(s) && |s| <= n
    ensures AllDigits(PadEnd(s, n)) && Value(PadEnd(s, n)) == Value(s) * Pow10(n - |s|) && |PadEnd(s, n)| == n
  {
    var z := Zeros(n - |s|);
    assert PadEnd(s, n) == s + z;
    ValueConcat(s, z);
    ZerosValue(n - |s|);
  }

  /** Drop leading zeros, but keep one digit. */
  function StripZeros(s: string): (r: string)
    ensures AllDigits(s) ==> AllDigits(r)
    ensures |s| > 0 ==> |r| > 0
  {
    if |s| > 1 && s[0] == '0' && IsDigit(s[1]) then StripZeros(s[1..]) else s
  }

  lemma {:induction false} StripZerosValue(s: string)
    requires AllDigits(s) && |s| > 0
    ensures Value(StripZeros(s)) == Value(s) && NoLeadingZero(StripZeros(s))
  {
    if |s| > 1 && s[0] == '0' {
      StripZerosValue(s[1..]);
      assert s == [s[0]] + s[1..];
      ValueConcat([s[0]], s[1..]);
      assert [s[0]][..0] == "";
      assert Value([s[0]]) == 0;
    }
  }

  /** Drop trailing zeros. */
  function TrimZeros(s: string): (r: string)
    ensures |r| <= |s| && r == s[..|r|]
  {
    if |s| > 0 && s[|s| - 1] == '0' then TrimZeros(s[..|s| - 1]) else s
  }

  lemma {:induction false} TrimZerosValue(s: string)
    requires AllDigits(s)
    ensures AllDigits(TrimZeros(s)) && Value(s) == Value(TrimZeros(s)) * Pow10(|s| - |TrimZeros(s)|)
    ensures |TrimZeros(s)| > 0 ==> TrimZeros(s)[|TrimZeros(s)| - 1] != '0'
  {
    if |s| > 0 && s[|s| - 1] == '0' {
      var n := |s| - 1;
      TrimZerosValue(s[..n]);
      Reorder(Value(TrimZeros(s)), Pow10(n - |TrimZeros(s)|), 10);
    }
  }

  // ----- reading -----

  /** White space as trimming understands it. */
  predicate IsWhite(c: char) {
    c == ' ' || '\t' <= c <= '\r' || c == '\U{A0}' || c == '\U{1680}' || '\U{2000}' <= c <= '\U{200A}'
    || c == '\U{2028}' || c == '\U{2029}' || c == '\U{202F}' || c == '\U{205F}' || c == '\U{3000}' || c == '\U{FEFF}'
  }

  function TrimStart(s: string): string { if |s| > 0 && IsWhite(s[0]) then TrimStart(s[1..]) else s }

  function TrimEnd(s: string): string { if |s| > 0 && IsWhite(s[|s| - 1]) then TrimEnd(s[..|s| - 1]) else s }

  function Trim(s: string): string { TrimEnd(TrimStart(s)) }

  function DotAt(s: string): (i: nat)
    ensures i <= |s| && (i < |s| ==> s[i] == '.') && forall k :: 0 <= k < i ==> s[k] != '.'
  {
    if |s| == 0 then 0 else if s[0] == '.' then 0 else 1 + DotAt(s[1..])
  }

  /** The digits before and after the point. */
  datatype Parts = Parts(whole: string, frac: string)

  ghost predicate PartsOk(p: Parts) { AllDigits(p.whole) && AllDigits(p.frac) && |p.whole| > 0 }

  /** Digits, and optionally a point with at least one and at most `most` further digits. */
  function Split(text: string, most: Option<nat>): (r: Option<Parts>)
    ensures r.Some? ==> PartsOk(r.value) && (most.Some? ==> |r.value.frac| <= most.value)
  {
    var s := Trim(text);
    var i := DotAt(s);
    if i == 0 || !AllDigits(s[..i]) then None
    else if i == |s| then Some(Parts(s, ""))
    else
      var frac := s[i + 1..];
      if |frac| == 0 || !AllDigits(frac) || (most.Some? && |frac| > most.value) then None else Some(Parts(s[..i], frac))
  }

  function Join(p: Parts): string { if |p.frac| == 0 then p.whole else p.whole + "." + p.frac }

  lemma TrimOfTrimmed(s: string)
    requires |s| > 0 && !IsWhite(s[0]) && !IsWhite(s[|s| - 1])
    ensures Trim(s) == s
  {
  }

  lemma DotOf(s: string, i: nat)
    requires i <= |s| && (forall k :: 0 <= k < i ==> s[k] != '.') && (i < |s| ==> s[i] == '.')
    ensures DotAt(s) == i
  {
  }

  /** What was joined is read back, part by part. */
  lemma SplitJoin(p: Parts, most: Option<nat>)
    requires PartsOk(p) && (most.Some? ==> |p.frac| <= most.value)
    ensures Split(Join(p), most) == Some(p)
  {
    var s := Join(p);
    assert s[0] == p.whole[0] && IsDigit(s[|s| - 1]);
    TrimOfTrimmed(s);
    if |p.frac| == 0 {
      DotOf(s, |s|);
      assert s[..|s|] == s;
    } else {
      DotOf(s, |p.whole|);
      assert s[..|p.whole|] == p.whole && s[|p.whole| + 1..] == p.frac;
    }
  }

  // ----- exactly which texts are read -----

  predicate AllWhite(s: string) { forall i :: 0 <= i < |s| ==> IsWhite(s[i]) }

  /** The white space of ECMAScript, by code point. */
  lemma WhiteSpaceIs(c: char)
    ensures IsWhite(c) <==> (var n := c as int; 9 <= n <= 13 || n == 32 || n == 160 || n == 5760 || 8192 <= n <= 8202 || n == 8232 || n == 8233 || n == 8239 || n == 8287 || n == 12288 || n == 65279)
  {
  }

  /** Trimming takes white space off both ends, and nothing else. */
  lemma {:induction false} TrimmedStart(s: string) returns (i: nat)
    ensures i <= |s| && TrimStart(s) == s[i..] && AllWhite(s[..i]) && (i < |s| ==> !IsWhite(s[i]))
  {
    i := 0;
    if |s| > 0 && IsWhite(s[0]) {
      var k := TrimmedStart(s[1..]);
      i := k + 1;
      assert s[1..][k..] == s[i..] && s[..i] == [s[0]] + s[1..][..k];
    }
  }

  lemma {:induction false} TrimmedEnd(s: string) returns (j: nat)
    ensures j <= |s| && TrimEnd(s) == s[..j] && AllWhite(s[j..]) && (j > 0 ==> !IsWhite(s[j - 1]))
  {
    j := |s|;
    if |s| > 0 && IsWhite(s[|s| - 1]) {
      j := TrimmedEnd(s[..|s| - 1]);
      assert s[..|s| - 1][..j] == s[..j] && s[j..] == s[..|s| - 1][j..] + [s[|s| - 1]];
    }
  }

  lemma {:induction false} TrimStartAround(a: string, s: string)
    requires AllWhite(a) && |s| > 0 && !IsWhite(s[0])
    ensures TrimStart(a + s) == s
  {
    if |a| == 0 {
      assert a + s == s;
    } else {
      assert (a + s)[1..] == a[1..] + s;
      TrimStartAround(a[1..], s);
    }
  }

  lemma {:induction false} TrimEndAround(s: string, c: string)
    requires AllWhite(c) && |s| > 0 && !IsWhite(s[|s| - 1])
    ensures TrimEnd(s + c) == s
  {
    if |c| == 0 {
      assert s + c == s;
    } else {
      var n := |c| - 1;
      assert (s + c)[..|s| + n] == s + c[..n];
      TrimEndAround(s, c[..n]);
    }
  }

  /** The parts printed with white space around them. */
  ghost predicate Surrounds(text: string, p: Parts) {
    exists i: nat, j: nat :: SurroundsAt(text, p, i, j)
  }

  ghost predicate SurroundsAt(text: string, p: Parts, i: nat, j: nat) {
    i <= j <= |text| && AllWhite(text[..i]) && AllWhite(text[j..]) && text[i..j] == Join(p)
  }

  lemma JoinEnds(p: Parts)
    requires PartsOk(p)
    ensures var s := Join(p); |s| > 0 && !IsWhite(s[0]) && !IsWhite(s[|s| - 1])
  {
    var s := Join(p);
    assert s[0] == p.whole[0] && IsDigit(s[|s| - 1]);
  }

  lemma SurroundedTrims(text: string, p: Parts, i: nat, j: nat)
    requires PartsOk(p) && SurroundsAt(text, p, i, j)
    ensures Trim(text) == Join(p)
  {
    var s := Join(p);
    JoinEnds(p);
    assert text == text[..i] + (s + text[j..]);
    TrimStartAround(text[..i], s + text[j..]);
    TrimEndAround(s, text[j..]);
  }

  /**
   * A text is read exactly when, white space around it aside, it is digits with at most one point
   * and, after the point, at least one digit and no more than allowed; and then as just these.
   */
  lemma SplitsExactly(text: string, most: Option<nat>, p: Parts)
    ensures Split(text, most) == Some(p) <==> PartsOk(p) && (most.Some? ==> |p.frac| <= most.value) && Surrounds(text, p)
  {
    if Split(text, most) == Some(p) {
      SplitSurrounds(text, most, p);
    }
    if PartsOk(p) && (most.Some? ==> |p.frac| <= most.value) && Surrounds(text, p) {
      var i: nat, j: nat :| SurroundsAt(text, p, i, j);
      SurroundedTrims(text, p, i, j);
      SplitJoin(p, most);
      JoinEnds(p);
      TrimOfTrimmed(Join(p));
    }
  }

  lemma SplitSurrounds(text: string, most: Option<nat>, p: Parts)
    requires Split(text, most) == Some(p)
    ensures Surrounds(text, p)
  {
    var s := Trim(text);
    var d := DotAt(s);
    assert s == Join(p) by {
      if d < |s| { assert s == s[..d] + "." + s[d + 1..]; } else { assert s[..d] == s; }
    }
    var i := TrimmedStart(text);
    var j := TrimmedEnd(text[i..]);
    assert text[i..][..j] == text[i..i + j] && text[i..][j..] == text[i + j..];
    assert SurroundsAt(text, p, i, i + j);
  }
}
