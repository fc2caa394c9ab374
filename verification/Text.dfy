/** The string operations the chat-state code relies on: UTF-8 length, decimal
    rendering, search, trimming. A string is a sequence of Unicode scalars. */
module Text {
  import opened Prelude

  // ----- byte length and decimal digits

  function Utf8Width(c: char): (w: nat)
    ensures 1 <= w <= 4
  {
    if c < '\U{80}' then 1
    else if c < '\U{800}' then 2
    else if c < '\U{10000}' then 3
    else 4
  }

  function ByteLen(s: string): nat {
    if s == "" then 0 else ByteLen(s[..|s| - 1]) + Utf8Width(s[|s| - 1])
  }

  lemma {:induction false} ByteLenConcat(a: string, b: string)
    ensures ByteLen(a + b) == ByteLen(a) + ByteLen(b)
    decreases |b|
  {
    if b == "" {
      assert a + b == a;
    } else {
      assert (a + b)[..|a + b| - 1] == a + b[..|b| - 1];
      ByteLenConcat(a, b[..|b| - 1]);
    }
  }

  lemma {:induction false} AsciiByteLen(s: string)
    requires forall i :: 0 <= i < |s| ==> s[i] < '\U{80}'
    ensures ByteLen(s) == |s|
  {
    if s != "" {
      AsciiByteLen(s[..|s| - 1]);
    }
  }

  lemma {:induction false} ByteLenMonotone(s: string, m: nat, n: nat)
    requires m < n <= |s|
    ensures ByteLen(s[..m]) < ByteLen(s[..n])
    decreases n
  {
    assert s[..n][..n - 1] == s[..n - 1];
    if m < n - 1 {
      ByteLenMonotone(s, m, n - 1);
    }
  }

  function Digit(d: nat): (c: char)
    requires d < 10
    ensures '0' <= c <= '9'
  {
    ('0' as int + d) as char
  }

  function Decimal(n: nat): (s: string) {
    if n < 10 then [Digit(n)] else Decimal(n / 10) + [Digit(n % 10)]
  }

  lemma {:induction false} DecimalIsAscii(n: nat)
    ensures Decimal(n) != ""
    ensures forall i :: 0 <= i < |Decimal(n)| ==> '0' <= Decimal(n)[i] <= '9'
    ensures ByteLen(Decimal(n)) == |Decimal(n)|
  {
    if 10 <= n {
      DecimalIsAscii(n / 10);
    }
    AsciiByteLen(Decimal(n));
  }

  function Pow10(k: nat): nat {
    if k == 0 then 1 else 10 * Pow10(k - 1)
  }

  /** A number has at most `k` digits exactly when it is below ten to the `k`. */
  lemma {:induction false} DecimalLength(n: nat, k: nat)
    requires 1 <= k
    ensures |Decimal(n)| <= k <==> n < Pow10(k)
    decreases k
  {
    if k == 1 {
      assert Pow10(1) == 10 * Pow10(0) == 10;
      if 10 <= n {
        DecimalIsAscii(n / 10);
      }
    } else if 10 <= n {
      DecimalLength(n / 10, k - 1);
    } else {
      assert 10 <= Pow10(k) by { PowAtLeastTen(k); }
    }
  }

  lemma {:induction false} PowAtLeastTen(k: nat)
    requires 1 <= k
    ensures 10 <= Pow10(k)
  {
    if 1 < k {
      PowAtLeastTen(k - 1);
    }
  }

  // ----- occurrences

  ghost predicate At(p: string, s: string, i: int) {
    0 <= i <= |s| - |p| && s[i..i + |p|] == p
  }

  /** `p` occurs in `s`. */
  predicate Has(s: string, p: string) {
    s != "" && (p <= s || Has(s[1..], p))
  }

  lemma {:induction false} HasAt(s: string, p: string)
    requires p != ""
    ensures Has(s, p) <==> exists i :: At(p, s, i)
  {
    if s != "" {
      HasAt(s[1..], p);
      if p <= s {
        assert At(p, s, 0);
      } else if Has(s[1..], p) {
        var i :| At(p, s[1..], i);
        assert s[i + 1..i + 1 + |p|] == s[1..][i..i + |p|];
        assert At(p, s, i + 1);
      }
      forall i | At(p, s, i) && 0 < i ensures At(p, s[1..], i - 1) {
        assert s[i..i + |p|] == s[1..][i - 1..i - 1 + |p|];
      }
      assert At(p, s, 0) ==> p <= s;
    }
  }

  lemma {:induction false} HasInParts(a: string, b: string, c: string, p: string)
    requires p != "" && Has(b, p)
    ensures Has(a + b + c, p)
  {
    HasAt(b, p);
    var i :| At(p, b, i);
    var s := a + b + c;
    assert s[|a| + i..|a| + i + |p|] == b[i..i + |p|];
    assert At(p, s, |a| + i);
    HasAt(s, p);
  }

  /** `p` stands in `s` at `i`, compared character by character. */
  predicate Starts(s: string, p: string, i: nat)
    decreases |p|
  {
    if p == "" then i <= |s| else i < |s| && s[i] == p[0] && Starts(s, p[1..], i + 1)
  }

  lemma {:induction false} StartsAt(s: string, p: string, i: nat)
    ensures Starts(s, p, i) <==> At(p, s, i)
    decreases |p|
  {
    if p != "" && i < |s| {
      StartsAt(s, p[1..], i + 1);
      if i + |p| <= |s| {
        assert s[i..i + |p|] == [s[i]] + s[i + 1..i + |p|];
        assert p == [p[0]] + p[1..];
      }
    }
  }

  /** First occurrence at or after `from`. */
  function FindFrom(s: string, p: string, from: nat): (r: Option<nat>)
    ensures r.Some? ==> from <= r.value <= |s| - |p|
    decreases |s| - from
  {
    if |s| < from + |p| then None
    else if Starts(s, p, from) then Some(from)
    else FindFrom(s, p, from + 1)
  }

  function Find(s: string, p: string): (r: Option<nat>)
    ensures r.Some? ==> r.value <= |s| - |p|
  {
    FindFrom(s, p, 0)
  }

  lemma {:induction false} FindFromSpec(s: string, p: string, from: nat)
    ensures var r := FindFrom(s, p, from);
            && (r.Some? ==> At(p, s, r.value))
            && (forall i :: from <= i && At(p, s, i) ==> r.Some? && r.value <= i)
    decreases |s| - from
  {
    StartsAt(s, p, from);
    if from + |p| <= |s| && !Starts(s, p, from) {
      FindFromSpec(s, p, from + 1);
    }
  }

  lemma FindSpec(s: string, p: string)
    ensures Find(s, p).Some? ==> At(p, s, Find(s, p).value)
    ensures forall i :: At(p, s, i) ==> Find(s, p).Some? && Find(s, p).value <= i
  {
    FindFromSpec(s, p, 0);
  }

  /** Last occurrence before `bound`. */
  function RFindBelow(s: string, p: string, bound: nat): (r: Option<nat>)
    ensures r.Some? ==> r.value <= |s| - |p|
  {
    if bound == 0 then None
    else if bound - 1 + |p| <= |s| && Starts(s, p, bound - 1) then Some(bound - 1)
    else RFindBelow(s, p, bound - 1)
  }

  function RFind(s: string, p: string): (r: Option<nat>)
    ensures r.Some? ==> r.value <= |s| - |p|
  {
    RFindBelow(s, p, |s|)
  }

  lemma {:induction false} RFindBelowSpec(s: string, p: string, bound: nat)
    ensures var r := RFindBelow(s, p, bound);
            && (r.Some? ==> At(p, s, r.value))
            && (forall i :: i < bound && At(p, s, i) ==> r.Some? && i <= r.value)
  {
    if bound != 0 {
      StartsAt(s, p, bound - 1);
      RFindBelowSpec(s, p, bound - 1);
    }
  }

  lemma RFindSpec(s: string, p: string)
    requires p != ""
    ensures RFind(s, p).Some? ==> At(p, s, RFind(s, p).value)
    ensures forall i :: At(p, s, i) ==> RFind(s, p).Some? && i <= RFind(s, p).value
  {
    RFindBelowSpec(s, p, |s|);
  }

  lemma FindHas(s: string, p: string)
    requires p != ""
    ensures Find(s, p).Some? <==> Has(s, p)
    ensures RFind(s, p).Some? <==> Has(s, p)
  {
    HasAt(s, p);
    FindSpec(s, p);
    RFindSpec(s, p);
  }

  // ----- whitespace

  /** The White_Space property of the Unicode Character Database. */
  predicate IsWhitespace(c: char) {
    || '\U{9}' <= c <= '\U{D}' || c == ' ' || c == '\U{85}' || c == '\U{A0}' || c == '\U{1680}'
    || '\U{2000}' <= c <= '\U{200A}' || c == '\U{2028}' || c == '\U{2029}' || c == '\U{202F}'
    || c == '\U{205F}' || c == '\U{3000}'
  }

  predicate AllWhitespace(s: string) {
    forall i :: 0 <= i < |s| ==> IsWhitespace(s[i])
  }

  function TrimStart(s: string): (t: string) {
    if s != "" && IsWhitespace(s[0]) then TrimStart(s[1..]) else s
  }

  function TrimEnd(s: string): (t: string) {
    if s != "" && IsWhitespace(s[|s| - 1]) then TrimEnd(s[..|s| - 1]) else s
  }

  function Trim(s: string): (t: string) {
    TrimEnd(TrimStart(s))
  }

  predicate Trimmed(s: string) {
    s != "" ==> !IsWhitespace(s[0]) && !IsWhitespace(s[|s| - 1])
  }

  lemma {:induction false} TrimStartSpec(s: string) returns (k: nat)
    ensures k <= |s| && TrimStart(s) == s[k..] && AllWhitespace(s[..k])
    ensures TrimStart(s) != "" ==> !IsWhitespace(TrimStart(s)[0])
  {
    if s != "" && IsWhitespace(s[0]) {
      k := TrimStartSpec(s[1..]);
      assert s[k + 1..] == s[1..][k..];
      assert s[..k + 1] == [s[0]] + s[1..][..k];
      k := k + 1;
    } else {
      k := 0;
      assert s[0..] == s;
    }
  }

  lemma {:induction false} TrimEndSpec(s: string) returns (k: nat)
    ensures k <= |s| && TrimEnd(s) == s[..k] && AllWhitespace(s[k..])
    ensures TrimEnd(s) != "" ==> !IsWhitespace(TrimEnd(s)[k - 1])
    decreases |s|
  {
    if s != "" && IsWhitespace(s[|s| - 1]) {
      var front := s[..|s| - 1];
      k := TrimEndSpec(front);
      assert s[..k] == front[..k];
      forall i | 0 <= i < |s[k..]| ensures IsWhitespace(s[k..][i]) {
        assert i < |front[k..]| ==> s[k..][i] == front[k..][i];
      }
    } else {
      k := |s|;
      assert s[..|s|] == s;
    }
  }

  /** Trimming takes whitespace off both ends and nothing else. */
  lemma TrimSpec(s: string) returns (left: string, right: string)
    ensures s == left + Trim(s) + right
    ensures AllWhitespace(left) && AllWhitespace(right) && Trimmed(Trim(s))
  {
    var i := TrimStartSpec(s);
    var j := TrimEndSpec(s[i..]);
    left, right := s[..i], s[i..][j..];
    assert s[i..] == s[i..][..j] + right;
    assert s == left + s[i..];
  }

  lemma TrimOfTrimmed(s: string)
    requires Trimmed(s)
    ensures Trim(s) == s
  {
  }

  // ----- lines and filler

  /** Texts joined by newlines. */
  function Joined(texts: seq<string>): string {
    if texts == [] then ""
    else if |texts| == 1 then texts[0]
    else Joined(texts[..|texts| - 1]) + "\n" + texts[|texts| - 1]
  }

  function Filler(n: nat): (s: string)
    ensures |s| == n
  {
    seq(n, _ => 'x')
  }

  lemma FillerLength(n: nat)
    ensures ByteLen(Filler(n)) == n && Trim(Filler(n)) == Filler(n)
  {
    AsciiByteLen(Filler(n));
    TrimOfTrimmed(Filler(n));
  }
}
