/** What cleaning makes of every shape of answer, said by the parts of the text: where
    a summary block stands, what opens its body, and which scratchpads go. */
module SummaryShapes {
  import opened Prelude
  import opened Text
  import opened Summary

  // ----- finding tokens by the parts around them

  lemma AtBehind(a: string, b: string, p: string, k: int)
    requires At(p, b, k)
    ensures At(p, a + b, |a| + k)
  {
    assert (a + b)[|a| + k..|a| + k + |p|] == b[k..k + |p|];
  }

  lemma AtBehindTwo(a: string, q: string, b: string, p: string, k: int)
    requires At(p, b, k)
    ensures At(p, a + (q + b), |a| + |q| + k)
  {
    AtBehind(q, b, p, k);
    AtBehind(a, q + b, p, |q| + k);
  }

  lemma AtWithin(a: string, b: string, p: string, k: int)
    ensures At(p, a, k) ==> At(p, a + b, k)
    ensures At(p, a + b, k) && k + |p| <= |a| ==> At(p, a, k)
  {
    if 0 <= k && k + |p| <= |a| {
      assert (a + b)[k..k + |p|] == a[k..k + |p|];
    }
  }

  lemma RFindsToken(a: string, q: string, b: string)
    requires IsToken(q) && !Has(b, q)
    ensures RFind(a + (q + b), q) == Some(|a|)
  {
    var s := a + (q + b);
    HasAt(b, q);
    assert s[|a|..|a| + |q|] == q;
    assert At(q, s, |a|);
    RFindSpec(s, q);
    var k := RFind(s, q).value;
    if |a| < k {
      TokensApart(s, q, |a|, q, k);
      assert s == (a + q) + b;
      SuffixAt(a + q, b, q, k);
    }
  }

  lemma SuffixAt(a: string, b: string, p: string, k: int)
    requires At(p, a + b, k) && |a| <= k
    ensures At(p, b, k - |a|)
  {
    assert b[k - |a|..k - |a| + |p|] == (a + b)[k..k + |p|];
  }

  lemma SplitFirst(s: string, q: string) returns (a: string, b: string)
    requires q != "" && Has(s, q)
    ensures s == a + (q + b) && !Has(a, q)
  {
    FindHas(s, q);
    FindSpec(s, q);
    var k := Find(s, q).value;
    a, b := s[..k], s[k + |q|..];
    assert s[k..k + |q|] == q;
    HasAt(a, q);
    assert s == a + s[k..];
    forall i ensures !At(q, a, i) {
      AtWithin(a, s[k..], q, i);
    }
  }

  lemma FoundInside(a: string, q: string, b: string, p: string, n: nat)
    requires IsToken(q) && IsToken(p) && p != q && !Has(a, p) && n == |a| + |q|
    ensures var r := Find(a + (q + b), p); r.Some? ==> n <= r.value && Starts(b, p, r.value - n)
  {
    var s := a + (q + b);
    FindSpec(s, p);
    HasAt(a, p);
    if Find(s, p).Some? {
      OccursAround(a, q, b, p, Find(s, p).value);
      StartsAt(b, p, Find(s, p).value - n);
    }
  }

  lemma FoundBehind(a: string, q: string, b: string, p: string, n: nat)
    requires n == |a| + |q|
    ensures var r := Find(b, p); r.Some? ==> Starts(a + (q + b), p, n + r.value)
  {
    FindSpec(b, p);
    if Find(b, p).Some? {
      AtBehindTwo(a, q, b, p, Find(b, p).value);
      StartsAt(a + (q + b), p, n + Find(b, p).value);
    }
  }

  lemma FoundBy(s: string, p: string, i: nat)
    requires Starts(s, p, i)
    ensures Find(s, p).Some? && Find(s, p).value <= i
  {
    StartsAt(s, p, i);
    FindSpec(s, p);
  }

  lemma FindMoved(s: string, b: string, p: string, n: nat)
    requires var r := Find(b, p); r.Some? ==> Starts(s, p, n + r.value)
    requires var r := Find(s, p); r.Some? ==> n <= r.value && Starts(b, p, r.value - n)
    ensures Find(s, p) == match Find(b, p) case Some(k) => Some(n + k) case None => None
  {
    if Find(b, p).Some? {
      FoundBy(s, p, n + Find(b, p).value);
    }
    if Find(s, p).Some? {
      FoundBy(b, p, Find(s, p).value - n);
    }
  }

  /** Behind a text without `p` and another token, the first `p` is that of the rest. */
  lemma FindShifted(a: string, q: string, b: string, p: string)
    requires IsToken(q) && IsToken(p) && p != q && !Has(a, p)
    ensures Find(a + (q + b), p) == match Find(b, p) case Some(k) => Some(|a| + |q| + k) case None => None
  {
    var n := |a| + |q|;
    FoundInside(a, q, b, p, n);
    FoundBehind(a, q, b, p, n);
    FindMoved(a + (q + b), b, p, n);
  }

  lemma FindBehindToken(q: string, b: string, p: string)
    requires IsToken(q) && IsToken(p) && p != q
    ensures Find(q + b, p) == match Find(b, p) case Some(k) => Some(|q| + k) case None => None
  {
    FindShifted("", q, b, p);
    assert "" + (q + b) == q + b;
  }

  lemma FindKept(a: string, b: string, p: string)
    requires p != "" && Has(a, p)
    ensures Find(a + b, p) == Find(a, p)
  {
    FindHas(a, p);
    FindSpec(a, p);
    FindSpec(a + b, p);
    AtWithin(a, b, p, Find(a, p).value);
    AtWithin(a, b, p, Find(a + b, p).value);
  }

  // ----- the summary block

  /** A block from the first opening to the last closing tag is put under a heading; the
      text around it stays. */
  lemma UnwrapBlock(before: string, inner: string, after: string)
    requires !Has(before, SUMMARY) && !Has(after, END_SUMMARY)
    ensures UnwrapSummary(before + (SUMMARY + (inner + (END_SUMMARY + after)))) ==
            before + "Summary:\n" + StripLeadingScratchpad(Trim(inner)) + after
  {
    TokensAreTokens();
    var s := before + (SUMMARY + (inner + (END_SUMMARY + after)));
    var front := before + SUMMARY + inner;
    FindsToken(before, SUMMARY, inner + (END_SUMMARY + after));
    assert s == front + (END_SUMMARY + after);
    RFindsToken(front, END_SUMMARY, after);
    BlockSlices(before, SUMMARY, inner, END_SUMMARY, after);
  }

  lemma BlockSlices(before: string, open: string, inner: string, close: string, after: string)
    ensures var s := before + (open + (inner + (close + after)));
            var start, end := |before|, |before| + |open| + |inner|;
            s[..start] == before && s[start + |open|..end] == inner && s[end + |close|..] == after
  {
  }

  /** Without an opening tag, or without a closing tag after the first one, nothing is
      unwrapped. */
  lemma UnwrapAbsent(s: string)
    requires !Has(s, SUMMARY)
    ensures UnwrapSummary(s) == s
  {
    FindHas(s, SUMMARY);
  }

  lemma UnwrapUnclosed(before: string, rest: string)
    requires !Has(before, SUMMARY) && !Has(rest, END_SUMMARY)
    ensures UnwrapSummary(before + (SUMMARY + rest)) == before + (SUMMARY + rest)
  {
    TokensAreTokens();
    var s := before + (SUMMARY + rest);
    FindsToken(before, SUMMARY, rest);
    RFindSpec(s, END_SUMMARY);
    HasAt(rest, END_SUMMARY);
    if RFind(s, END_SUMMARY).Some? {
      OccursAround(before, SUMMARY, rest, END_SUMMARY, RFind(s, END_SUMMARY).value);
    }
  }

  // ----- the body of the block

  /** Opens on a numbered section, behind any markdown decoration. */
  ghost predicate NumberedAt(t: string, n: nat) {
    n < |t| && '0' <= t[n] <= '9' && forall k :: 0 <= k < n ==> t[k] in "#*-> \t"
  }

  ghost predicate Numbered(t: string) {
    exists n: nat :: NumberedAt(t, n)
  }

  lemma {:induction false} NumberedSpec(t: string)
    ensures var lead := SkipDecoration(t); Numbered(t) <==> lead != "" && '0' <= lead[0] <= '9'
  {
    if t != "" && t[0] in "#*-> \t" {
      var rest := t[1..];
      NumberedSpec(rest);
      if n: nat :| NumberedAt(rest, n) {
        assert forall k :: 0 < k < n + 1 ==> t[k] == rest[k - 1];
        assert NumberedAt(t, n + 1);
      }
      if n: nat :| NumberedAt(t, n) {
        assert 0 < n;
        assert forall k :: 0 <= k < n - 1 ==> rest[k] == t[k + 1];
        assert NumberedAt(rest, n - 1);
      }
    } else if t != "" {
      assert '0' <= t[0] <= '9' ==> NumberedAt(t, 0);
      assert forall n: nat :: NumberedAt(t, n) && 0 < n ==> t[0] in "#*-> \t";
    }
  }

  /** A nested opening tag at the front goes. */
  function Unnested(t: string): string {
    if SUMMARY <= t then TrimStart(t[|SUMMARY|..]) else t
  }

  lemma UnnestedIs(t: string, z: string)
    ensures Unnested(SUMMARY + z) == TrimStart(z)
    ensures !Has(t, SUMMARY) ==> Unnested(t) == t
  {
    assert (SUMMARY + z)[|SUMMARY|..] == z;
    assert SUMMARY <= t && t != "" ==> Has(t, SUMMARY);
  }

  /** A numbered body keeps its text, also when it quotes tags. */
  lemma NumberedBody(t: string)
    requires Trimmed(t) && Numbered(t)
    ensures StripLeadingScratchpad(t) == t
  {
    TrimOfTrimmed(t);
    NumberedSpec(t);
    var n: nat :| NumberedAt(t, n);
    assert t[0] != '<';
    FindHas(t, END_ANALYSIS);
  }

  /** In an unnumbered body everything through the last closing analysis tag goes. */
  lemma ScratchBody(x: string, y: string)
    requires !Has(y, END_ANALYSIS)
    requires var t := x + (END_ANALYSIS + y); Trimmed(t) && !Numbered(t)
    ensures StripLeadingScratchpad(x + (END_ANALYSIS + y)) == Unnested(TrimStart(y))
  {
    TokensAreTokens();
    var t := x + (END_ANALYSIS + y);
    TrimOfTrimmed(t);
    NumberedSpec(t);
    RFindsToken(x, END_ANALYSIS, y);
    assert t[|x| + |END_ANALYSIS|..] == y;
  }

  lemma UnscratchedBody(t: string)
    requires Trimmed(t) && !Has(t, END_ANALYSIS)
    ensures StripLeadingScratchpad(t) == Unnested(t)
  {
    TrimOfTrimmed(t);
    FindHas(t, END_ANALYSIS);
  }

  // ----- the scratchpad in front

  lemma BlankIff(s: string)
    ensures Trim(s) == "" <==> AllWhitespace(s)
  {
    var left, right := TrimSpec(s);
    if Trim(s) != "" {
      assert s[|left|] == Trim(s)[0];
    }
  }

  /** An opening analysis tag after `a` and before `tail` leads: it stands before any
      summary tag, or with only whitespace between the first one and it, or, without a
      summary tag, after whitespace only. */
  ghost predicate Leads(a: string, tail: string) {
    if Has(a, SUMMARY) then BlankAfterSummary(a) else Has(tail, SUMMARY) || AllWhitespace(a)
  }

  ghost predicate BlankAfterSummary(a: string) {
    exists b, w :: a == b + (SUMMARY + w) && !Has(b, SUMMARY) && AllWhitespace(w)
  }

  lemma LeadsIff(a: string, tail: string)
    requires !Has(a, ANALYSIS)
    ensures Find(a + (ANALYSIS + tail), ANALYSIS) == Some(|a|)
    ensures IsLeading(a + (ANALYSIS + tail), |a|) <==> Leads(a, tail)
  {
    TokensAreTokens();
    var s := a + (ANALYSIS + tail);
    FindsToken(a, ANALYSIS, tail);
    FindHas(a, SUMMARY);
    if Has(a, SUMMARY) {
      var k := Find(a, SUMMARY).value;
      FindKept(a, ANALYSIS + tail, SUMMARY);
      LeadsAfterSummary(a, k);
      LeadingBehind(s, |a|, k, a[k + |SUMMARY|..]);
    } else {
      assert ANALYSIS != SUMMARY;
      FindShifted(a, ANALYSIS, tail, SUMMARY);
      FindHas(tail, SUMMARY);
      BlankIff(a);
      LeadingBefore(s, a);
    }
  }

  lemma LeadingBehind(s: string, start: nat, k: nat, between: string)
    requires Find(s, ANALYSIS) == Some(start) && Find(s, SUMMARY) == Some(k)
    requires k + |SUMMARY| <= start && s[k + |SUMMARY|..start] == between
    ensures IsLeading(s, start) <==> Trim(between) == ""
  {
  }

  lemma LeadingBefore(s: string, a: string)
    requires Find(s, ANALYSIS) == Some(|a|) && a <= s
    requires match Find(s, SUMMARY) case Some(k) => |a| < k case None => true
    ensures IsLeading(s, |a|) <==> Find(s, SUMMARY).Some? || Trim(a) == ""
  {
    assert s[..|a|] == a;
  }

  lemma LeadsAfterSummary(a: string, k: nat)
    requires Find(a, SUMMARY) == Some(k)
    ensures k + |SUMMARY| <= |a| && (Trim(a[k + |SUMMARY|..]) == "" <==> BlankAfterSummary(a))
  {
    TokensAreTokens();
    FindSpec(a, SUMMARY);
    var w := a[k + |SUMMARY|..];
    BlankIff(w);
    if AllWhitespace(w) {
      FindHas(a, SUMMARY);
      var b, c := SplitFirst(a, SUMMARY);
      FindsToken(b, SUMMARY, c);
      assert c == w;
    }
    if BlankAfterSummary(a) {
      var b, c :| a == b + (SUMMARY + c) && !Has(b, SUMMARY) && AllWhitespace(c);
      FindsToken(b, SUMMARY, c);
      assert c == w;
    }
  }

  /** Without an opening analysis tag nothing is peeled. */
  lemma PeelAbsent(s: string)
    requires !Has(s, ANALYSIS)
    ensures PeelAnalysis(s) == s
  {
    FindHas(s, ANALYSIS);
  }

  lemma ClosedTail(open: string, scratch: string, close: string, rest: string)
    requires IsToken(open) && IsToken(close) && open != close && !Has(scratch, close)
    ensures Find(open + (scratch + (close + rest)), close) == Some(|open| + |scratch|)
  {
    FindsToken(scratch, close, rest);
    FindBehindToken(open, scratch + (close + rest), close);
  }

  lemma AbsentTail(open: string, tail: string, close: string)
    requires IsToken(open) && IsToken(close) && open != close && !Has(tail, close)
    ensures Find(open + tail, close) == None
  {
    FindHas(tail, close);
    FindBehindToken(open, tail, close);
  }

  lemma TokensDiffer()
    ensures ANALYSIS != END_ANALYSIS && ANALYSIS != SUMMARY && END_ANALYSIS != SUMMARY
    ensures ANALYSIS != END_SUMMARY && END_ANALYSIS != END_SUMMARY
  {
    assert |ANALYSIS| == 10 && |END_ANALYSIS| == 11 && |SUMMARY| == 9 && |END_SUMMARY| == 10;
    assert ANALYSIS[1] == 'a' && END_SUMMARY[1] == '/';
  }

  lemma ClosedAnalysis(scratch: string, rest: string)
    requires !Has(scratch, END_ANALYSIS)
    ensures Find(ANALYSIS + (scratch + (END_ANALYSIS + rest)), END_ANALYSIS) == Some(|ANALYSIS| + |scratch|)
  {
    TokensDiffer();
    TokensAreTokens();
    ClosedTail(ANALYSIS, scratch, END_ANALYSIS, rest);
  }

  /** What peeling does with a leading scratchpad that opens `t`, after `a`. */
  function PeelOpen(a: string, t: string): string {
    match Find(t, END_ANALYSIS)
    case Some(rel) => PeelAnalysis(a + t[rel + |END_ANALYSIS|..])
    case None => a + (match Find(t, SUMMARY) case Some(rel) => t[rel..] case None => "")
  }

  lemma DropDrop(s: string, n: nat, t: string, m: nat)
    requires n <= |s| && s[n..] == t && m <= |t|
    ensures s[n + m..] == t[m..]
  {
  }

  lemma NextIs(s: string, a: string, t: string, rel: nat, close: string)
    requires |a| <= |s| && s[..|a|] == a && s[|a|..] == t && rel + |close| <= |t|
    ensures s[..|a|] + s[|a| + rel + |close|..] == a + t[rel + |close|..]
  {
    DropDrop(s, |a|, t, rel + |close|);
    assert |a| + rel + |close| == |a| + (rel + |close|);
  }

  lemma PeelsOpenRest(s: string, a: string, t: string)
    requires Find(s, ANALYSIS) == Some(|a|) && IsLeading(s, |a|) && s[..|a|] == a && s[|a|..] == t
    requires Find(t, END_ANALYSIS) == None
    ensures PeelAnalysis(s) == a + s[DropTo(s, |a|)..]
  {
  }

  lemma DropsTo(s: string, n: nat, t: string)
    requires n <= |s| && s[n..] == t
    ensures s[DropTo(s, n)..] == match Find(t, SUMMARY) case Some(rel) => t[rel..] case None => ""
  {
    if Find(t, SUMMARY).Some? {
      DropDrop(s, n, t, Find(t, SUMMARY).value);
    }
  }

  lemma PeelsOpen(s: string, a: string, t: string)
    requires Find(s, ANALYSIS) == Some(|a|) && IsLeading(s, |a|) && s[..|a|] == a && s[|a|..] == t
    ensures PeelAnalysis(s) == PeelOpen(a, t)
  {
    match Find(t, END_ANALYSIS)
    case Some(rel) =>
      NextIs(s, a, t, rel, END_ANALYSIS);
      PeelMore(s, |a|, rel, a + t[rel + |END_ANALYSIS|..]);
    case None =>
      PeelsOpenRest(s, a, t);
      DropsTo(s, |a|, t);
  }

  lemma PeelLeading(a: string, tail: string)
    requires !Has(a, ANALYSIS) && Leads(a, tail)
    ensures PeelAnalysis(a + (ANALYSIS + tail)) == PeelOpen(a, ANALYSIS + tail)
  {
    LeadsIff(a, tail);
    Halves(a, ANALYSIS + tail);
    PeelsOpen(a + (ANALYSIS + tail), a, ANALYSIS + tail);
  }

  lemma Halves(a: string, b: string)
    ensures (a + b)[..|a|] == a && (a + b)[|a|..] == b
  {
  }

  lemma SuffixBehind(a: string, b: string, c: string, n: nat)
    requires n == |a| + |b|
    ensures (a + (b + c))[n..] == c
  {
  }

  /** A leading scratchpad goes through its first closing tag, and peeling goes on. */
  lemma PeelClosed(a: string, scratch: string, rest: string)
    requires !Has(a, ANALYSIS) && !Has(scratch, END_ANALYSIS) && Leads(a, scratch + (END_ANALYSIS + rest))
    ensures PeelAnalysis(a + (ANALYSIS + (scratch + (END_ANALYSIS + rest)))) == PeelAnalysis(a + rest)
  {
    PeelLeading(a, scratch + (END_ANALYSIS + rest));
    OpensClosed(a, scratch, rest);
  }

  lemma OpensClosed(a: string, scratch: string, rest: string)
    requires !Has(scratch, END_ANALYSIS)
    ensures PeelOpen(a, ANALYSIS + (scratch + (END_ANALYSIS + rest))) == PeelAnalysis(a + rest)
  {
    ClosedAnalysis(scratch, rest);
    SuffixBehind(ANALYSIS, scratch, END_ANALYSIS + rest, |ANALYSIS| + |scratch|);
    DropTwo(ANALYSIS + (scratch + (END_ANALYSIS + rest)), |ANALYSIS| + |scratch|, END_ANALYSIS, rest);
  }

  lemma DropTwo(t: string, n: nat, close: string, rest: string)
    requires n <= |t| && t[n..] == close + rest
    ensures n + |close| <= |t| && t[n + |close|..] == rest
  {
    assert t[n + |close|..] == t[n..][|close|..];
  }

  lemma UnclosedFinds(open: string, x: string, p: string, y: string, close: string)
    requires IsToken(open) && IsToken(p) && IsToken(close) && open != p && open != close
    requires !Has(x + (p + y), close) && !Has(x, p)
    ensures Find(open + (x + (p + y)), close) == None && Find(open + (x + (p + y)), p) == Some(|open| + |x|)
  {
    AbsentTail(open, x + (p + y), close);
    ClosedTail(open, x, p, y);
  }

  lemma OpensUnclosed(a: string, x: string, y: string)
    requires !Has(x + (SUMMARY + y), END_ANALYSIS) && !Has(x, SUMMARY)
    ensures PeelOpen(a, ANALYSIS + (x + (SUMMARY + y))) == a + (SUMMARY + y)
  {
    TokensDiffer();
    TokensAreTokens();
    UnclosedFinds(ANALYSIS, x, SUMMARY, y, END_ANALYSIS);
    SuffixBehind(ANALYSIS, x, SUMMARY + y, |ANALYSIS| + |x|);
  }

  /** A leading scratchpad that is never closed goes up to the next summary tag, or to
      the end. */
  lemma PeelUnclosed(a: string, x: string, y: string)
    requires !Has(a, ANALYSIS) && !Has(x + (SUMMARY + y), END_ANALYSIS) && !Has(x, SUMMARY)
    requires Leads(a, x + (SUMMARY + y))
    ensures PeelAnalysis(a + (ANALYSIS + (x + (SUMMARY + y)))) == a + (SUMMARY + y)
  {
    PeelLeading(a, x + (SUMMARY + y));
    OpensUnclosed(a, x, y);
  }

  lemma OpensToEnd(a: string, tail: string)
    requires !Has(tail, END_ANALYSIS) && !Has(tail, SUMMARY)
    ensures PeelOpen(a, ANALYSIS + tail) == a
  {
    TokensDiffer();
    TokensAreTokens();
    AbsentTail(ANALYSIS, tail, END_ANALYSIS);
    AbsentTail(ANALYSIS, tail, SUMMARY);
    assert a + "" == a;
  }

  lemma PeelToEnd(a: string, tail: string)
    requires !Has(a, ANALYSIS) && !Has(tail, END_ANALYSIS) && !Has(tail, SUMMARY) && Leads(a, tail)
    ensures PeelAnalysis(a + (ANALYSIS + tail)) == a
  {
    PeelLeading(a, tail);
    OpensToEnd(a, tail);
  }

  /** A scratchpad that does not lead stays, with everything after it. */
  lemma PeelNotLeading(a: string, tail: string)
    requires !Has(a, ANALYSIS) && !Leads(a, tail)
    ensures PeelAnalysis(a + (ANALYSIS + tail)) == a + (ANALYSIS + tail)
  {
    LeadsIff(a, tail);
  }

  // ----- tokens left in the text

  function Broken(q: string): string
    requires q != ""
  {
    [q[0], ZERO_WIDTH_SPACE] + q[1..]
  }

  lemma {:induction false} DefuseSkips(u: string, x: string, p: string)
    requires p != "" && forall k :: 0 <= k < |u| ==> !At(p, u + x, k)
    ensures Defuse(u + x, p) == u + Defuse(x, p)
  {
    var s := u + x;
    if u == "" {
      assert s == x;
    } else {
      assert !At(p, s, 0);
      assert !(p <= s);
      assert s[1..] == u[1..] + x;
      forall k | 0 <= k < |u[1..]| ensures !At(p, u[1..] + x, k) {
        if At(p, s[1..], k) {
          assert s[k + 1..k + 1 + |p|] == s[1..][k..k + |p|];
          assert At(p, s, k + 1);
        }
      }
      DefuseSkips(u[1..], x, p);
    }
  }

  /** A piece with one `<`, at its front, keeps every token from starting before its end. */
  lemma NoneInFront(a: string, v: string, y: string, p: string, k: nat)
    requires IsToken(p) && !Has(a, p) && v != "" && v[0] == '<' && (forall i :: 1 <= i < |v| ==> v[i] != '<')
    requires k < |a| + |v| && At(p, a + (v + y), k)
    ensures k == |a|
  {
    var s := a + (v + y);
    AtChar(p, s, k, 0);
    if k < |a| {
      HasAt(a, p);
      if |a| < k + |p| {
        AtChar(p, s, k, |a| - k);
      } else {
        AtWithin(a, v + y, p, k);
      }
    } else {
      assert s[k] == v[k - |a|];
    }
  }

  lemma BrokenShape(q: string)
    requires IsToken(q)
    ensures var v := Broken(q); v[0] == '<' && v[1] == ZERO_WIDTH_SPACE && forall i :: 1 <= i < |v| ==> v[i] != '<'
    ensures !IsToken(Broken(q))
  {
    var v := Broken(q);
    assert forall i :: 2 <= i < |v| ==> v[i] == q[i - 1];
  }

  lemma DefusePasses(a: string, v: string, y: string, p: string)
    requires IsToken(p) && !Has(a, p) && v != "" && v[0] == '<' && (forall i :: 1 <= i < |v| ==> v[i] != '<')
    requires !At(p, a + (v + y), |a|)
    ensures Defuse(a + (v + y), p) == a + (v + Defuse(y, p))
  {
    forall k | 0 <= k < |a| ensures !At(p, a + (v + y), k) {
      if At(p, a + (v + y), k) {
        NoneInFront(a, v, y, p, k);
      }
    }
    DefuseSkips(a, v + y, p);
    forall k | 0 <= k < |v| ensures !At(p, v + y, k) {
      if At(p, v + y, k) {
        AtBehind(a, v + y, p, k);
        NoneInFront(a, v, y, p, |a| + k);
      }
    }
    DefuseSkips(v, y, p);
  }

  lemma DefuseBreaks(a: string, y: string, p: string)
    requires IsToken(p) && !Has(a, p)
    ensures Defuse(a + (p + y), p) == a + (Broken(p) + Defuse(y, p))
  {
    forall k | 0 <= k < |a| ensures !At(p, a + (p + y), k) {
      if At(p, a + (p + y), k) {
        NoneInFront(a, p, y, p, k);
      }
    }
    DefuseSkips(a, p + y, p);
    assert (p + y)[|p|..] == y;
  }

  lemma StartsWithToken(a: string, v: string, y: string, p: string, q: string)
    requires IsToken(p) && IsToken(q) && p != q && (v == q || v == Broken(q))
    ensures !At(p, a + (v + y), |a|)
  {
    var s := a + (v + y);
    if At(p, s, |a|) {
      AtChar(p, s, |a|, 1);
      if v == q {
        assert s[|a|..|a| + |q|] == q;
        SameStart(s, p, q, |a|);
      }
    }
  }

  lemma DefuseAtToken(a: string, v: string, y: string, p: string, q: string)
    requires IsToken(p) && IsToken(q) && !Has(a, p) && (v == q || v == Broken(q))
    ensures Defuse(a + (v + y), p) == a + ((if v == p then Broken(p) else v) + Defuse(y, p))
  {
    BrokenShape(q);
    if v == p {
      DefuseBreaks(a, y, p);
    } else {
      assert !At(p, a + (v + y), |a|) by {
        if p == q {
          BrokenFront(a, v, y, p);
        } else {
          StartsWithToken(a, v, y, p, q);
        }
      }
      DefusePasses(a, v, y, p);
    }
  }

  lemma BrokenFront(a: string, v: string, y: string, p: string)
    requires IsToken(p) && 2 <= |v| && v[1] == ZERO_WIDTH_SPACE
    ensures !At(p, a + (v + y), |a|)
  {
    if At(p, a + (v + y), |a|) {
      AtChar(p, a + (v + y), |a|, 1);
    }
  }

  function DefuseAll(s: string, ps: seq<string>): string
    requires forall i :: 0 <= i < |ps| ==> IsToken(ps[i])
    decreases |ps|
  {
    if ps == [] then s
    else
      assert IsToken(ps[0]);
      DefuseAll(Defuse(s, ps[0]), ps[1..])
  }

  lemma {:induction false} DefuseAllAtToken(a: string, v: string, y: string, ps: seq<string>, q: string)
    requires forall i :: 0 <= i < |ps| ==> IsToken(ps[i]) && !Has(a, ps[i])
    requires IsToken(q) && (v == q || v == Broken(q))
    ensures DefuseAll(a + (v + y), ps) == a + ((if q in ps then Broken(q) else v) + DefuseAll(y, ps))
    decreases |ps|
  {
    if ps != [] {
      var p := ps[0];
      BrokenShape(q);
      DefuseAtToken(a, v, y, p, q);
      DefuseAllAtToken(a, if v == p then Broken(p) else v, Defuse(y, p), ps[1..], q);
      assert ps == [p] + ps[1..];
    }
  }

  const TOKENS: seq<string> := [END_SUMMARY, SUMMARY, END_ANALYSIS, ANALYSIS, END_REQUEST, REQUEST]

  lemma DefuseCons(s: string, p: string, ps: seq<string>)
    requires IsToken(p) && forall i :: 0 <= i < |ps| ==> IsToken(ps[i])
    ensures DefuseAll(s, [p] + ps) == DefuseAll(Defuse(s, p), ps)
  {
    assert ([p] + ps)[1..] == ps;
  }

  lemma DefuseThree(s: string, a: string, b: string, c: string, ps: seq<string>)
    requires IsToken(a) && IsToken(b) && IsToken(c) && forall i :: 0 <= i < |ps| ==> IsToken(ps[i])
    ensures DefuseAll(s, [a] + ([b] + ([c] + ps))) == DefuseAll(Defuse(Defuse(Defuse(s, a), b), c), ps)
  {
    DefuseCons(s, a, [b] + ([c] + ps));
    DefuseCons(Defuse(s, a), b, [c] + ps);
    DefuseCons(Defuse(Defuse(s, a), b), c, ps);
  }

  lemma NeutralizeIsAll(s: string)
    ensures forall i :: 0 <= i < |TOKENS| ==> IsToken(TOKENS[i])
    ensures Neutralize(s) == DefuseAll(s, TOKENS)
  {
    TokensAreTokens();
    var rest := [ANALYSIS] + ([END_REQUEST] + ([REQUEST] + []));
    assert TOKENS == [END_SUMMARY] + ([SUMMARY] + ([END_ANALYSIS] + rest));
    DefuseThree(s, END_SUMMARY, SUMMARY, END_ANALYSIS, rest);
    DefuseThree(Defuse(Defuse(Defuse(s, END_SUMMARY), SUMMARY), END_ANALYSIS), ANALYSIS, END_REQUEST, REQUEST, []);
  }

  /** Neutralizing breaks the first token right after its `<`, keeps the text before it,
      and goes on behind it. */
  lemma NeutralizeFirst(a: string, q: string, b: string)
    requires NoTokens(a) && q in TOKENS
    ensures q != "" && Neutralize(a + (q + b)) == a + (Broken(q) + Neutralize(b))
  {
    NeutralizeIsAll(a + (q + b));
    NeutralizeIsAll(b);
    NoTokensIsNone(a);
    FirstOfAll(a, q, b, TOKENS);
  }

  lemma NoTokensIsNone(a: string)
    requires NoTokens(a)
    ensures forall i :: 0 <= i < |TOKENS| ==> !Has(a, TOKENS[i])
  {
  }

  lemma FirstOfAll(a: string, q: string, b: string, ps: seq<string>)
    requires forall i :: 0 <= i < |ps| ==> IsToken(ps[i])
    requires q in ps && forall i :: 0 <= i < |ps| ==> !Has(a, ps[i])
    ensures q != "" && DefuseAll(a + (q + b), ps) == a + (Broken(q) + DefuseAll(b, ps))
  {
    var i :| 0 <= i < |ps| && ps[i] == q;
    assert IsToken(ps[i]);
    DefuseAllAtToken(a, q, b, ps, q);
  }

  // ----- whole answers

  /** The last three steps: tokens defused, blank lines collapsed, ends trimmed. */
  function Tidy(s: string): string {
    Trim(Collapse(Neutralize(s)))
  }

  lemma TidyIs(s: string)
    ensures NoTokens(s) ==> Tidy(s) == Trim(CapNewlines(s, 0))
  {
    if NoTokens(s) {
      NeutralizeAbsent(s);
      CollapseSpec(s);
    }
  }

  /** An answer without control tokens is only tidied. */
  lemma FormatPlain(s: string)
    requires NoTokens(s)
    ensures Formatted(s) == Trim(CapNewlines(s, 0))
  {
    PeelAbsent(s);
    UnwrapAbsent(s);
    TidyIs(s);
  }

  function Answer(before: string, inner: string, after: string): string {
    before + (SUMMARY + (inner + (END_SUMMARY + after)))
  }

  lemma AnswerLacks(before: string, inner: string, after: string, p: string)
    requires IsToken(p) && p != SUMMARY && p != END_SUMMARY && !Has(before, p) && !Has(inner, p) && !Has(after, p)
    ensures !Has(Answer(before, inner, after), p)
  {
    TokensAreTokens();
    AbsentAround(inner, END_SUMMARY, after, p);
    AbsentAround(before, SUMMARY, inner + (END_SUMMARY + after), p);
  }

  /** An answer with a summary block and no scratchpad tag. */
  lemma FormatBlock(before: string, inner: string, after: string)
    requires !Has(before, SUMMARY) && !Has(after, END_SUMMARY)
    requires !Has(before, ANALYSIS) && !Has(inner, ANALYSIS) && !Has(after, ANALYSIS)
    ensures Formatted(Answer(before, inner, after)) ==
            Tidy(before + "Summary:\n" + StripLeadingScratchpad(Trim(inner)) + after)
  {
    TokensAreTokens();
    assert ANALYSIS != SUMMARY && ANALYSIS != END_SUMMARY;
    AnswerLacks(before, inner, after, ANALYSIS);
    PeelAbsent(Answer(before, inner, after));
    UnwrapBlock(before, inner, after);
  }

  lemma TokenFreeBody(inner: string)
    requires NoTokens(inner)
    ensures StripLeadingScratchpad(Trim(inner)) == Trim(inner)
  {
    TokensAreTokens();
    var left, right := TrimSpec(inner);
    if Has(Trim(inner), END_ANALYSIS) {
      TrimCreatesNone(inner, END_ANALYSIS);
    }
    if Has(Trim(inner), SUMMARY) {
      TrimCreatesNone(inner, SUMMARY);
    }
    UnscratchedBody(Trim(inner));
    UnnestedIs(Trim(inner), "");
  }

  /** The usual answer: any text around a block whose body has no tags, with any padding
      inside; the body is put under its heading, trimmed, in place. */
  lemma FormatSummary(before: string, inner: string, after: string)
    requires NoTokens(before) && NoTokens(inner) && NoTokens(after)
    ensures var text := before + "Summary:\n" + Trim(inner) + after;
            && Formatted(Answer(before, inner, after)) == Tidy(text)
            && (NoTokens(text) ==> Formatted(Answer(before, inner, after)) == Trim(CapNewlines(text, 0)))
  {
    FormatBlock(before, inner, after);
    TokenFreeBody(inner);
    TidyIs(before + "Summary:\n" + Trim(inner) + after);
  }

  /** Padding inside the block, as the inner text sees it. */
  lemma TrimPadded(pad: string, body: string, pad': string)
    requires AllWhitespace(pad) && AllWhitespace(pad') && Trimmed(body)
    ensures Trim(pad + body + pad') == body
  {
    var s := pad + body + pad';
    if body == "" {
      BlankIff(s);
    } else {
      var left, right := TrimSpec(s);
      PaddingIsOne(pad, body, pad', left, Trim(s), right);
    }
  }

  lemma PaddingIsOne(a: string, b: string, c: string, a': string, b': string, c': string)
    requires a + b + c == a' + b' + c' && b != "" && Trimmed(b) && Trimmed(b')
    requires AllWhitespace(a) && AllWhitespace(c) && AllWhitespace(a') && AllWhitespace(c')
    ensures b == b'
  {
    var s, t := a + b + c, a' + b' + c';
    assert s[|a|] == b[0] && s[|a| + |b| - 1] == b[|b| - 1];
    assert forall i :: 0 <= i < |a| ==> s[i] == a[i];
    assert forall i :: 0 <= i < |a'| ==> t[i] == a'[i];
    assert forall i :: 0 <= i < |c| ==> s[|a| + |b| + i] == c[i];
    assert forall i :: 0 <= i < |c'| ==> t[|a'| + |b'| + i] == c'[i];
    assert b' != "" ==> t[|a'|] == b'[0] && t[|a'| + |b'| - 1] == b'[|b'| - 1];
    assert |a'| <= |a| && |a| + |b| <= |a'| + |b'|;
    assert b' != "";
    assert |a| <= |a'| && |a'| + |b'| <= |a| + |b|;
    assert b == s[|a|..|a| + |b|] && b' == t[|a'|..|a'| + |b'|];
  }

  lemma WhitespaceIsSafe(w: string, s: string, q: string)
    requires AllWhitespace(w) && IsToken(q) && !Has(s, q)
    ensures !Has(w + s, q) && !Has(w, q)
  {
    assert forall i :: 0 <= i < |w| ==> w[i] != '<';
    if Has(w + s, q) {
      SkipSafe(w, s, q);
    }
    if Has(w, q) {
      assert w == w + "";
      SkipSafe(w, "", q);
    }
  }

  lemma BlankLeads(w: string, tail: string)
    requires AllWhitespace(w)
    ensures !Has(w, ANALYSIS) && !Has(w, SUMMARY) && Leads(w, tail)
  {
    TokensAreTokens();
    WhitespaceIsSafe(w, "", ANALYSIS);
    WhitespaceIsSafe(w, "", SUMMARY);
  }

  /** The same with a scratchpad block, whatever it says, in front, after whitespace. */
  lemma FormatScratchedSummary(w: string, scratch: string, before: string, inner: string, after: string)
    requires AllWhitespace(w) && !Has(scratch, END_ANALYSIS)
    requires NoTokens(before) && NoTokens(inner) && NoTokens(after)
    ensures Formatted(w + (ANALYSIS + (scratch + (END_ANALYSIS + Answer(before, inner, after))))) ==
            Tidy((w + before) + "Summary:\n" + Trim(inner) + after)
  {
    FormatScratched(w, scratch, Answer(before, inner, after));
    AnswerBehind(w, before, inner, after);
    PaddedIsSafe(w, before);
    FormatBlock(w + before, inner, after);
    TokenFreeBody(inner);
  }

  lemma AnswerBehind(w: string, before: string, inner: string, after: string)
    ensures w + Answer(before, inner, after) == Answer(w + before, inner, after)
  {
  }

  lemma PaddedIsSafe(w: string, before: string)
    requires AllWhitespace(w) && NoTokens(before)
    ensures !Has(w + before, ANALYSIS) && !Has(w + before, SUMMARY)
  {
    TokensAreTokens();
    WhitespaceIsSafe(w, before, ANALYSIS);
    WhitespaceIsSafe(w, before, SUMMARY);
  }

  /** A scratchpad block in front, whatever it says, changes nothing. */
  lemma FormatScratched(w: string, scratch: string, rest: string)
    requires AllWhitespace(w) && !Has(scratch, END_ANALYSIS)
    ensures Formatted(w + (ANALYSIS + (scratch + (END_ANALYSIS + rest)))) == Formatted(w + rest)
  {
    BlankLeads(w, scratch + (END_ANALYSIS + rest));
    PeelClosed(w, scratch, rest);
    FormattedIs(w + (ANALYSIS + (scratch + (END_ANALYSIS + rest))), w + rest);
  }

  lemma FormattedIs(s: string, t: string)
    requires PeelAnalysis(s) == PeelAnalysis(t)
    ensures Formatted(s) == Formatted(t)
  {
  }

  /** A scratchpad that is never closed goes, up to the summary tag. */
  lemma FormatUnclosedScratch(w: string, scratch: string, inner: string, after: string)
    requires AllWhitespace(w) && !Has(scratch, END_ANALYSIS) && !Has(scratch, SUMMARY)
    requires NoTokens(inner) && NoTokens(after)
    ensures Formatted(w + (ANALYSIS + Answer(scratch, inner, after))) == Tidy(w + "Summary:\n" + Trim(inner) + after)
  {
    TokensAreTokens();
    var y := inner + (END_SUMMARY + after);
    assert END_ANALYSIS != SUMMARY && END_ANALYSIS != END_SUMMARY && ANALYSIS != SUMMARY && ANALYSIS != END_SUMMARY;
    AnswerLacks(scratch, inner, after, END_ANALYSIS);
    BlankLeads(w, scratch + (SUMMARY + y));
    PeelUnclosed(w, scratch, y);
    AnswerLacks(w, inner, after, ANALYSIS);
    PeelAbsent(Answer(w, inner, after));
    FormattedIs(w + (ANALYSIS + Answer(scratch, inner, after)), Answer(w, inner, after));
    FormatBlock(w, inner, after);
    TokenFreeBody(inner);
  }

  /** A body that opens on a numbered section is kept, tags it quotes included. */
  lemma FormatNumbered(before: string, inner: string, after: string)
    requires !Has(before, SUMMARY) && !Has(after, END_SUMMARY) && Numbered(Trim(inner))
    requires !Has(before, ANALYSIS) && !Has(inner, ANALYSIS) && !Has(after, ANALYSIS)
    ensures Formatted(Answer(before, inner, after)) == Tidy(before + "Summary:\n" + Trim(inner) + after)
  {
    var left, right := TrimSpec(inner);
    FormatBlock(before, inner, after);
    NumberedBody(Trim(inner));
  }

  /** A header-style scratchpad at the front of an unnumbered body goes through its last
      closing tag. */
  lemma FormatHeaderScratch(before: string, inner: string, x: string, y: string, after: string)
    requires !Has(before, SUMMARY) && !Has(after, END_SUMMARY)
    requires !Has(before, ANALYSIS) && !Has(inner, ANALYSIS) && !Has(after, ANALYSIS)
    requires Trim(inner) == x + (END_ANALYSIS + y) && !Has(y, END_ANALYSIS) && !Numbered(Trim(inner))
    ensures Formatted(Answer(before, inner, after)) == Tidy(before + "Summary:\n" + Unnested(TrimStart(y)) + after)
  {
    var left, right := TrimSpec(inner);
    FormatBlock(before, inner, after);
    ScratchBody(x, y);
  }

  /** On an answer of the requested shape, a scratchpad followed by a clean summary
      block, the result is that summary under its heading. */
  lemma FormatRequestedShape(scratch: string, body: string)
    requires !Has(scratch, END_ANALYSIS) && Clean(body) && body != ""
    ensures Formatted(ANALYSIS + (scratch + (END_ANALYSIS + (SUMMARY + (body + END_SUMMARY))))) ==
            "Summary:\n" + body
  {
    RequestedTidy(scratch, body, "");
    BareAnswer(scratch, body, END_SUMMARY);
    BareHeading("Summary:\n", body);
    SummaryHeadingIsClean(body);
    TidyFixesClean("Summary:\n" + body);
  }

  lemma RequestedTidy(scratch: string, body: string, none: string)
    requires !Has(scratch, END_ANALYSIS) && Clean(body) && none == ""
    ensures Formatted(none + (ANALYSIS + (scratch + (END_ANALYSIS + Answer(none, body, none))))) ==
            Tidy((none + none) + "Summary:\n" + body + none)
  {
    FormatScratchedSummary(none, scratch, none, body, none);
    TrimOfTrimmed(body);
  }

  lemma BareHeading(head: string, body: string)
    ensures ("" + "") + head + body + "" == head + body
  {
  }

  lemma BareAnswer(scratch: string, body: string, close: string)
    ensures "" + (ANALYSIS + (scratch + (END_ANALYSIS + ("" + (SUMMARY + (body + (close + ""))))))) ==
            ANALYSIS + (scratch + (END_ANALYSIS + (SUMMARY + (body + close))))
  {
    assert close + "" == close;
    var block := SUMMARY + (body + close);
    assert "" + block == block;
    var whole := ANALYSIS + (scratch + (END_ANALYSIS + block));
    assert "" + whole == whole;
  }

  lemma TidyFixesClean(s: string)
    requires Clean(s)
    ensures Tidy(s) == s
  {
    NeutralizeAbsent(s);
    TrimOfTrimmed(s);
  }
}
