/** Cleaning the compaction model's raw output: peel the scratchpad, unwrap the
    summary block, defuse control tokens, collapse blank lines, trim. */
module Summary {
  import opened Prelude
  import opened Text

  const ANALYSIS := "<analysis>"
  const END_ANALYSIS := "</analysis>"
  const SUMMARY := "<summary>"
  const END_SUMMARY := "</summary>"
  const REQUEST := "<summary_request>"
  const END_REQUEST := "</summary_request>"
  const ZERO_WIDTH_SPACE := '\U{200B}'
  const TRIPLE := "\n\n\n"

  /** A control token: one `<` at the front, one `>` at the back, no newline, no
      zero-width space. */
  predicate IsToken(p: string) {
    && 2 <= |p| && p[0] == '<' && p[|p| - 1] == '>'
    && (forall i :: 1 <= i < |p| ==> p[i] != '<')
    && (forall i :: 0 <= i < |p| - 1 ==> p[i] != '>')
    && (forall i :: 0 <= i < |p| ==> p[i] != ZERO_WIDTH_SPACE && p[i] != '\n')
  }

  lemma TokensAreTokens()
    ensures IsToken(ANALYSIS) && IsToken(END_ANALYSIS) && IsToken(SUMMARY)
    ensures IsToken(END_SUMMARY) && IsToken(REQUEST) && IsToken(END_REQUEST)
  {
  }

  /** None of the six control tokens occurs. */
  predicate NoTokens(s: string) {
    && !Has(s, END_SUMMARY) && !Has(s, SUMMARY) && !Has(s, END_ANALYSIS)
    && !Has(s, ANALYSIS) && !Has(s, END_REQUEST) && !Has(s, REQUEST)
  }

  /** What the cleaned text promises. */
  predicate Clean(s: string) {
    NoTokens(s) && !Has(s, TRIPLE) && Trimmed(s)
  }

  // ----- defusing tokens

  /** Replace every `p` by `p` with a zero-width space after its `<`. */
  function Defuse(s: string, p: string): string
    requires p != ""
  {
    if s == "" then ""
    else if p <= s then [p[0], ZERO_WIDTH_SPACE] + p[1..] + Defuse(s[|p|..], p)
    else [s[0]] + Defuse(s[1..], p)
  }

  lemma {:induction false} DefuseTail(s: string, p: string, t: string)
    requires IsToken(p) && t <= Defuse(s, p)
    requires forall i :: 0 <= i < |t| ==> t[i] != '<' && t[i] != ZERO_WIDTH_SPACE
    ensures t <= s
  {
    if t != "" {
      assert t[0] == Defuse(s, p)[0];
      assert !(p <= s);
      assert Defuse(s, p)[1..] == Defuse(s[1..], p);
      DefuseTail(s[1..], p, t[1..]);
    }
  }

  lemma DefuseHead(s: string, p: string, q: string)
    requires IsToken(p) && IsToken(q) && q <= Defuse(s, p)
    ensures q <= s && !(p <= s)
  {
    assert q[0] == Defuse(s, p)[0] && q[1] == Defuse(s, p)[1];
    assert !(p <= s);
    assert Defuse(s, p)[1..] == Defuse(s[1..], p);
    DefuseTail(s[1..], p, q[1..]);
  }

  /** Defusing one token leaves no occurrence of it and creates none of another. */
  lemma {:induction false} DefuseRemoves(s: string, p: string, q: string)
    requires IsToken(p) && IsToken(q) && Has(Defuse(s, p), q)
    ensures Has(s, q) && q != p
  {
    var out := Defuse(s, p);
    if q <= out {
      DefuseHead(s, p, q);
    } else if p <= s {
      var rest := Defuse(s[|p|..], p);
      var safe := [ZERO_WIDTH_SPACE] + p[1..];
      assert out[1..] == safe + rest;
      SkipSafe(safe, rest, q);
      DefuseRemoves(s[|p|..], p, q);
      assert s == s[..|p|] + s[|p|..] + "";
      HasInParts(s[..|p|], s[|p|..], "", q);
    } else {
      assert out[1..] == Defuse(s[1..], p);
      DefuseRemoves(s[1..], p, q);
    }
  }

  /** Text without `<` cannot start a token. */
  lemma {:induction false} SkipSafe(safe: string, rest: string, q: string)
    requires IsToken(q) && Has(safe + rest, q)
    requires forall i :: 0 <= i < |safe| ==> safe[i] != '<'
    ensures Has(rest, q)
  {
    if safe == "" {
      assert safe + rest == rest;
    } else {
      assert (safe + rest)[0] == safe[0];
      assert !(q <= safe + rest);
      assert (safe + rest)[1..] == safe[1..] + rest;
      SkipSafe(safe[1..], rest, q);
    }
  }

  lemma {:induction false} DefuseAbsent(s: string, p: string)
    requires p != "" && !Has(s, p)
    ensures Defuse(s, p) == s
  {
    if s != "" {
      DefuseAbsent(s[1..], p);
    }
  }

  function Neutralize(s: string): string {
    Defuse(Defuse(Defuse(Defuse(Defuse(Defuse(s, END_SUMMARY), SUMMARY), END_ANALYSIS), ANALYSIS),
                  END_REQUEST), REQUEST)
  }

  lemma DefuseStep(s: string, p: string, q: string)
    requires IsToken(p) && IsToken(q)
    ensures !Has(Defuse(s, p), p)
    ensures !Has(s, q) ==> !Has(Defuse(s, p), q)
  {
    if Has(Defuse(s, p), p) {
      DefuseRemoves(s, p, p);
    }
    if Has(Defuse(s, p), q) {
      DefuseRemoves(s, p, q);
    }
  }

  lemma DefuseKeepsAll(s: string, p: string)
    requires IsToken(p)
    ensures !Has(Defuse(s, p), p)
    ensures !Has(s, END_SUMMARY) ==> !Has(Defuse(s, p), END_SUMMARY)
    ensures !Has(s, SUMMARY) ==> !Has(Defuse(s, p), SUMMARY)
    ensures !Has(s, END_ANALYSIS) ==> !Has(Defuse(s, p), END_ANALYSIS)
    ensures !Has(s, ANALYSIS) ==> !Has(Defuse(s, p), ANALYSIS)
    ensures !Has(s, END_REQUEST) ==> !Has(Defuse(s, p), END_REQUEST)
  {
    TokensAreTokens();
    DefuseStep(s, p, END_SUMMARY);
    DefuseStep(s, p, SUMMARY);
    DefuseStep(s, p, END_ANALYSIS);
    DefuseStep(s, p, ANALYSIS);
    DefuseStep(s, p, END_REQUEST);
  }

  /** Six replacements in the source's order leave no token at all. */
  lemma NeutralizeLeavesNoTokens(s: string)
    ensures NoTokens(Neutralize(s))
  {
    TokensAreTokens();
    var a := Defuse(s, END_SUMMARY);
    var b := Defuse(a, SUMMARY);
    var c := Defuse(b, END_ANALYSIS);
    var d := Defuse(c, ANALYSIS);
    var e := Defuse(d, END_REQUEST);
    DefuseKeepsAll(s, END_SUMMARY);
    DefuseKeepsAll(a, SUMMARY);
    DefuseKeepsAll(b, END_ANALYSIS);
    DefuseKeepsAll(c, ANALYSIS);
    DefuseKeepsAll(d, END_REQUEST);
    DefuseKeepsAll(e, REQUEST);
  }

  lemma NeutralizeAbsent(s: string)
    requires NoTokens(s)
    ensures Neutralize(s) == s
  {
    DefuseAbsent(s, END_SUMMARY);
    DefuseAbsent(s, SUMMARY);
    DefuseAbsent(s, END_ANALYSIS);
    DefuseAbsent(s, ANALYSIS);
    DefuseAbsent(s, END_REQUEST);
    DefuseAbsent(s, REQUEST);
  }

  /** Drop a zero-width space that directly follows a `<`. */
  function Rearm(s: string): string {
    if s == "" then ""
    else if 2 <= |s| && s[0] == '<' && s[1] == ZERO_WIDTH_SPACE then "<" + Rearm(s[2..])
    else [s[0]] + Rearm(s[1..])
  }

  lemma {:induction false} RearmPlain(t: string, rest: string)
    requires forall i :: 0 <= i < |t| ==> t[i] != '<'
    ensures Rearm(t + rest) == t + Rearm(rest)
  {
    if t == "" {
      assert t + rest == rest;
    } else {
      assert (t + rest)[1..] == t[1..] + rest;
      RearmPlain(t[1..], rest);
    }
  }

  lemma RearmToken(p: string, rest: string)
    requires IsToken(p)
    ensures Rearm(p + rest) == p + Rearm(rest)
    ensures Rearm([p[0], ZERO_WIDTH_SPACE] + p[1..] + rest) == p + Rearm(rest)
  {
    var plain := p + rest;
    assert plain[1..] == p[1..] + rest && plain[1] == p[1];
    RearmPlain(p[1..], rest);
    assert p == "<" + p[1..];
    var armed := [p[0], ZERO_WIDTH_SPACE] + p[1..] + rest;
    assert armed[2..] == p[1..] + rest;
  }

  lemma {:induction false} DefuseIsUndone(s: string, p: string)
    requires IsToken(p)
    ensures Rearm(Defuse(s, p)) == Rearm(s)
  {
    if s != "" {
      if p <= s {
        DefuseIsUndone(s[|p|..], p);
        assert s == p + s[|p|..];
        RearmToken(p, s[|p|..]);
        RearmToken(p, Defuse(s[|p|..], p));
      } else {
        var out := Defuse(s, p);
        assert out[1..] == Defuse(s[1..], p);
        if 2 <= |s| && s[0] == '<' && s[1] == ZERO_WIDTH_SPACE {
          assert !(p <= s[1..]);
          assert s[1..][1..] == s[2..];
          assert out[2..] == Defuse(s[2..], p);
          DefuseIsUndone(s[2..], p);
        } else {
          DefuseIsUndone(s[1..], p);
          assert 2 <= |out| ==> out[1] == s[1];
        }
      }
    }
  }

  /** Neutralizing only inserts zero-width spaces: a text that has none after a
      `<` is recovered by dropping them again. */
  lemma NeutralizeIsUndone(s: string)
    ensures Rearm(Neutralize(s)) == Rearm(s)
  {
    TokensAreTokens();
    var a := Defuse(s, END_SUMMARY);
    var b := Defuse(a, SUMMARY);
    var c := Defuse(b, END_ANALYSIS);
    var d := Defuse(c, ANALYSIS);
    var e := Defuse(d, END_REQUEST);
    DefuseIsUndone(s, END_SUMMARY);
    DefuseIsUndone(a, SUMMARY);
    DefuseIsUndone(b, END_ANALYSIS);
    DefuseIsUndone(c, ANALYSIS);
    DefuseIsUndone(d, END_REQUEST);
    DefuseIsUndone(e, REQUEST);
  }

  // ----- collapsing blank lines

  /** One pass replacing three newlines by two. */
  function Squeeze(s: string): (out: string)
    ensures |out| <= |s|
    ensures Has(s, TRIPLE) ==> |out| < |s|
  {
    if s == "" then ""
    else if TRIPLE <= s then "\n\n" + Squeeze(s[3..])
    else [s[0]] + Squeeze(s[1..])
  }

  function Collapse(s: string): string
    decreases |s|
  {
    if Has(s, TRIPLE) then Collapse(Squeeze(s)) else s
  }

  /** Every run of newlines cut to two, given `n` already written before `s`. */
  function CapNewlines(s: string, n: nat): string {
    if s == "" then ""
    else if s[0] != '\n' then [s[0]] + CapNewlines(s[1..], 0)
    else if 2 <= n then CapNewlines(s[1..], 2)
    else "\n" + CapNewlines(s[1..], n + 1)
  }

  lemma {:induction false} SqueezeCapped(s: string, n: nat)
    requires n <= 2
    ensures CapNewlines(Squeeze(s), n) == CapNewlines(s, n)
    decreases |s|
  {
    if s != "" {
      var out := Squeeze(s);
      if TRIPLE <= s {
        SqueezeCapped(s[3..], 2);
        var rest, rest' := s[3..], Squeeze(s[3..]);
        assert out == "\n\n" + rest';
        assert s == "\n\n\n" + rest;
        CapTwo(rest', n);
        CapThree(rest, n);
      } else {
        assert out[1..] == Squeeze(s[1..]);
        SqueezeCapped(s[1..], if s[0] != '\n' then 0 else if 2 <= n then 2 else n + 1);
      }
    }
  }

  lemma CapTwo(rest: string, n: nat)
    requires n <= 2
    ensures CapNewlines("\n\n" + rest, n) == seq(2 - n, _ => '\n') + CapNewlines(rest, 2)
  {
    var one, two := "\n" + rest, "\n\n" + rest;
    assert one[1..] == rest && two[1..] == one;
    if n == 0 {
      assert "\n" + ("\n" + CapNewlines(rest, 2)) == seq(2, _ => '\n') + CapNewlines(rest, 2);
    } else if n == 1 {
      assert "\n" + CapNewlines(rest, 2) == seq(1, _ => '\n') + CapNewlines(rest, 2);
    } else {
      assert CapNewlines(rest, 2) == seq(0, _ => '\n') + CapNewlines(rest, 2);
    }
  }

  lemma CapThree(rest: string, n: nat)
    requires n <= 2
    ensures CapNewlines("\n\n\n" + rest, n) == seq(2 - n, _ => '\n') + CapNewlines(rest, 2)
  {
    CapTwo("\n" + rest, n);
    assert "\n\n" + ("\n" + rest) == "\n\n\n" + rest;
    assert ("\n" + rest)[1..] == rest;
  }

  lemma {:induction false} CapIdentity(s: string, n: nat)
    requires n <= 2 && !Has(s, TRIPLE) && !(seq(3 - n, _ => '\n') <= s)
    ensures CapNewlines(s, n) == s
  {
    if s != "" {
      if s[0] != '\n' {
        assert s[1..] != "" && TRIPLE <= s[1..] ==> Has(s[1..], TRIPLE);
        assert seq(3, _ => '\n') == TRIPLE;
        CapIdentity(s[1..], 0);
      } else {
        assert n < 2 by {
          assert seq(1, _ => '\n') == "\n";
        }
        assert seq(3 - n, _ => '\n') == "\n" + seq(2 - n, _ => '\n');
        assert s == "\n" + s[1..];
        CapIdentity(s[1..], n + 1);
      }
    }
  }

  /** Collapsing cuts every run of newlines to at most two and changes nothing else. */
  lemma {:induction false} CollapseSpec(s: string)
    ensures Collapse(s) == CapNewlines(s, 0)
    ensures !Has(Collapse(s), TRIPLE)
    decreases |s|
  {
    if Has(s, TRIPLE) {
      CollapseSpec(Squeeze(s));
      SqueezeCapped(s, 0);
    } else {
      assert seq(3, _ => '\n') == TRIPLE;
      CapIdentity(s, 0);
    }
  }

  lemma {:induction false} SqueezeTail(s: string, t: string)
    requires t <= Squeeze(s) && forall i :: 0 <= i < |t| ==> t[i] != '\n'
    ensures t <= s
  {
    if t != "" {
      assert t[0] == Squeeze(s)[0];
      assert !(TRIPLE <= s);
      assert Squeeze(s)[1..] == Squeeze(s[1..]);
      SqueezeTail(s[1..], t[1..]);
    }
  }

  lemma {:induction false} SqueezeCreatesNone(s: string, q: string)
    requires IsToken(q) && Has(Squeeze(s), q)
    ensures Has(s, q)
    decreases |s|
  {
    var out := Squeeze(s);
    if q <= out {
      SqueezeTail(s, q);
    } else if TRIPLE <= s {
      assert out[1..] == "\n" + Squeeze(s[3..]);
      SkipSafe("\n", Squeeze(s[3..]), q);
      SqueezeCreatesNone(s[3..], q);
      assert s == s[..3] + s[3..] + "";
      HasInParts(s[..3], s[3..], "", q);
    } else {
      assert out[1..] == Squeeze(s[1..]);
      SqueezeCreatesNone(s[1..], q);
    }
  }

  lemma {:induction false} CollapseCreatesNone(s: string, q: string)
    requires IsToken(q) && Has(Collapse(s), q)
    ensures Has(s, q)
    decreases |s|
  {
    if Has(s, TRIPLE) {
      CollapseCreatesNone(Squeeze(s), q);
      SqueezeCreatesNone(s, q);
    }
  }

  lemma TrimCreatesNone(s: string, q: string)
    requires q != "" && Has(Trim(s), q)
    ensures Has(s, q)
  {
    var left, right := TrimSpec(s);
    HasInParts(left, Trim(s), right, q);
  }

  // ----- peeling and unwrapping

  /** Two occurrences of tokens in one text never overlap. */
  lemma TokensApart(s: string, p: string, i: int, q: string, j: int)
    requires IsToken(p) && IsToken(q) && At(p, s, i) && At(q, s, j) && i < j
    ensures i + |p| <= j
  {
    assert s[j] == s[j..j + |q|][0] == '<';
    assert forall k :: i < k < i + |p| ==> s[k] == s[i..i + |p|][k - i];
  }

  /** Whether the scratchpad at `start` comes before the summary proper. */
  predicate IsLeading(s: string, start: nat)
    requires Find(s, ANALYSIS) == Some(start)
  {
    match Find(s, SUMMARY)
    case Some(sp) =>
      if start < sp then true
      else
        SummaryBeforeAnalysis(s, sp, start);
        Trim(s[sp + |SUMMARY|..start]) == ""
    case None => Trim(s[..start]) == ""
  }

  lemma SummaryBeforeAnalysis(s: string, sp: nat, start: nat)
    requires Find(s, ANALYSIS) == Some(start) && Find(s, SUMMARY) == Some(sp) && sp <= start
    ensures sp + |SUMMARY| <= start
  {
    TokensAreTokens();
    FindSpec(s, ANALYSIS);
    FindSpec(s, SUMMARY);
    if sp == start {
      SameStart(s, ANALYSIS, SUMMARY, sp);
    }
    TokensApart(s, SUMMARY, sp, ANALYSIS, start);
  }

  lemma SummaryBeforeEnd(s: string, start: nat, end: nat)
    requires Find(s, SUMMARY) == Some(start) && RFind(s, END_SUMMARY) == Some(end) && start < end
    ensures start + |SUMMARY| <= end
  {
    TokensAreTokens();
    FindSpec(s, SUMMARY);
    RFindSpec(s, END_SUMMARY);
    TokensApart(s, SUMMARY, start, END_SUMMARY, end);
  }

  /** Drop leading scratchpad blocks. */
  function PeelAnalysis(s: string): string
    decreases |s|
  {
    match Find(s, ANALYSIS)
    case None => s
    case Some(start) =>
      if !IsLeading(s, start) then s
      else
        match Find(s[start..], END_ANALYSIS)
        case Some(rel) => PeelAnalysis(s[..start] + s[start + rel + |END_ANALYSIS|..])
        case None => s[..start] + s[DropTo(s, start)..]
  }

  function DropTo(s: string, start: nat): (n: nat)
    requires start <= |s|
    ensures start <= n <= |s|
  {
    match Find(s[start..], SUMMARY)
    case Some(rel) => start + rel
    case None => |s|
  }

  function SkipDecoration(s: string): string {
    if s != "" && s[0] in "#*-> \t" then SkipDecoration(s[1..]) else s
  }

  /** Peel a header-style scratchpad and a nested wrapper off a summary body,
      unless the body already opens on a numbered section. */
  function StripLeadingScratchpad(inner: string): string {
    var s := Trim(inner);
    var lead := SkipDecoration(s);
    var numbered := lead != "" && '0' <= lead[0] <= '9';
    var body := match RFind(s, END_ANALYSIS)
                case Some(pos) => if numbered then s else TrimStart(s[pos + |END_ANALYSIS|..])
                case None => s;
    if SUMMARY <= body then TrimStart(body[|SUMMARY|..]) else body
  }

  function UnwrapSummary(s: string): string {
    match (Find(s, SUMMARY), RFind(s, END_SUMMARY))
    case (Some(start), Some(end)) =>
      if start < end then
        SummaryBeforeEnd(s, start, end);
        s[..start] + "Summary:\n"
        + StripLeadingScratchpad(Trim(s[start + |SUMMARY|..end]))
        + s[end + |END_SUMMARY|..]
      else s
    case _ => s
  }

  function Formatted(summary: string): string {
    Trim(Collapse(Neutralize(UnwrapSummary(PeelAnalysis(summary)))))
  }

  lemma PeelMore(s: string, start: nat, rel: nat, next: string)
    requires Find(s, ANALYSIS) == Some(start) && IsLeading(s, start)
    requires Find(s[start..], END_ANALYSIS) == Some(rel)
    requires next == s[..start] + s[start + rel + |END_ANALYSIS|..]
    ensures PeelAnalysis(s) == PeelAnalysis(next)
  {
  }

  method PeelLeadingAnalysis(summary: string) returns (result: string)
    ensures result == PeelAnalysis(summary)
  {
    result := summary;
    ghost var goal := PeelAnalysis(summary);
    while true
      invariant PeelAnalysis(result) == goal
      decreases |result|
    {
      var start := Find(result, ANALYSIS);
      if start.None? || !IsLeading(result, start.value) {
        return;
      }
      var end := Find(result[start.value..], END_ANALYSIS);
      if end.None? {
        return result[..start.value] + result[DropTo(result, start.value)..];
      }
      var next := result[..start.value] + result[start.value + end.value + |END_ANALYSIS|..];
      PeelMore(result, start.value, end.value, next);
      result := next;
    }
  }

  method CollapseBlankLines(text: string) returns (result: string)
    ensures result == Collapse(text)
  {
    result := text;
    while Has(result, TRIPLE)
      invariant Collapse(result) == Collapse(text)
      decreases |result|
    {
      result := Squeeze(result);
    }
  }

  method FormatCompactSummary(summary: string) returns (result: string)
    ensures result == Formatted(summary)
    ensures Clean(result)
    ensures Clean(summary) ==> result == summary
  {
    var peeled := PeelLeadingAnalysis(summary);
    var defused := Neutralize(UnwrapSummary(peeled));
    var collapsed := CollapseBlankLines(defused);
    result := Trim(collapsed);
    FormattedIsClean(summary);
    if Clean(summary) {
      FormatFixesClean(summary);
    }
  }

  lemma StillNoTokens(s: string, t: string)
    requires NoTokens(s)
    requires forall q :: IsToken(q) && Has(t, q) ==> Has(s, q)
    ensures NoTokens(t)
  {
    TokensAreTokens();
  }

  /** Whatever the model wrote, the cleaned text has no control token, no triple
      newline and no surrounding whitespace. */
  lemma FormattedIsClean(summary: string)
    ensures Clean(Formatted(summary))
  {
    var defused := Neutralize(UnwrapSummary(PeelAnalysis(summary)));
    NeutralizeLeavesNoTokens(UnwrapSummary(PeelAnalysis(summary)));
    var collapsed := Collapse(defused);
    CollapseSpec(defused);
    forall q | IsToken(q) && Has(collapsed, q) ensures Has(defused, q) {
      CollapseCreatesNone(defused, q);
    }
    StillNoTokens(defused, collapsed);
    forall q | q != "" && Has(Trim(collapsed), q) ensures Has(collapsed, q) {
      TrimCreatesNone(collapsed, q);
    }
    StillNoTokens(collapsed, Trim(collapsed));
    var left, right := TrimSpec(collapsed);
  }

  lemma FormatFixesClean(s: string)
    requires Clean(s)
    ensures Formatted(s) == s
  {
    FindHas(s, ANALYSIS);
    FindHas(s, SUMMARY);
    NeutralizeAbsent(s);
    TrimOfTrimmed(s);
  }

  /** Cleaning is idempotent. */
  lemma FormatIdempotent(summary: string)
    ensures Formatted(Formatted(summary)) == Formatted(summary)
  {
    FormattedIsClean(summary);
    FormatFixesClean(Formatted(summary));
  }

  // ----- tokens and the text around them

  lemma FindsFirst(s: string, p: string, i: nat)
    requires p != "" && At(p, s, i)
    requires forall k :: 0 <= k < i ==> !At(p, s, k)
    ensures Find(s, p) == Some(i)
  {
    FindSpec(s, p);
  }

  /** Where a token can occur in a text that holds another one. */
  lemma OccursAround(a: string, q: string, b: string, p: string, k: int)
    requires IsToken(p) && IsToken(q) && At(p, a + (q + b), k)
    ensures || At(p, a, k)
            || (k == |a| && p == q)
            || At(p, b, k - |a| - |q|)
  {
    var s := a + (q + b);
    assert s[|a|..|a| + |q|] == q;
    assert At(q, s, |a|);
    if k < |a| {
      TokensApart(s, p, k, q, |a|);
      assert a[k..k + |p|] == s[k..k + |p|];
    } else if k == |a| {
      SameStart(s, p, q, k);
    } else {
      TokensApart(s, q, |a|, p, k);
      assert b[k - |a| - |q|..k - |a| - |q| + |p|] == s[k..k + |p|];
    }
  }

  lemma AtChar(p: string, s: string, k: int, i: nat)
    requires At(p, s, k) && i < |p|
    ensures s[k + i] == p[i]
  {
    assert s[k..k + |p|][i] == s[k + i];
  }

  lemma SameStart(s: string, p: string, q: string, k: nat)
    requires IsToken(p) && IsToken(q) && At(p, s, k) && At(q, s, k)
    ensures p == q
  {
    var i := if |p| < |q| then |p| - 1 else |q| - 1;
    AtChar(p, s, k, i);
    AtChar(q, s, k, i);
    assert p[i] == q[i] == '>';
  }

  lemma AbsentAround(a: string, q: string, b: string, p: string)
    requires IsToken(p) && IsToken(q) && p != q && !Has(a, p) && !Has(b, p)
    ensures !Has(a + (q + b), p)
  {
    HasAt(a, p);
    HasAt(b, p);
    HasAt(a + (q + b), p);
    forall k | At(p, a + (q + b), k) ensures false {
      OccursAround(a, q, b, p, k);
    }
  }

  lemma FindsToken(a: string, q: string, b: string)
    requires IsToken(q) && !Has(a, q)
    ensures Find(a + (q + b), q) == Some(|a|)
  {
    var s := a + (q + b);
    HasAt(a, q);
    assert s[|a|..|a| + |q|] == q;
    forall k | 0 <= k < |a| ensures !At(q, s, k) {
      if At(q, s, k) {
        OccursAround(a, q, b, q, k);
      }
    }
    FindsFirst(s, q, |a|);
  }

  /** A one-line heading put above a clean body keeps it clean. */
  lemma HeadingIsClean(head: string, body: string)
    requires Clean(body) && body != ""
    requires head != "" && !IsWhitespace(head[0])
    requires forall i :: 0 <= i < |head| ==> head[i] != '<'
    requires forall i :: 0 <= i < |head| - 1 ==> head[i] != '\n'
    ensures Clean(head + body)
  {
    TokensAreTokens();
    var s := head + body;
    forall q | IsToken(q) && Has(s, q) ensures Has(body, q) {
      SkipSafe(head, body, q);
    }
    StillNoTokens(body, s);
    HasAt(s, TRIPLE);
    HasAt(body, TRIPLE);
    forall i | At(TRIPLE, s, i) ensures At(TRIPLE, body, i - |head|) {
      AtChar(TRIPLE, s, i, 0);
      AtChar(TRIPLE, s, i, 1);
      assert |head| <= i;
      assert body[i - |head|..i - |head| + 3] == s[i..i + 3];
    }
  }

  lemma SummaryHeadingIsClean(body: string)
    requires Clean(body) && body != ""
    ensures Clean("Summary:\n" + body)
  {
    var head := "Summary:\n";
    assert head == ['S', 'u', 'm', 'm', 'a', 'r', 'y', ':', '\n'];
    HeadingIsClean(head, body);
  }
}
