/** What a compaction makes of user texts and of the messages it carries over, said by
    the parts of a text and by positions in the history. */
module QueryShapes {
  import opened Prelude
  import opened Conversation
  import opened Text
  import opened Summary
  import opened SummaryShapes
  import opened Compaction

  // ----- one tag

  /** A tag name whose opening and closing tags are tokens. */
  ghost predicate PlainTag(tag: string) {
    IsToken(OpenTag(tag)) && IsToken(CloseTag(tag)) && OpenTag(tag) != CloseTag(tag)
  }

  ghost predicate SafeName(tag: string) {
    tag != "" && tag[0] != '/' &&
    forall i :: 0 <= i < |tag| ==> tag[i] != '<' && tag[i] != '>' && tag[i] != '\n' && tag[i] != ZERO_WIDTH_SPACE
  }

  lemma SafeIsPlain(tag: string)
    requires SafeName(tag)
    ensures PlainTag(tag)
  {
    var open, close := OpenTag(tag), CloseTag(tag);
    assert forall i :: 1 <= i < |open| - 1 ==> open[i] == tag[i - 1];
    assert forall i :: 2 <= i < |close| - 1 ==> close[i] == tag[i - 2];
    assert open[1] == tag[0] && close[1] == '/';
  }

  lemma SystemTagsArePlain(i: nat)
    requires i < |SYSTEM_TAGS|
    ensures PlainTag(SYSTEM_TAGS[i])
  {
    SafeNames();
    MoreSafeNames();
    SafeIsPlain(SYSTEM_TAGS[i]);
  }

  lemma SafeNames()
    ensures SafeName("user_info") && SafeName("project_layout") && SafeName("git_status") && SafeName("fork-context")
    ensures SafeName("system-reminder") && SafeName("agent-memory")
  {
  }

  lemma MoreSafeNames()
    ensures SafeName("system_reminder") && SafeName("background_context") && SafeName("command-name")
    ensures SafeName("command-message") && SafeName("command-args")
  {
  }

  /** What stripping does with a block that opens `t`, after `a`. */
  function StripOpen(a: string, t: string, tag: string): string {
    match Find(t, CloseTag(tag))
    case Some(n) => StripTag(a + t[n + |CloseTag(tag)|..], tag)
    case None => a + t
  }

  lemma StripsOpen(s: string, a: string, t: string, tag: string)
    requires Find(s, OpenTag(tag)) == Some(|a|) && s[..|a|] == a && s[|a|..] == t
    ensures StripTag(s, tag) == StripOpen(a, t, tag)
  {
    match Find(t, CloseTag(tag))
    case Some(n) =>
      assert s[|a| + n + |CloseTag(tag)|..] == t[n + |CloseTag(tag)|..];
    case None =>
      assert s == a + t;
  }

  lemma StripLeading(a: string, open: string, rest: string, tag: string)
    requires open == OpenTag(tag) && IsToken(open) && !Has(a, open)
    ensures StripTag(a + (open + rest), tag) == StripOpen(a, open + rest, tag)
  {
    FindsToken(a, open, rest);
    Halves(a, open + rest);
    StripsOpen(a + (open + rest), a, open + rest, tag);
  }

  lemma OpenClosed(a: string, open: string, x: string, close: string, b: string, tag: string)
    requires close == CloseTag(tag) && IsToken(open) && IsToken(close) && open != close && !Has(x, close)
    ensures StripOpen(a, open + (x + (close + b)), tag) == StripTag(a + b, tag)
  {
    ClosedTail(open, x, close, b);
    SuffixBehind(open, x, close + b, |open| + |x|);
    DropTwo(open + (x + (close + b)), |open| + |x|, close, b);
    OpenAt(a, open + (x + (close + b)), |open| + |x|, b, tag);
  }

  lemma OpenAt(a: string, t: string, n: nat, b: string, tag: string)
    requires Find(t, CloseTag(tag)) == Some(n) && t[n + |CloseTag(tag)|..] == b
    ensures StripOpen(a, t, tag) == StripTag(a + b, tag)
  {
  }

  /** The first block goes with its tags; what stands before and after it is joined, and
      stripping goes on. */
  lemma StripBlock(a: string, x: string, b: string, tag: string)
    requires PlainTag(tag) && !Has(a, OpenTag(tag)) && !Has(x, CloseTag(tag))
    ensures StripTag(a + (OpenTag(tag) + (x + (CloseTag(tag) + b))), tag) == StripTag(a + b, tag)
  {
    StripLeading(a, OpenTag(tag), x + (CloseTag(tag) + b), tag);
    OpenClosed(a, OpenTag(tag), x, CloseTag(tag), b, tag);
  }

  /** Without an opening tag, or with a first one that is never closed, nothing goes. */
  lemma StripAbsent(s: string, tag: string)
    requires !Has(s, OpenTag(tag))
    ensures StripTag(s, tag) == s
  {
    FindHas(s, OpenTag(tag));
  }

  lemma StripUnclosed(a: string, rest: string, tag: string)
    requires PlainTag(tag) && !Has(a, OpenTag(tag)) && !Has(rest, CloseTag(tag))
    ensures StripTag(a + (OpenTag(tag) + rest), tag) == a + (OpenTag(tag) + rest)
  {
    StripLeading(a, OpenTag(tag), rest, tag);
    AbsentTail(OpenTag(tag), rest, CloseTag(tag));
  }

  // ----- the user's query

  lemma EnclosedIs(text: string, start: nat, content: string, end: nat, q: string)
    requires Find(text, OPEN_QUERY) == Some(start) && text[start + |OPEN_QUERY|..] == content
    requires Find(content, CLOSE_QUERY) == Some(end) && content[..end] == q
    ensures Enclosed(text) == Some(q)
  {
  }

  lemma ContentCut(a: string, open: string, content: string)
    ensures (a + (open + content))[|a| + |open|..] == content
  {
  }

  /** The query is what stands between the first opening tag and the first closing tag
      after it; the text around the tags is dropped. */
  lemma QueryIsBetweenTags(a: string, q: string, b: string)
    requires !Has(a, OPEN_QUERY) && !Has(q, CLOSE_QUERY)
    ensures ExtractUserQuery(a + (OPEN_QUERY + (q + (CLOSE_QUERY + b)))) == StripSystemTags(Trim(q))
  {
    QueryTokens();
    var content := q + (CLOSE_QUERY + b);
    FindsToken(a, OPEN_QUERY, content);
    FindsToken(q, CLOSE_QUERY, b);
    ContentCut(a, OPEN_QUERY, content);
    Halves(q, CLOSE_QUERY + b);
    EnclosedIs(a + (OPEN_QUERY + content), |a|, content, |q|, q);
  }

  /** Without a closed pair of tags the whole text is the query. */
  lemma UntaggedIsWhole(text: string)
    requires !Has(text, OPEN_QUERY)
    ensures ExtractUserQuery(text) == StripSystemTags(text)
  {
    FindHas(text, OPEN_QUERY);
  }

  lemma UnclosedIsWhole(a: string, rest: string)
    requires !Has(a, OPEN_QUERY) && !Has(rest, CLOSE_QUERY)
    ensures ExtractUserQuery(a + (OPEN_QUERY + rest)) == StripSystemTags(a + (OPEN_QUERY + rest))
  {
    QueryTokens();
    FindsToken(a, OPEN_QUERY, rest);
    FindHas(rest, CLOSE_QUERY);
    ContentCut(a, OPEN_QUERY, rest);
  }

  // ----- real user turns

  /** A wrapped query is a real turn unless it is empty or one of the two continuation
      texts. */
  lemma WrappedIsReal(q: string, prompt: string)
    requires SurvivesWrapping(q)
    ensures IsRealUserTurn(User([ContentPart.Text(WrapUserQuery(q))], None), prompt) <==>
            q != "" && q != "__auto_continue__" && q != prompt
  {
    OneText(WrapUserQuery(q));
    QueryRoundTripIff(q);
    TextDecides([ContentPart.Text(WrapUserQuery(q))], q, prompt);
  }

  lemma TextDecides(parts: seq<ContentPart>, q: string, prompt: string)
    requires (forall i :: 0 <= i < |parts| ==> !parts[i].Image?) && ExtractUserQuery(JoinTexts(parts)) == q
    ensures IsRealUserTurn(User(parts, None), prompt) <==> q != "" && q != "__auto_continue__" && q != prompt
  {
  }

  lemma OneText(text: string)
    ensures JoinTexts([ContentPart.Text(text)]) == text
  {
    var parts := [ContentPart.Text(text)];
    assert parts[1..] == [];
    assert TextsOf(parts) == [text];
  }

  // ----- what is carried over

  predicate IsCarried(item: Item) {
    item.Assistant? || item.ToolResult?
  }

  /** How many of the first `n` items are carried over. */
  function Carried(items: seq<Item>, n: nat): nat
    requires n <= |items|
  {
    if n == 0 then 0 else Carried(items, n - 1) + if IsCarried(items[n - 1]) then 1 else 0
  }

  lemma {:induction false} CarriedCons(items: seq<Item>, n: nat)
    requires 0 < n <= |items|
    ensures Carried(items, n) == Carried(items[1..], n - 1) + if IsCarried(items[0]) then 1 else 0
    decreases n
  {
    if 1 < n {
      CarriedCons(items, n - 1);
    }
  }

  /** Every assistant message is carried over whole and every tool result under its id
      with the omission text, in order; nothing else is. */
  lemma {:induction false} RecentAt(items: seq<Item>, i: nat)
    requires i < |items| && IsCarried(items[i])
    ensures Carried(items, i) < |Recent(items)|
    ensures Recent(items)[Carried(items, i)] ==
            if items[i].Assistant? then items[i] else ToolResult(items[i].callId, "Tool call omitted...", [])
  {
    if 0 < i {
      RecentAt(items[1..], i - 1);
      CarriedCons(items, i);
      assert Recent(items) == CarriedOver(items[0]) + Recent(items[1..]);
      assert |CarriedOver(items[0])| == if IsCarried(items[0]) then 1 else 0;
    }
  }

  lemma {:induction false} RecentCount(items: seq<Item>)
    ensures |Recent(items)| == Carried(items, |items|)
  {
    if items != [] {
      RecentCount(items[1..]);
      CarriedCons(items, |items|);
    }
  }
}
