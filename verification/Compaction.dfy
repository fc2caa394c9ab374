/** Rebuilding a compacted history from captured live state, and capturing it
    again: which parts of the state survive any number of compactions. */
module Compaction {
  import opened Prelude
  import opened Conversation
  import opened Pairing
  import opened Text
  import opened Summary

  // ----- stripping runtime tags

  const SYSTEM_TAGS: seq<string> := [
    "user_info", "project_layout", "git_status", "fork-context", "system-reminder", "agent-memory",
    "system_reminder", "background_context", "command-name", "command-message", "command-args"
  ]

  function OpenTag(tag: string): string { "<" + tag + ">" }

  function CloseTag(tag: string): string { "</" + tag + ">" }

  /** The first opening tag is followed somewhere by a closing tag. */
  predicate HasBlock(s: string, tag: string) {
    match Find(s, OpenTag(tag))
    case Some(start) => Find(s[start..], CloseTag(tag)).Some?
    case None => false
  }

  function WithoutFirstBlock(s: string, tag: string): (t: string)
    requires HasBlock(s, tag)
    ensures |t| < |s|
  {
    var start := Find(s, OpenTag(tag)).value;
    var end := start + Find(s[start..], CloseTag(tag)).value + |CloseTag(tag)|;
    s[..start] + s[end..]
  }

  function StripTag(s: string, tag: string): string
    decreases |s|
  {
    if HasBlock(s, tag) then StripTag(WithoutFirstBlock(s, tag), tag) else s
  }

  function StripTags(s: string, tags: seq<string>): string
    decreases |tags|
  {
    if tags == [] then s else StripTags(StripTag(s, tags[0]), tags[1..])
  }

  function StripSystemTags(s: string): string {
    Trim(StripTags(s, SYSTEM_TAGS))
  }

  /** The source's nested loops: per tag, cut blocks until none is left. */
  method StripSystemTagBlocks(text: string) returns (result: string)
    ensures result == StripSystemTags(text)
  {
    result := text;
    for n := 0 to |SYSTEM_TAGS|
      invariant StripTags(result, SYSTEM_TAGS[n..]) == StripTags(text, SYSTEM_TAGS)
    {
      ghost var before := result;
      while HasBlock(result, SYSTEM_TAGS[n])
        invariant StripTag(result, SYSTEM_TAGS[n]) == StripTag(before, SYSTEM_TAGS[n])
        decreases |result|
      {
        result := WithoutFirstBlock(result, SYSTEM_TAGS[n]);
      }
      assert SYSTEM_TAGS[n..][1..] == SYSTEM_TAGS[n + 1..];
    }
    result := Trim(result);
  }

  lemma {:induction false} StripTagShrinks(s: string, tag: string)
    ensures |StripTag(s, tag)| <= |s|
    ensures |StripTag(s, tag)| == |s| <==> !HasBlock(s, tag)
    decreases |s|
  {
    if HasBlock(s, tag) {
      StripTagShrinks(WithoutFirstBlock(s, tag), tag);
    }
  }

  ghost predicate NoBlocks(s: string, tags: seq<string>) {
    forall i :: 0 <= i < |tags| ==> !HasBlock(s, tags[i])
  }

  /** Stripping is the identity exactly on texts without a closed block, and
      strictly shortens every other text. */
  lemma {:induction false} StripTagsShrinks(s: string, tags: seq<string>)
    ensures |StripTags(s, tags)| <= |s|
    ensures |StripTags(s, tags)| == |s| <==> NoBlocks(s, tags)
    ensures NoBlocks(s, tags) ==> StripTags(s, tags) == s
    decreases |tags|
  {
    if tags != [] {
      StripTagShrinks(s, tags[0]);
      StripTagsShrinks(StripTag(s, tags[0]), tags[1..]);
      if !HasBlock(s, tags[0]) {
        assert StripTag(s, tags[0]) == s;
        assert NoBlocks(s, tags[1..]) ==> NoBlocks(s, tags);
        assert forall i :: 0 <= i < |tags[1..]| ==> tags[1..][i] == tags[i + 1];
      }
    }
  }

  // ----- extracting and wrapping the user's query

  const OPEN_QUERY := "<user_query>"
  const CLOSE_QUERY := "</user_query>"

  /** The text between the first opening tag and the first closing tag after it. */
  function Enclosed(text: string): Option<string> {
    match Find(text, OPEN_QUERY)
    case Some(start) =>
      var content := text[start + |OPEN_QUERY|..];
      (match Find(content, CLOSE_QUERY)
       case Some(end) => Some(content[..end])
       case None => None)
    case None => None
  }

  function ExtractUserQuery(text: string): string {
    StripSystemTags(match Enclosed(text) case Some(query) => Trim(query) case None => text)
  }

  function WrapUserQuery(text: string): string {
    OPEN_QUERY + ("\n" + (text + ("\n" + CLOSE_QUERY)))
  }

  lemma TrimShrinks(s: string)
    ensures |Trim(s)| <= |s| && Trimmed(Trim(s))
  {
    var left, right := TrimSpec(s);
  }

  lemma QueryTokens()
    ensures IsToken(OPEN_QUERY) && IsToken(CLOSE_QUERY)
  {
  }

  /** What extraction sees inside a wrapped text. */
  function Wrapped(text: string): string {
    "\n" + (text + ("\n" + CLOSE_QUERY))
  }

  lemma ExtractWrapped(text: string)
    ensures Find(Wrapped(text), CLOSE_QUERY).Some?
    ensures ExtractUserQuery(WrapUserQuery(text)) ==
            StripSystemTags(Trim(Wrapped(text)[..Find(Wrapped(text), CLOSE_QUERY).value]))
  {
    QueryTokens();
    TokenAtFront(OPEN_QUERY, Wrapped(text));
    CloseIsFound(text);
    EnclosedAt(WrapUserQuery(text), 0, Wrapped(text));
  }

  lemma TokenAtFront(p: string, rest: string)
    requires IsToken(p)
    ensures Find(p + rest, p) == Some(0) && (p + rest)[|p|..] == rest
  {
    FindsToken("", p, rest);
    assert "" + (p + rest) == p + rest;
  }

  lemma EnclosedAt(text: string, start: nat, content: string)
    requires Find(text, OPEN_QUERY) == Some(start) && text[start + |OPEN_QUERY|..] == content
    requires Find(content, CLOSE_QUERY).Some?
    ensures Enclosed(text) == Some(content[..Find(content, CLOSE_QUERY).value])
  {
  }

  /** Padding with newlines neither hides nor creates a token. */
  lemma PaddedToken(text: string, p: string)
    requires IsToken(p)
    ensures Has("\n" + (text + "\n"), p) <==> Has(text, p)
  {
    var s := "\n" + (text + "\n");
    HasAt(text, p);
    HasAt(s, p);
    forall k | At(p, s, k) ensures At(p, text, k - 1) {
      PaddedAt(text, p, k);
    }
    forall k | At(p, text, k) ensures At(p, s, k + 1) {
      SliceMiddle("\n", text, "\n", k, |p|);
    }
  }

  lemma PaddedAt(text: string, p: string, k: int)
    requires IsToken(p) && At(p, "\n" + (text + "\n"), k)
    ensures At(p, text, k - 1)
  {
    var s := "\n" + (text + "\n");
    AtChar(p, s, k, 0);
    AtChar(p, s, k, |p| - 1);
    assert s[0] == '\n' && s[|s| - 1] == '\n';
    SliceMiddle("\n", text, "\n", k - 1, |p|);
  }

  lemma FoundInPrefix(a: string, b: string, p: string)
    requires p != "" && Has(a, p)
    ensures Find(a + b, p).Some? && Find(a + b, p).value + |p| <= |a|
  {
    HasAt(a, p);
    var k :| At(p, a, k);
    assert (a + b)[k..k + |p|] == a[k..k + |p|];
    assert At(p, a + b, k);
    FindSpec(a + b, p);
  }

  lemma FoundAfter(before: string, p: string)
    requires IsToken(p)
    ensures var end := Find(before + p, p);
            end.Some? && if Has(before, p) then end.value + |p| <= |before| else end.value == |before|
  {
    if Has(before, p) {
      FoundInPrefix(before, p, p);
    } else {
      FindsToken(before, p, "");
      assert p + "" == p;
    }
  }

  lemma CloseIsFound(text: string)
    ensures var end := Find(Wrapped(text), CLOSE_QUERY);
            end.Some? && if Has(text, CLOSE_QUERY) then end.value < |text| else end.value == |text| + 2
  {
    QueryTokens();
    var before := "\n" + (text + "\n");
    Regroup("\n", text, "\n", CLOSE_QUERY);
    PaddedToken(text, CLOSE_QUERY);
    FoundAfter(before, CLOSE_QUERY);
  }

  lemma TrimBetweenNewlines(text: string)
    requires Trimmed(text)
    ensures Trim("\n" + (text + "\n")) == text
  {
    var s := "\n" + (text + "\n");
    assert s[1..] == text + "\n";
    assert TrimStart(s) == TrimStart(text + "\n");
    if text == "" {
      assert text + "\n" == "\n";
      assert "\n"[1..] == "";
      assert TrimStart("\n") == TrimStart("");
    } else {
      assert (text + "\n")[0] == text[0];
      assert TrimStart(text + "\n") == text + "\n";
      assert (text + "\n")[..|text|] == text;
      assert TrimEnd(text + "\n") == TrimEnd(text);
    }
  }

  /** The exact condition under which a query survives wrapping and extraction. */
  ghost predicate SurvivesWrapping(q: string) {
    Trimmed(q) && !Has(q, CLOSE_QUERY) && NoBlocks(q, SYSTEM_TAGS)
  }

  /** Stripping and trimming an inner text gives `q` back only if nothing was cut. */
  lemma StrippedInner(inner: string, q: string, tags: seq<string>)
    ensures |inner| < |q| ==> Trim(StripTags(inner, tags)) != q
    ensures inner == q && Trimmed(q) ==> (Trim(StripTags(inner, tags)) == q <==> NoBlocks(q, tags))
    ensures Trimmed(Trim(StripTags(inner, tags)))
  {
    StripTagsShrinks(inner, tags);
    TrimShrinks(StripTags(inner, tags));
    if NoBlocks(inner, tags) && Trimmed(inner) {
      TrimOfTrimmed(inner);
    }
  }

  lemma InnerText(content: string, q: string, end: nat)
    requires end <= |content|
    ensures end < |q| ==> |Trim(content[..end])| < |q|
    ensures content == "\n" + (q + ("\n" + CLOSE_QUERY)) && end == |q| + 2 && Trimmed(q) ==>
            Trim(content[..end]) == q
  {
    TrimShrinks(content[..end]);
    if content == "\n" + (q + ("\n" + CLOSE_QUERY)) && end == |q| + 2 && Trimmed(q) {
      Regroup("\n", q, "\n", CLOSE_QUERY);
      var pad := "\n" + (q + "\n");
      assert (pad + CLOSE_QUERY)[..|pad|] == pad;
      TrimBetweenNewlines(q);
    }
  }

  lemma QueryRoundTripIff(q: string)
    ensures ExtractUserQuery(WrapUserQuery(q)) == q <==> SurvivesWrapping(q)
  {
    ExtractWrapped(q);
    CloseIsFound(q);
    var end := Find(Wrapped(q), CLOSE_QUERY).value;
    InnerText(Wrapped(q), q, end);
    StrippedInner(Trim(Wrapped(q)[..end]), q, SYSTEM_TAGS);
  }

  // ----- which items are real user turns

  const AUTO_CONTINUE_SENTINEL := "__auto_continue__"

  /** The full auto-continue prompt is opaque text here. */
  predicate IsSyntheticQuery(text: string, autoContinuePrompt: string) {
    text == "" || text == AUTO_CONTINUE_SENTINEL || text == autoContinuePrompt
  }

  function JoinTexts(parts: seq<ContentPart>): string {
    Joined(TextsOf(parts))
  }

  predicate HasImages(parts: seq<ContentPart>) {
    exists i :: 0 <= i < |parts| && parts[i].Image?
  }

  predicate IsRealUserTurn(item: Item, autoContinuePrompt: string) {
    item.User? && item.synthetic.None? &&
    (HasImages(item.parts) || !IsSyntheticQuery(ExtractUserQuery(JoinTexts(item.parts)), autoContinuePrompt))
  }

  // ----- capturing live state

  const OMITTED := "Tool call omitted..."

  /** The form in which an item is carried over, if it is. */
  function CarriedOver(item: Item): seq<Item> {
    match item
    case Assistant(_, _) => [item]
    case ToolResult(id, _, _) => [ToolResult(id, OMITTED, [])]
    case _ => []
  }

  function Recent(items: seq<Item>): (out: seq<Item>) {
    if items == [] then [] else CarriedOver(items[0]) + Recent(items[1..])
  }

  /** Just past the last item that passes a test, or the start when none does. */
  function PastLast(items: seq<Item>, test: Item -> bool): (n: nat)
    ensures n <= |items|
  {
    if items == [] then 0
    else if test(items[|items| - 1]) then |items|
    else PastLast(items[..|items| - 1], test)
  }

  lemma {:induction false} PastLastSpec(items: seq<Item>, test: Item -> bool)
    ensures var n := PastLast(items, test);
            (0 < n ==> test(items[n - 1])) && forall i :: n <= i < |items| ==> !test(items[i])
  {
    if items != [] && !test(items[|items| - 1]) {
      var front := items[..|items| - 1];
      PastLastSpec(front, test);
      assert forall i :: 0 <= i < |front| ==> items[i] == front[i];
    }
  }

  function RealTurns(prompt: string): Item -> bool {
    (item: Item) => IsRealUserTurn(item, prompt)
  }

  /** Just past the last real user turn, or the start when there is none. */
  function Boundary(items: seq<Item>, prompt: string): (n: nat)
    ensures n <= |items|
  {
    PastLast(items, RealTurns(prompt))
  }

  lemma BoundarySpec(items: seq<Item>, prompt: string)
    ensures var n := Boundary(items, prompt);
            && (0 < n ==> IsRealUserTurn(items[n - 1], prompt))
            && (forall i :: n <= i < |items| ==> !IsRealUserTurn(items[i], prompt))
  {
    PastLastSpec(items, RealTurns(prompt));
    forall i | Boundary(items, prompt) <= i < |items| ensures !IsRealUserTurn(items[i], prompt) {
      assert !RealTurns(prompt)(items[i]);
    }
  }

  lemma BoundaryUnique(items: seq<Item>, prompt: string, n: nat)
    requires n <= |items| && (0 < n ==> IsRealUserTurn(items[n - 1], prompt))
    requires forall i :: n <= i < |items| ==> !IsRealUserTurn(items[i], prompt)
    ensures Boundary(items, prompt) == n
  {
    BoundarySpec(items, prompt);
  }

  datatype LiveState = LiveState(recent: seq<Item>, lastQuery: Option<string>)

  function Capture(items: seq<Item>, prompt: string): LiveState {
    var n := Boundary(items, prompt);
    LiveState(
      Recent(items[n..]),
      if n == 0 then None
      else Some(ExtractUserQuery(if items[n - 1].User? then JoinTexts(items[n - 1].parts) else "")))
  }

  // ----- rebuilding

  /** What a compaction puts around the live state. */
  datatype Frame = Frame(
    system: string,
    prefix: string,
    instructions: Option<string>,
    summary: string,
    reminder: Option<string>)

  function Synthetic(text: string, reason: SyntheticReason): Item {
    User([ContentPart.Text(text)], Some(reason))
  }

  function Optionally(text: Option<string>, reason: SyntheticReason): seq<Item> {
    if text.Some? then [Synthetic(text.value, reason)] else []
  }

  function Head(frame: Frame): seq<Item> {
    [System(frame.system), Synthetic(frame.prefix, CompactionMeta)]
    + Optionally(frame.instructions, ProjectInstructions)
  }

  function QueryItems(live: LiveState): seq<Item> {
    if live.lastQuery.Some? then [User([ContentPart.Text(WrapUserQuery(live.lastQuery.value))], None)] else []
  }

  function Tail(frame: Frame): seq<Item> {
    [Synthetic(frame.summary, CompactionMeta)] + Optionally(frame.reminder, SystemReminder)
  }

  function Rebuilt(frame: Frame, live: LiveState): seq<Item> {
    Head(frame) + QueryItems(live) + live.recent + Tail(frame)
  }

  const CONTINUATION :=
    "This session is being continued from a previous conversation that ran out of context. " +
    "The summary below covers the earlier portion of the conversation.\n\n"

  /** The text that replaces the compacted conversation. */
  function SummaryText(raw: string, hint: Option<string>): string {
    var text := CONTINUATION + Formatted(raw);
    if hint.Some? then text + hint.value else text
  }

  // ----- where everything stands

  ghost predicate IsNote(item: Item, text: string, reason: SyntheticReason) {
    item.User? && item.parts == [ContentPart.Text(text)] && item.synthetic == Some(reason)
  }

  /** A compacted history by position: the System item, the prefix, the instructions, the
      wrapped query, the recent messages, the summary and the reminder, and nothing else;
      the instructions, the query and the reminder only if there are any. */
  ghost predicate LaidOut(h: seq<Item>, frame: Frame, summary: string, live: LiveState) {
    var query := if frame.instructions.Some? then 3 else 2;
    var recent := query + if live.lastQuery.Some? then 1 else 0;
    var end := recent + |live.recent|;
    && |h| == end + (if frame.reminder.Some? then 2 else 1)
    && h[0] == System(frame.system) && IsNote(h[1], frame.prefix, CompactionMeta)
    && (frame.instructions.Some? ==> IsNote(h[2], frame.instructions.value, ProjectInstructions))
    && (live.lastQuery.Some? ==> h[query] == User([ContentPart.Text(WrapUserQuery(live.lastQuery.value))], None))
    && h[recent..end] == live.recent
    && IsNote(h[end], summary, CompactionMeta)
    && (frame.reminder.Some? ==> IsNote(h[end + 1], frame.reminder.value, SystemReminder))
  }

  lemma FourParts(a: seq<Item>, b: seq<Item>, c: seq<Item>, d: seq<Item>)
    ensures var h := a + b + c + d;
            && (forall i :: 0 <= i < |a| ==> h[i] == a[i])
            && (forall i :: 0 <= i < |b| ==> h[|a| + i] == b[i])
            && h[|a| + |b|..|a| + |b| + |c|] == c
            && (forall i :: 0 <= i < |d| ==> h[|a| + |b| + |c| + i] == d[i])
  {
  }

  lemma RebuiltIsLaidOut(frame: Frame, live: LiveState)
    ensures LaidOut(Rebuilt(frame, live), frame, frame.summary, live)
  {
    var h, head, query, tail := Rebuilt(frame, live), Head(frame), QueryItems(live), Tail(frame);
    FourParts(head, query, live.recent, tail);
    var end := |head| + |query| + |live.recent|;
    assert h[0] == head[0] && h[1] == head[1];
    assert frame.instructions.Some? ==> h[2] == head[2];
    assert live.lastQuery.Some? ==> h[|head| + 0] == query[0];
    assert h[end + 0] == tail[0];
    assert frame.reminder.Some? ==> h[end + 1] == tail[1];
  }

  method PushAll(base: seq<Item>, items: seq<Item>) returns (out: seq<Item>)
    ensures out == base + items
  {
    out := base;
    for n := 0 to |items|
      invariant out == base + items[..n]
    {
      out := out + [items[n]];
    }
  }

  method BuildCompactedHistory(frame: Frame, raw: string, hint: Option<string>, live: LiveState)
      returns (compacted: seq<Item>)
    ensures compacted == Rebuilt(frame.(summary := SummaryText(raw, hint)), live)
    ensures LaidOut(compacted, frame, CONTINUATION + Formatted(raw) + (if hint.Some? then hint.value else ""), live)
  {
    var cleaned := FormatCompactSummary(raw);
    var text := CONTINUATION + cleaned;
    if hint.Some? {
      text := text + hint.value;
    }
    assert CONTINUATION + Formatted(raw) + "" == CONTINUATION + Formatted(raw);
    compacted := AssembleHistory(frame.(summary := text), live);
  }

  method AssembleHistory(frame: Frame, live: LiveState) returns (compacted: seq<Item>)
    ensures compacted == Rebuilt(frame, live) && LaidOut(compacted, frame, frame.summary, live)
  {
    var head := [System(frame.system), Synthetic(frame.prefix, CompactionMeta)];
    if frame.instructions.Some? {
      head := head + [Synthetic(frame.instructions.value, ProjectInstructions)];
    }
    if live.lastQuery.Some? {
      head := head + [User([ContentPart.Text(WrapUserQuery(live.lastQuery.value))], None)];
    }
    assert head == Head(frame) + QueryItems(live);
    var body := PushAll(head, live.recent);
    compacted := body + [Synthetic(frame.summary, CompactionMeta)];
    if frame.reminder.Some? {
      compacted := compacted + [Synthetic(frame.reminder.value, SystemReminder)];
    }
    assert compacted == body + Tail(frame);
    RebuiltIsLaidOut(frame, live);
  }

  // ----- what a compaction keeps

  lemma OneText(text: string)
    ensures JoinTexts([ContentPart.Text(text)]) == text && !HasImages([ContentPart.Text(text)])
  {
    var parts := [ContentPart.Text(text)];
    assert parts[1..] == [];
    assert TextsOf(parts) == [text];
  }

  lemma QueryItemIsReal(text: string, prompt: string)
    ensures IsRealUserTurn(User([ContentPart.Text(text)], None), prompt) <==>
            !IsSyntheticQuery(ExtractUserQuery(text), prompt)
  {
    OneText(text);
  }

  /** Captured messages are assistants and placeholder results only. */
  ghost predicate Captured(items: seq<Item>) {
    forall i :: 0 <= i < |items| ==>
      items[i].Assistant? || (items[i].ToolResult? && items[i] == ToolResult(items[i].callId, OMITTED, []))
  }

  lemma {:induction false} RecentIsCaptured(items: seq<Item>)
    ensures Captured(Recent(items))
  {
    if items != [] {
      RecentIsCaptured(items[1..]);
    }
  }

  lemma {:induction false} RecentOfCaptured(items: seq<Item>)
    requires Captured(items)
    ensures Recent(items) == items
  {
    if items != [] {
      RecentOfCaptured(items[1..]);
    }
  }

  lemma {:induction false} RecentConcat(a: seq<Item>, b: seq<Item>)
    ensures Recent(a + b) == Recent(a) + Recent(b)
  {
    if a == [] {
      assert a + b == b;
    } else {
      assert (a + b)[1..] == a[1..] + b;
      RecentConcat(a[1..], b);
      Reassociate(CarriedOver(a[0]), Recent(a[1..]), Recent(b));
    }
  }

  lemma {:induction false} RecentOfOthers(items: seq<Item>)
    requires forall i :: 0 <= i < |items| ==> !items[i].Assistant? && !items[i].ToolResult?
    ensures Recent(items) == []
  {
    if items != [] {
      RecentOfOthers(items[1..]);
    }
  }

  /** Items a compaction adds around the live state: never carried over, never a
      real user turn. */
  ghost predicate Inert(items: seq<Item>) {
    forall i :: 0 <= i < |items| ==> items[i].System? || (items[i].User? && items[i].synthetic.Some?)
  }

  lemma FrameIsInert(frame: Frame)
    ensures Inert(Head(frame)) && Inert(Tail(frame))
  {
  }

  /** Not a prompt the user typed. */
  predicate Quiet(item: Item) {
    !item.User? || item.synthetic.Some?
  }

  lemma FramedQuiet(head: seq<Item>, query: seq<Item>, recent: seq<Item>, tail: seq<Item>, i: nat)
    requires Inert(head) && Inert(tail) && Captured(recent) && |query| <= 1
    requires i < |head + query + recent + tail| && (query == [] || i != |head|)
    ensures Quiet((head + query + recent + tail)[i])
  {
    var h := head + query + recent + tail;
    if i < |head| {
      assert h[i] == head[i];
    } else if i < |head| + |query| + |recent| {
      assert h[i] == recent[i - |head| - |query|];
    } else {
      assert h[i] == tail[i - |head| - |query| - |recent|];
    }
  }

  lemma QuietIsNotReal(item: Item, prompt: string)
    requires Quiet(item)
    ensures !IsRealUserTurn(item, prompt)
  {
  }

  /** Only the query item of a rebuilt history can be a real user turn. */
  lemma FramedBoundary(head: seq<Item>, query: seq<Item>, recent: seq<Item>, tail: seq<Item>, prompt: string)
    requires Inert(head) && Inert(tail) && Captured(recent) && |query| <= 1
    ensures Boundary(head + query + recent + tail, prompt) ==
            if query != [] && IsRealUserTurn(query[0], prompt) then |head| + 1 else 0
  {
    var h := head + query + recent + tail;
    var isReal := query != [] && IsRealUserTurn(query[0], prompt);
    assert query != [] ==> h[|head|] == query[0];
    forall i | 0 <= i < |h| && !(isReal && i == |head|) ensures !IsRealUserTurn(h[i], prompt) {
      if query == [] || i != |head| {
        FramedQuiet(head, query, recent, tail, i);
        QuietIsNotReal(h[i], prompt);
      }
    }
    BoundaryUnique(h, prompt, if isReal then |head| + 1 else 0);
  }

  lemma FramedRecent(front: seq<Item>, recent: seq<Item>, tail: seq<Item>, n: nat)
    requires n <= |front| && Captured(recent) && Inert(tail)
    requires forall i :: 0 <= i < |front| ==> !front[i].Assistant? && !front[i].ToolResult?
    ensures Recent((front + recent + tail)[n..]) == recent
  {
    assert (front + recent + tail)[n..] == front[n..] + recent + tail;
    RecentConcat(front[n..] + recent, tail);
    RecentConcat(front[n..], recent);
    RecentOfOthers(front[n..]);
    RecentOfOthers(tail);
    RecentOfCaptured(recent);
    assert [] + recent + [] == recent;
  }

  lemma QueryItemsShape(live: LiveState)
    ensures |QueryItems(live)| <= 1
    ensures forall i :: 0 <= i < |QueryItems(live)| ==> QueryItems(live)[i].User?
  {
  }

  /** The messages after the last real user turn are a fixed point of
      compaction, whatever the history, the query or the summary. */
  lemma RecentIsFixed(frame: Frame, live: LiveState, prompt: string)
    requires Captured(live.recent)
    ensures Capture(Rebuilt(frame, live), prompt).recent == live.recent
  {
    FrameIsInert(frame);
    QueryItemsShape(live);
    FramedCapture(Head(frame), QueryItems(live), live.recent, Tail(frame), prompt);
  }

  lemma FramedCapture(head: seq<Item>, query: seq<Item>, recent: seq<Item>, tail: seq<Item>, prompt: string)
    requires Inert(head) && Inert(tail) && Captured(recent) && |query| <= 1
    requires query != [] ==> query[0].User?
    ensures Capture(head + query + recent + tail, prompt).recent == recent
  {
    var front := head + query;
    FramedBoundary(head, query, recent, tail, prompt);
    FrontIsQuiet(head, query);
    FramedRecent(front, recent, tail, Boundary(front + recent + tail, prompt));
  }

  lemma FrontIsQuiet(head: seq<Item>, query: seq<Item>)
    requires Inert(head) && |query| <= 1 && (query != [] ==> query[0].User?)
    ensures forall i :: 0 <= i < |head + query| ==>
              !(head + query)[i].Assistant? && !(head + query)[i].ToolResult?
  {
  }

  lemma CapturedQuery(items: seq<Item>, n: nat, text: string, prompt: string)
    requires Boundary(items, prompt) == n && 0 < n && items[n - 1] == User([ContentPart.Text(text)], None)
    ensures Capture(items, prompt).lastQuery == Some(ExtractUserQuery(text))
  {
    OneText(text);
  }

  /** The last query is kept exactly when it survives wrapping and is not one of
      the synthetic texts; a captured empty query, as an image-only prompt
      leaves it, is lost. */
  lemma QueryIsFixedIff(frame: Frame, live: LiveState, prompt: string)
    requires Captured(live.recent)
    ensures Capture(Rebuilt(frame, live), prompt).lastQuery == live.lastQuery <==>
            live.lastQuery.Some? ==>
              SurvivesWrapping(live.lastQuery.value) && !IsSyntheticQuery(live.lastQuery.value, prompt)
  {
    FrameIsInert(frame);
    QueryItemsShape(live);
    FramedBoundary(Head(frame), QueryItems(live), live.recent, Tail(frame), prompt);
    if live.lastQuery.Some? {
      var q := live.lastQuery.value;
      var item := User([ContentPart.Text(WrapUserQuery(q))], None);
      QueryRoundTripIff(q);
      QueryItemIsReal(WrapUserQuery(q), prompt);
      QueryItemPosition(Head(frame), item, live.recent, Tail(frame));
      if IsRealUserTurn(item, prompt) {
        CapturedQuery(Rebuilt(frame, live), |Head(frame)| + 1, WrapUserQuery(q), prompt);
      }
    }
  }

  lemma QueryItemPosition(head: seq<Item>, item: Item, recent: seq<Item>, tail: seq<Item>)
    ensures (head + [item] + recent + tail)[|head|] == item
  {
  }

  /** An image-only prompt is captured as the empty query. */
  lemma ImageOnlyPrompt(url: string, prompt: string)
    ensures Capture([User([Image(url)], None)], prompt) == LiveState([], Some(""))
  {
    var h := [User([Image(url)], None)];
    assert h[0].parts[0].Image?;
    BoundaryUnique(h, prompt, 1);
    assert h[0].parts[1..] == [];
    assert TextsOf(h[0].parts) == [];
    StripTagsShrinks("", SYSTEM_TAGS);
  }

  /** The empty query does not come back after one compaction. */
  lemma EmptyQueryIsLost(frame: Frame, live: LiveState, prompt: string)
    requires Captured(live.recent) && live.lastQuery == Some("")
    ensures Capture(Rebuilt(frame, live), prompt).lastQuery.None?
  {
    FrameIsInert(frame);
    QueryItemsShape(live);
    FramedBoundary(Head(frame), QueryItems(live), live.recent, Tail(frame), prompt);
    QueryRoundTripIff("");
    EmptyHasNoBlocks();
    QueryItemIsReal(WrapUserQuery(""), prompt);
  }

  lemma EmptyHasNoBlocks()
    ensures SurvivesWrapping("")
  {
    forall i | 0 <= i < |SYSTEM_TAGS| ensures !HasBlock("", SYSTEM_TAGS[i]) {
      assert |OpenTag(SYSTEM_TAGS[i])| != 0;
    }
  }

  /** The history after a series of compactions with arbitrary summaries. */
  function AfterRounds(items: seq<Item>, rounds: seq<Frame>, prompt: string): seq<Item>
    decreases |rounds|
  {
    if rounds == [] then items
    else
      var before := AfterRounds(items, rounds[..|rounds| - 1], prompt);
      Rebuilt(rounds[|rounds| - 1], Capture(before, prompt))
  }

  /** Live state over any number of rounds. */
  lemma {:induction false} RoundsKeepLiveState(items: seq<Item>, rounds: seq<Frame>, prompt: string)
    ensures Capture(AfterRounds(items, rounds, prompt), prompt).recent == Capture(items, prompt).recent
    ensures
      var q := Capture(items, prompt).lastQuery;
      (q.Some? ==> SurvivesWrapping(q.value) && !IsSyntheticQuery(q.value, prompt)) ==>
      Capture(AfterRounds(items, rounds, prompt), prompt) == Capture(items, prompt)
    decreases |rounds|
  {
    if rounds != [] {
      RoundsKeepLiveState(items, rounds[..|rounds| - 1], prompt);
      var before := AfterRounds(items, rounds[..|rounds| - 1], prompt);
      RecentIsCaptured(before[Boundary(before, prompt)..]);
      RecentIsFixed(rounds[|rounds| - 1], Capture(before, prompt), prompt);
      QueryIsFixedIff(rounds[|rounds| - 1], Capture(before, prompt), prompt);
    }
  }

  // ----- compaction keeps the contiguous-run rule

  lemma ContiguousStart(h: seq<Item>)
    requires ContiguousRuns(h)
    ensures StartsRunFree(h)
  {
    assert !HasOwner(h, 0);
  }

  lemma {:induction false} RecentOfRun(run: seq<Item>)
    requires AllResults(run)
    ensures AllResults(Recent(run)) && ResultIds(Recent(run)) == ResultIds(run)
  {
    if run != [] {
      RecentOfRun(run[1..]);
      var out := Recent(run);
      assert out[1..] == Recent(run[1..]);
      ResultIdsCons(run);
      ResultIdsCons(out);
    }
  }

  lemma {:induction false} RecentKeepsRuns(items: seq<Item>)
    requires ContiguousRuns(items)
    ensures ContiguousRuns(Recent(items))
    decreases |items|
  {
    if items != [] {
      ContiguousStart(items);
      var k := RunLength(items[1..]);
      RunLengthSpec(items[1..]);
      var head, run, rest := items[0], items[1..][..k], items[1..][k..];
      SliceHead(items, k);
      ContiguousSplit([head] + run, rest);
      BlockContiguous(head, run);
      RecentOfRun(run);
      RecentKeepsRuns(rest);
      ContiguousStart(Recent(rest));
      RecentConcat([head] + run, rest);
      RecentConcat([head], run);
      RecentOfOne(head);
      if head.Assistant? {
        BlockContiguous(head, Recent(run));
        ContiguousSplit([head] + Recent(run), Recent(rest));
      } else {
        NoCallsNoRun(head, run);
        assert [] + Recent(run) + Recent(rest) == Recent(rest);
      }
    }
  }

  lemma RecentOfOne(x: Item)
    ensures Recent([x]) == CarriedOver(x)
  {
    assert [x][1..] == [];
    assert CarriedOver(x) + [] == CarriedOver(x);
  }

  lemma NoCallsNoRun(head: Item, run: seq<Item>)
    requires !head.Assistant? && AllResults(run) && ResultIds(run) <= CallIds(head)
    ensures run == [] && Recent(run) == []
  {
    assert CallIds(head) == {};
    RunIdsEmpty(run);
  }

  lemma CaptureKeepsRuns(items: seq<Item>, prompt: string)
    requires ContiguousRuns(items)
    ensures ContiguousRuns(Capture(items, prompt).recent)
  {
    var n := Boundary(items, prompt);
    BoundarySpec(items, prompt);
    AfterUserTurn(items, n);
    RecentKeepsRuns(items[n..]);
  }

  lemma RebuiltKeepsRuns(frame: Frame, live: LiveState)
    requires ContiguousRuns(live.recent)
    ensures ContiguousRuns(Rebuilt(frame, live))
  {
    FrameIsInert(frame);
    QueryItemsShape(live);
    FramedRuns(Head(frame) + QueryItems(live), live.recent, Tail(frame));
  }

  /** Compacting a history that obeys the contiguous-run rule gives one that obeys
      it too, so sanitizing the result strips nothing. */
  lemma CompactionKeepsContiguousRuns(items: seq<Item>, frame: Frame, prompt: string)
    requires ContiguousRuns(items)
    ensures var h := Rebuilt(frame, Capture(items, prompt));
            ContiguousRuns(h) && WithoutOrphans(h, {}) == h && Orphans(h, {}) == []
  {
    CaptureKeepsRuns(items, prompt);
    RebuiltKeepsRuns(frame, Capture(items, prompt));
    ContiguousImpliesClean(Rebuilt(frame, Capture(items, prompt)));
  }

  lemma FramedRuns(front: seq<Item>, recent: seq<Item>, tail: seq<Item>)
    requires ContiguousRuns(recent) && Inert(tail)
    requires forall i :: 0 <= i < |front| ==> !front[i].ToolResult?
    ensures ContiguousRuns(front + recent + tail)
  {
    ContiguousStart(recent);
    ContiguousSplit(front, recent);
    ContiguousSplit(front + recent, tail);
  }

  lemma AfterUserTurn(items: seq<Item>, n: nat)
    requires ContiguousRuns(items) && n <= |items| && (0 < n ==> items[n - 1].User?)
    ensures ContiguousRuns(items[n..])
  {
    assert 0 < n ==> CallIds(items[n - 1]) == {};
    assert n < |items| ==> !HasOwner(items, n);
    SliceTwo(items, n, |items|);
    ContiguousSplit(items[..n], items[n..]);
  }
}
