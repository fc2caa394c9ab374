/** The segment document as callers get it: its preamble, the turn renderers of the
    three detail levels, and when the document stays within its byte cap. */
module SegmentCap {
  import opened Prelude
  import opened Conversation
  import opened Text
  import opened Segment

  datatype Detail = NoTurns | Minimal | Balanced | Verbose

  /** What is read off JSON text and statistics: a call's arguments in order, the
      key argument its signature shows, and the statistics block. */
  datatype Env = Env(
    arguments: ToolCall -> seq<(string, string)>,
    keyArgument: ToolCall -> string,
    stats: seq<Item> -> string)

  // ----- one turn

  function RoleLabel(item: Item): string {
    match item
    case System(_) => "System"
    case User(_, _) => "Human"
    case ToolResult(_, _, _) => "Function"
    case _ => "Assistant"
  }

  function TextContent(item: Item): string {
    match item
    case System(content) => content
    case User(parts, _) => Joined(TextsOf(parts))
    case Assistant(content, _) => content
    case ToolResult(_, content, _) => content
    case BackendToolCall(summary) => summary
    case Reasoning(text) => text
  }

  const TURN := "### Turn "

  function TurnHeader(item: Item, index: nat): string {
    TURN + Decimal(index) + " (" + RoleLabel(item) + ")"
  }

  function CutChars(s: string, max: nat, marker: string): string {
    if |s| <= max then s else s[..max] + marker
  }

  const CUT_MARKER := "... [truncated]"

  /** The two cuts of a turn's text and of its arguments and responses. */
  function CutText(detail: Detail, s: string): string {
    if detail.Balanced? then CutChars(s, 2000, CUT_MARKER) else s
  }

  function CutResponse(detail: Detail, s: string): string {
    if detail.Balanced? then CutChars(s, 500, CUT_MARKER) else s
  }

  function ArgumentLines(args: seq<(string, string)>, detail: Detail): seq<string> {
    if args == [] then []
    else ["- " + args[0].0 + ": " + CutResponse(detail, args[0].1)] + ArgumentLines(args[1..], detail)
  }

  function RequestLines(env: Env, calls: seq<ToolCall>, detail: Detail): seq<string> {
    if calls == [] then []
    else
      ["[tool_request: " + calls[0].name + "]"] + ArgumentLines(env.arguments(calls[0]), detail)
      + RequestLines(env, calls[1..], detail)
  }

  function Unless(empty: bool, s: string): seq<string> {
    if empty then [] else [s]
  }

  /** The lines of a balanced or verbose turn under its header. */
  function TurnLines(env: Env, detail: Detail, item: Item): seq<string> {
    match item
    case Assistant(content, calls) =>
      Unless(content == "", CutText(detail, content)) + RequestLines(env, calls, detail)
    case ToolResult(_, content, _) =>
      ["[tool_response]"] + Unless(content == "", CutResponse(detail, content))
    case _ => Unless(TextContent(item) == "", TextContent(item))
  }

  function Signatures(env: Env, calls: seq<ToolCall>): string
    decreases |calls|
  {
    if calls == [] then "(text only)"
    else
      var first := calls[0].name + "(" + env.keyArgument(calls[0]) + ")";
      if |calls| == 1 then first else first + "  " + Signatures(env, calls[1..])
  }

  function Turn(env: Env, detail: Detail, item: Item, index: nat): string {
    var header := TurnHeader(item, index);
    if detail.Minimal? then
      match item
      case Assistant(_, calls) => header + "  " + Signatures(env, calls) + "\n"
      case ToolResult(_, _, _) => header + "  [tool_response]\n"
      case _ => header + "\n"
    else Joined([header] + TurnLines(env, detail, item)) + "\n"
  }

  function TurnRenderer(env: Env, detail: Detail): Renderer {
    (item: Item, index: nat) => Turn(env, detail, item, index)
  }

  // ----- what a turn shows

  function Kept(detail: Detail, item: Item): string {
    CutFor(detail, if item.Assistant? then 2000 else if item.ToolResult? then 500 else |TextContent(item)|, TextContent(item))
  }

  /** Whole, or at the balanced level the first `max` characters and the marker. */
  function CutFor(detail: Detail, max: nat, s: string): string {
    if detail.Balanced? && max < |s| then s[..max] + CUT_MARKER else s
  }

  /** How many lines the requests before call `i` take: one each and one per argument. */
  function LinesBefore(env: Env, calls: seq<ToolCall>, i: nat): nat
    requires i <= |calls|
  {
    if i == 0 then 0 else LinesBefore(env, calls, i - 1) + 1 + |env.arguments(calls[i - 1])|
  }

  lemma {:induction false} LinesBeforeCons(env: Env, calls: seq<ToolCall>, i: nat)
    requires 0 < i <= |calls|
    ensures LinesBefore(env, calls, i) == 1 + |env.arguments(calls[0])| + LinesBefore(env, calls[1..], i - 1)
    decreases i
  {
    if 1 < i {
      LinesBeforeCons(env, calls, i - 1);
    }
  }

  lemma {:induction false} ArgumentAt(args: seq<(string, string)>, detail: Detail, j: nat)
    ensures |ArgumentLines(args, detail)| == |args|
    ensures j < |args| ==> ArgumentLines(args, detail)[j] == "- " + args[j].0 + ": " + CutFor(detail, 500, args[j].1)
  {
    if args != [] {
      ArgumentAt(args[1..], detail, if 0 < j then j - 1 else 0);
    }
  }

  /** Every call's request line stands in call order, followed by one line per argument
      with its value, cut at the balanced level. */
  lemma {:induction false} RequestAt(env: Env, calls: seq<ToolCall>, detail: Detail, i: nat, j: nat)
    requires i < |calls|
    ensures var at, lines, args := LinesBefore(env, calls, i), RequestLines(env, calls, detail), env.arguments(calls[i]);
            && at + |args| < |lines| && lines[at] == "[tool_request: " + calls[i].name + "]"
            && (j < |args| ==> lines[at + 1 + j] == "- " + args[j].0 + ": " + CutFor(detail, 500, args[j].1))
  {
    ArgumentAt(env.arguments(calls[0]), detail, j);
    if 0 < i {
      RequestAt(env, calls[1..], detail, i - 1, j);
      LinesBeforeCons(env, calls, i);
    }
  }

  lemma {:induction false} RequestCount(env: Env, calls: seq<ToolCall>, detail: Detail)
    ensures |RequestLines(env, calls, detail)| == LinesBefore(env, calls, |calls|)
  {
    if calls != [] {
      ArgumentAt(env.arguments(calls[0]), detail, 0);
      RequestCount(env, calls[1..], detail);
      LinesBeforeCons(env, calls, |calls|);
    }
  }

  lemma JoinHead(first: string, second: string, rest: seq<string>)
    ensures Joined([first, second] + rest) ==
            first + "\n" + second + (if rest == [] then "" else "\n" + Joined(rest))
    decreases |rest|
  {
    var lines := [first, second] + rest;
    if rest == [] {
      assert lines[..1] == [first];
      assert first + "\n" + second + "" == first + "\n" + second;
    } else {
      var n := |rest| - 1;
      JoinHead(first, second, rest[..n]);
      assert lines[..|lines| - 1] == [first, second] + rest[..n];
      JoinTail(first + "\n" + second, rest, n);
    }
  }

  lemma JoinTail(head: string, rest: seq<string>, n: nat)
    requires n + 1 == |rest|
    ensures head + (if rest[..n] == [] then "" else "\n" + Joined(rest[..n])) + "\n" + rest[n] == head + ("\n" + Joined(rest))
  {
    if n == 0 {
      assert rest[..n] == [];
      assert head + "" + "\n" + rest[0] == head + ("\n" + rest[0]);
    } else {
      assert rest[..n] != [];
      Regrouped(head, Joined(rest[..n]), rest[n]);
    }
  }

  lemma Regrouped(head: string, front: string, last: string)
    ensures head + ("\n" + front) + "\n" + last == head + ("\n" + (front + "\n" + last))
  {
  }

  lemma LinesShow(env: Env, detail: Detail, item: Item, rest: seq<string>)
    requires TextContent(item) != ""
    requires rest == if item.Assistant? then RequestLines(env, item.calls, detail) else []
    ensures TurnLines(env, detail, item) ==
            (if item.ToolResult? then ["[tool_response]"] else []) + ([Kept(detail, item)] + rest)
  {
    var kept: seq<string> := [Kept(detail, item)];
    assert [] + (kept + rest) == kept + rest && (rest == [] ==> kept + rest == kept);
  }

  function After(rest: seq<string>): string {
    if rest == [] then "\n" else "\n" + Joined(rest) + "\n"
  }

  lemma ShowsUnderHeader(header: string, kept: string, rest: seq<string>)
    ensures Joined([header] + ([] + ([kept] + rest))) + "\n" == header + "\n" + kept + After(rest)
  {
    assert [header] + ([] + ([kept] + rest)) == [header, kept] + rest;
    JoinHead(header, kept, rest);
    EndLine(header + "\n" + kept, rest);
  }

  lemma EndLine(s: string, rest: seq<string>)
    ensures s + (if rest == [] then "" else "\n" + Joined(rest)) + "\n" == s + After(rest)
  {
    if rest == [] {
      assert s + "" + "\n" == s + "\n";
    } else {
      assert s + ("\n" + Joined(rest)) + "\n" == s + ("\n" + Joined(rest) + "\n");
    }
  }

  lemma ShowsUnderMarker(header: string, marker: string, kept: string)
    ensures Joined([header] + ([marker] + ([kept] + []))) + "\n" == header + "\n" + marker + "\n" + kept + After([])
  {
    assert [header] + ([marker] + ([kept] + [])) == [header, marker] + [kept];
    JoinHead(header, marker, [kept]);
  }

  /** Above the signature level a turn with text opens with its header line and shows
      that text: whole, or at the balanced level an assistant's first 2000 and a tool
      result's first 500 characters. A result's text comes under its marker, an
      assistant's requests after its text. */
  lemma TurnShowsText(env: Env, detail: Detail, item: Item, index: nat, rest: seq<string>)
    requires (detail.Balanced? || detail.Verbose?) && TextContent(item) != ""
    requires rest == if item.Assistant? then RequestLines(env, item.calls, detail) else []
    ensures var header := TURN + Decimal(index) + " (" + RoleLabel(item) + ")";
            Turn(env, detail, item, index) ==
            if item.ToolResult? then header + "\n" + "[tool_response]" + "\n" + Kept(detail, item) + After([])
            else header + "\n" + Kept(detail, item) + After(rest)
  {
    LinesShow(env, detail, item, rest);
    if item.ToolResult? {
      ShowsUnderMarker(TurnHeader(item, index), "[tool_response]", Kept(detail, item));
    } else {
      ShowsUnderHeader(TurnHeader(item, index), Kept(detail, item), rest);
    }
  }

  // ----- the whole document

  const OPENING := "# HISTORICAL -- DO NOT EDIT\n# Record of compaction segment "
  const USAGE := ") from this same task.\n# Use read_file or grep to look up details, but do not modify.\n\n"
  const METADATA := "## Segment metadata\n- Index: "
  const SUMMARY_HEADING := "## Summary (curated by compaction step)\n\n"

  function DetailName(detail: Detail): string {
    match detail
    case NoTurns => "none"
    case Minimal => "minimal"
    case Balanced => "balanced"
    case Verbose => "verbose"
  }

  function TurnsHeader(detail: Detail): string {
    match detail
    case NoTurns => ""
    case Minimal => "## Turn signatures\n\n"
    case Balanced => "## Turns (balanced detail)\n\n"
    case Verbose => "## Verbatim turns\n\n"
  }

  /** What the caller passes in. */
  datatype Request = Request(items: seq<Item>, summary: string, index: nat, detail: Detail, timestamp: string)

  function Header(r: Request): string {
    OPENING + Label(r.index) + " (detail=" + DetailName(r.detail) + USAGE
  }

  function Metadata(r: Request): string {
    METADATA + Label(r.index) + "\n- Turn count: " + Decimal(|r.items|) + "\n- Timestamp: " + r.timestamp + "\n\n"
  }

  function BeforeSummary(env: Env, r: Request): string {
    Header(r) + Metadata(r) + (env.stats(r.items) + "\n") + SUMMARY_HEADING
  }

  function SummaryBody(summary: string): string {
    if Trim(summary) == "" then "(empty)" else Trim(summary)
  }

  function Preamble(env: Env, r: Request): string {
    BeforeSummary(env, r) + SummaryBody(r.summary) + ("\n\n" + TurnsHeader(r.detail))
  }

  method RenderSegmentMd(env: Env, r: Request) returns (doc: string, rendered: nat)
    ensures r.detail.NoTurns? ==> doc == Preamble(env, r)
    ensures !r.detail.NoTurns? ==> IsSegment(Preamble(env, r), r.items, TurnRenderer(env, r.detail), rendered, doc)
  {
    var preamble := Preamble(env, r);
    if r.detail.NoTurns? {
      return preamble, 0;
    }
    var render := TurnRenderer(env, r.detail);
    doc, rendered := RenderSegment(preamble, r.items, render);
  }

  /** The document carries the trimmed summary whole, or says that there is none, right
      under its heading. */
  lemma SummaryStands(env: Env, r: Request)
    ensures AllWhitespace(r.summary) ==> StandsAt(Preamble(env, r), "(empty)", |BeforeSummary(env, r)|)
    ensures !AllWhitespace(r.summary) ==> StandsAt(Preamble(env, r), Trim(r.summary), |BeforeSummary(env, r)|)
    ensures StandsAt(Preamble(env, r), SUMMARY_HEADING, |BeforeSummary(env, r)| - |SUMMARY_HEADING|)
  {
    BlankTrims(r.summary);
    ThreeParts(Header(r) + Metadata(r) + (env.stats(r.items) + "\n"), SUMMARY_HEADING, SummaryBody(r.summary),
               "\n\n" + TurnsHeader(r.detail));
  }

  lemma BlankTrims(s: string)
    ensures Trim(s) == "" <==> AllWhitespace(s)
  {
    var left, right := TrimSpec(s);
    assert Trim(s) != "" ==> s[|left|] == Trim(s)[0];
  }

  lemma ThreeParts(a: string, b: string, c: string, d: string)
    ensures StandsAt(a + b + c + d, b, |a + b| - |b|) && StandsAt(a + b + c + d, c, |a + b|)
  {
  }

  function Signature(env: Env, call: ToolCall): string {
    call.name + "(" + env.keyArgument(call) + ")"
  }

  ghost predicate Stands(s: string, t: string) {
    exists at: nat :: StandsAt(s, t, at)
  }

  lemma StandsWithin(a: string, b: string, c: string, t: string)
    requires Stands(b, t)
    ensures Stands(a + b + c, t)
  {
    var at: nat :| StandsAt(b, t, at);
    assert StandsAt(a + b + c, t, |a| + at);
  }

  lemma StandsItself(t: string)
    ensures Stands(t, t)
  {
    assert StandsAt(t, t, 0);
  }

  lemma {:induction false} SignatureStands(env: Env, calls: seq<ToolCall>, i: nat)
    requires i < |calls|
    ensures Stands(Signatures(env, calls), Signature(env, calls[i]))
    decreases |calls|
  {
    var first := Signature(env, calls[0]);
    StandsItself(first);
    if 1 < |calls| {
      var rest := Signatures(env, calls[1..]);
      if i == 0 {
        StandsWithin("", first, "  " + rest, first);
        assert "" + first + ("  " + rest) == first + "  " + rest;
      } else {
        SignatureStands(env, calls[1..], i - 1);
        StandsWithin(first + "  ", rest, "", Signature(env, calls[i]));
        assert first + "  " + rest + "" == first + "  " + rest;
      }
    }
  }

  lemma CallsStand(env: Env, calls: seq<ToolCall>, i: nat, header: string)
    ensures var line := header + "  " + Signatures(env, calls) + "\n";
            && header <= line && (i < |calls| ==> Stands(line, Signature(env, calls[i])))
            && (calls == [] ==> Stands(line, "(text only)"))
  {
    if calls == [] {
      StandsItself("(text only)");
      StandsWithin(header + "  ", "(text only)", "\n", "(text only)");
    } else if i < |calls| {
      SignatureStands(env, calls, i);
      StandsWithin(header + "  ", Signatures(env, calls), "\n", Signature(env, calls[i]));
    }
  }

  lemma MarkerStands(header: string)
    ensures var line := header + "  [tool_response]\n"; header <= line && Stands(line, "[tool_response]")
  {
    StandsItself("[tool_response]");
    StandsWithin(header + "  ", "[tool_response]", "\n", "[tool_response]");
    assert header + "  " + "[tool_response]" + "\n" == header + "  [tool_response]\n";
  }

  /** At the signature level a turn is one line: its header, then the signature of every
      call of an assistant, or the marker of a tool result. */
  lemma SignatureLine(env: Env, item: Item, index: nat, i: nat)
    ensures var turn := Turn(env, Minimal, item, index);
            && StandsAt(turn, TURN + Decimal(index) + " (" + RoleLabel(item) + ")", 0)
            && (item.Assistant? && i < |item.calls| ==> Stands(turn, Signature(env, item.calls[i])))
            && (item.Assistant? && item.calls == [] ==> Stands(turn, "(text only)"))
            && (item.ToolResult? ==> Stands(turn, "[tool_response]"))
  {
    var header := TurnHeader(item, index);
    if item.Assistant? {
      CallsStand(env, item.calls, i, header);
    } else if item.ToolResult? {
      MarkerStands(header);
    }
    HeaderStands(header, Turn(env, Minimal, item, index));
  }

  lemma HeaderStands(header: string, turn: string)
    requires header <= turn
    ensures StandsAt(turn, header, 0)
  {
  }

  // ----- short enough segments

  ghost predicate PreambleFits(preamble: string) {
    ByteLen(preamble) + NOTICE_BYTES + PER_TURN_OVERHEAD_BYTES <= SEGMENT_MAX_BYTES
  }

  lemma TailFits(k: nat, omitted: nat, tail: string)
    requires k + omitted <= 75 && tail == Tail(omitted)
    ensures Newlines(k) + ByteLen(tail) <= 128
  {
    TailLength(omitted);
    assert Pow10(2) == 10 * Pow10(1);
    DecimalLength(omitted, 2);
    DecimalLength(omitted, 1);
  }

  /** Up to 75 turns the document stays within the cap, whatever renders them. */
  lemma FewTurnsFit(preamble: string, items: seq<Item>, k: nat, render: Renderer, omitted: nat, tail: string)
    requires k + omitted == |items| <= 75 && tail == Tail(omitted)
    requires PreambleFits(preamble) && Used(items, k, render) <= Budget(preamble)
    ensures ByteLen(Document(preamble, items, k, render, tail)) <= SEGMENT_MAX_BYTES
  {
    TailFits(k, omitted, tail);
    ShortTailFits(preamble, items, k, render, tail);
  }

  lemma ShortTailFits(preamble: string, items: seq<Item>, k: nat, render: Renderer, tail: string)
    requires k <= |items| && Newlines(k) + ByteLen(tail) <= 128
    requires PreambleFits(preamble) && Used(items, k, render) <= Budget(preamble)
    ensures ByteLen(Document(preamble, items, k, render, tail)) <= SEGMENT_MAX_BYTES
  {
    DocumentLength(preamble, items, k, render, tail);
  }

  // ----- empty prompts

  /** A prompt with no text. */
  const BLANK := User([], None)

  function Blanks(n: nat): (items: seq<Item>)
    ensures |items| == n
  {
    seq(n, _ => BLANK)
  }

  lemma {:induction false} ByteLenBounds(s: string)
    ensures |s| <= ByteLen(s) <= 4 * |s|
  {
    if s != "" {
      ByteLenBounds(s[..|s| - 1]);
    }
  }

  lemma BlankTurn(env: Env, detail: Detail, index: nat)
    ensures |Turn(env, detail, BLANK, index)| == 18 + |Decimal(index)|
  {
    var header := TurnHeader(BLANK, index);
    assert TurnLines(env, detail, BLANK) == [];
    assert [header] + [] == [header];
    assert Turn(env, detail, BLANK, index) == header + "\n";
  }

  lemma BlankBytes(env: Env, detail: Detail, index: nat)
    requires index <= U64_MAX
    ensures 19 <= ByteLen(TurnRenderer(env, detail)(BLANK, index)) <= 152
  {
    BlankTurn(env, detail, index);
    DecimalIsAscii(index);
    TwentyDigits(index);
    ByteLenBounds(Turn(env, detail, BLANK, index));
  }

  lemma {:induction false} BlanksUse(n: nat, k: nat, render: Renderer)
    requires k <= n && forall i :: 0 <= i < n ==> 19 <= ByteLen(render(BLANK, i)) <= 152
    ensures 19 * k <= Used(Blanks(n), k, render) <= 152 * k
    decreases k
  {
    if k != 0 {
      BlanksUse(n, k - 1, render);
      assert Blanks(n)[k - 1] == BLANK;
    }
  }

  // ----- many short turns

  /** Short turns overflow the cap once some are left out: if the first turn left out
      takes at most `most` bytes, `most + 74` rendered turns are enough. */
  lemma ShortTurnsExceed(preamble: string, items: seq<Item>, k: nat, render: Renderer, most: nat, tail: string)
    requires PreambleFits(preamble) && LongestPrefix(items, k, Budget(preamble), render) && k < |items|
    requires ByteLen(render(items[k], k)) <= most && most + 74 <= k && 55 <= ByteLen(tail)
    ensures SEGMENT_MAX_BYTES < ByteLen(Document(preamble, items, k, render, tail))
  {
    assert Budget(preamble) < Used(items, k + 1, render);
    DocumentLength(preamble, items, k, render, tail);
  }

  lemma NoticeIsLong(omitted: nat, tail: string)
    requires 0 < omitted && tail == Tail(omitted)
    ensures 55 <= ByteLen(tail)
  {
    TailLength(omitted);
    DecimalIsAscii(omitted);
  }

  /** At every detail level, thirty thousand blank prompts overflow the cap. */
  lemma BlankPromptsExceed(env: Env, r: Request, n: nat, k: nat, doc: string)
    requires !r.detail.NoTurns? && r.items == Blanks(n) && 30000 <= n <= U64_MAX
    requires ByteLen(Preamble(env, r)) <= 100_000
    requires IsSegment(Preamble(env, r), r.items, TurnRenderer(env, r.detail), k, doc)
    ensures SEGMENT_MAX_BYTES < ByteLen(doc)
  {
    var render := TurnRenderer(env, r.detail);
    forall i | 0 <= i < n ensures 19 <= ByteLen(render(BLANK, i)) <= 152 {
      BlankBytes(env, r.detail, i);
    }
    BlanksExceed(Preamble(env, r), n, k, render, doc);
  }

  lemma BlanksExceed(preamble: string, n: nat, k: nat, render: Renderer, doc: string)
    requires 30000 <= n && ByteLen(preamble) <= 100_000
    requires forall i :: 0 <= i < n ==> 19 <= ByteLen(render(BLANK, i)) <= 152
    requires IsSegment(preamble, Blanks(n), render, k, doc)
    ensures SEGMENT_MAX_BYTES < ByteLen(doc)
  {
    BlankPromptsOverflow(preamble, n, k, render);
    NoticeIsLong(n - k, Tail(n - k));
    ShortTurnsExceed(preamble, Blanks(n), k, render, 152, Tail(n - k));
  }

  lemma BlankPromptsOverflow(preamble: string, n: nat, k: nat, render: Renderer)
    requires 30000 <= n && ByteLen(preamble) <= 100_000
    requires forall i :: 0 <= i < n ==> 19 <= ByteLen(render(BLANK, i)) <= 152
    requires LongestPrefix(Blanks(n), k, Budget(preamble), render)
    ensures 226 <= k < n && ByteLen(render(Blanks(n)[k], k)) <= 152
  {
    BlanksUse(n, k, render);
    BlanksUse(n, n, render);
    assert k < n;
    BlanksUse(n, k + 1, render);
    assert Budget(preamble) < Used(Blanks(n), k + 1, render);
    assert Blanks(n)[k] == BLANK;
  }

  // ----- the exact number of turns

  lemma HeadLengths(r: Request)
    requires r.index == 0 && r.timestamp == "" && |r.items| <= U64_MAX
    ensures |Header(r)| <= 200 && |Metadata(r)| <= 100
  {
    TwentyDigits(|r.items|);
  }

  lemma HeadBound(env: Env, r: Request)
    requires r.index == 0 && r.timestamp == "" && |r.items| <= U64_MAX && ByteLen(env.stats(r.items)) <= 1000
    ensures ByteLen(BeforeSummary(env, r)) <= 3000
  {
    HeadLengths(r);
    FourPartBound(Header(r), Metadata(r), env.stats(r.items), "\n", SUMMARY_HEADING);
  }

  lemma FourPartBound(a: string, b: string, c: string, d: string, e: string)
    requires |a| <= 200 && |b| <= 100 && ByteLen(c) <= 1000 && |d| == 1 && |e| <= 50
    ensures ByteLen(a + b + (c + d) + e) <= 3000
  {
    ByteLenBounds(a);
    ByteLenBounds(b);
    ByteLenBounds(d);
    ByteLenBounds(e);
    ByteLenConcat(c, d);
    ByteLenConcat(a, b);
    ByteLenConcat(a + b, c + d);
    ByteLenConcat(a + b + (c + d), e);
  }

  lemma TailHeaderBound(detail: Detail)
    ensures ByteLen("\n\n" + TurnsHeader(detail)) <= 200
  {
    ByteLenBounds("\n\n" + TurnsHeader(detail));
  }

  lemma FilledPreamble(before: string, fill: nat, after: string)
    ensures ByteLen(before + Filler(fill) + after) == ByteLen(before) + fill + ByteLen(after)
  {
    FillerLength(fill);
    ByteLenConcat(before, Filler(fill));
    ByteLenConcat(before + Filler(fill), after);
  }

  /** A request whose preamble takes exactly `size` bytes. */
  lemma RequestOfSize(env: Env, detail: Detail, items: seq<Item>, size: nat) returns (r: Request)
    requires |items| <= U64_MAX && ByteLen(env.stats(items)) <= 1000 && 4000 <= size
    ensures r.items == items && r.detail == detail && ByteLen(Preamble(env, r)) == size
  {
    var blank := Request(items, "", 0, detail, "");
    var before, after := BeforeSummary(env, blank), "\n\n" + TurnsHeader(detail);
    HeadBound(env, blank);
    TailHeaderBound(detail);
    var fill: nat := size - ByteLen(before) - ByteLen(after);
    FillerLength(fill);
    FilledPreamble(before, fill, after);
    r := Request(items, Filler(fill), 0, detail, "");
    assert Preamble(env, r) == before + Filler(fill) + after;
  }

  /** Every document for this preamble and these turns stays within the cap. */
  ghost predicate WithinCap(preamble: string, items: seq<Item>, render: Renderer) {
    PreambleFits(preamble) ==>
      forall k: nat, doc :: IsSegment(preamble, items, render, k, doc) ==> ByteLen(doc) <= SEGMENT_MAX_BYTES
  }

  ghost predicate AlwaysWithinCap(env: Env, detail: Detail, n: nat) {
    forall r: Request :: |r.items| == n && r.detail == detail ==>
      WithinCap(Preamble(env, r), r.items, TurnRenderer(env, detail))
  }

  /** 75 turns fill the budget to the byte and at least one is left out. */
  lemma SeventyFiveTurnsExceed(env: Env, detail: Detail, n: nat) returns (r: Request)
    requires 76 <= n <= U64_MAX && ByteLen(env.stats(Blanks(n))) <= 1000
    ensures |r.items| == n && r.detail == detail && !WithinCap(Preamble(env, r), r.items, TurnRenderer(env, detail))
  {
    var render := TurnRenderer(env, detail);
    forall i | 0 <= i < n ensures 19 <= ByteLen(render(BLANK, i)) <= 152 {
      BlankBytes(env, detail, i);
    }
    BlanksUse(n, 75, render);
    r := RequestOfSize(env, detail, Blanks(n), SEGMENT_MAX_BYTES - 128 - Used(Blanks(n), 75, render));
    FullBudgetExceeds(Preamble(env, r), n, render);
  }

  lemma FullBudgetExceeds(preamble: string, n: nat, render: Renderer)
    requires 76 <= n && forall i :: 0 <= i < n ==> 19 <= ByteLen(render(BLANK, i)) <= 152
    requires ByteLen(preamble) + 128 + Used(Blanks(n), 75, render) == SEGMENT_MAX_BYTES
    ensures !WithinCap(preamble, Blanks(n), render)
  {
    var omitted: nat := n - 75;
    var tail := Tail(omitted);
    FullBudgetStops(preamble, n, render);
    NoticeIsLong(omitted, tail);
    LongTailExceeds(preamble, Blanks(n), 75, render, tail);
    OneOverflows(preamble, Blanks(n), render, 75, omitted, tail);
  }

  lemma OneOverflows(preamble: string, items: seq<Item>, render: Renderer, k: nat, omitted: nat, tail: string)
    requires PreambleFits(preamble) && LongestPrefix(items, k, Budget(preamble), render)
    requires k + omitted == |items| && tail == Tail(omitted)
    requires SEGMENT_MAX_BYTES < ByteLen(Document(preamble, items, k, render, tail))
    ensures !WithinCap(preamble, items, render)
  {
    assert IsSegment(preamble, items, render, k, Document(preamble, items, k, render, tail));
  }

  lemma FullBudgetStops(preamble: string, n: nat, render: Renderer)
    requires 76 <= n && forall i :: 0 <= i < n ==> 19 <= ByteLen(render(BLANK, i)) <= 152
    requires ByteLen(preamble) + 128 + Used(Blanks(n), 75, render) == SEGMENT_MAX_BYTES
    ensures LongestPrefix(Blanks(n), 75, Budget(preamble), render)
  {
    assert Blanks(n)[75] == BLANK;
    assert Used(Blanks(n), 76, render) == Used(Blanks(n), 75, render) + ByteLen(render(BLANK, 75));
    StopsAtLongest(Blanks(n), 75, Budget(preamble), render);
  }

  lemma LongTailExceeds(preamble: string, items: seq<Item>, k: nat, render: Renderer, tail: string)
    requires k <= |items| && ByteLen(preamble) + 128 + Used(items, k, render) == SEGMENT_MAX_BYTES
    requires 128 < Newlines(k) + ByteLen(tail)
    ensures SEGMENT_MAX_BYTES < ByteLen(Document(preamble, items, k, render, tail))
  {
    DocumentLength(preamble, items, k, render, tail);
  }

  /** The stated aim, exactly: all documents of `n` turns whose preamble fits stay
      within the cap if and only if there are at most 75 turns. The statistics block
      of blank prompts is short. */
  lemma CapHoldsIff(env: Env, detail: Detail, n: nat)
    requires !detail.NoTurns? && n <= U64_MAX && ByteLen(env.stats(Blanks(n))) <= 1000
    ensures AlwaysWithinCap(env, detail, n) <==> n <= 75
  {
    if n <= 75 {
      forall r: Request | |r.items| == n && r.detail == detail
        ensures WithinCap(Preamble(env, r), r.items, TurnRenderer(env, detail))
      {
        FewTurnsWithinCap(Preamble(env, r), r.items, TurnRenderer(env, detail));
      }
    } else {
      var r := SeventyFiveTurnsExceed(env, detail, n);
    }
  }

  lemma FewTurnsWithinCap(preamble: string, items: seq<Item>, render: Renderer)
    requires |items| <= 75
    ensures WithinCap(preamble, items, render)
  {
    forall k: nat, doc | PreambleFits(preamble) && IsSegment(preamble, items, render, k, doc)
      ensures ByteLen(doc) <= SEGMENT_MAX_BYTES
    {
      FewTurnsFit(preamble, items, k, render, |items| - k, Tail(|items| - k));
    }
  }
}
