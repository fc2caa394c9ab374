/** Shrinking a conversation to a token budget: keep the longest affordable
    tail that does not start with a tool result, or else the truncated last
    turn. The per-item token estimate is an arbitrary cost. */
module Budget {
  import opened Prelude
  import opened Conversation
  import opened Pairing
  import opened Text

  type CostOf = Item -> nat

  function Cost(items: seq<Item>, cost: CostOf): nat {
    if items == [] then 0 else cost(items[0]) + Cost(items[1..], cost)
  }

  lemma {:induction false} CostConcat(a: seq<Item>, b: seq<Item>, cost: CostOf)
    ensures Cost(a + b, cost) == Cost(a, cost) + Cost(b, cost)
  {
    if a == [] {
      assert a + b == b;
    } else {
      assert (a + b)[1..] == a[1..] + b;
      CostConcat(a[1..], b, cost);
    }
  }

  lemma CostOfSuffix(items: seq<Item>, m: nat, n: nat, cost: CostOf)
    requires m <= n <= |items|
    ensures Cost(items[n..], cost) <= Cost(items[m..], cost)
    decreases n - m
  {
    if m < n {
      assert items[m..][1..] == items[m + 1..];
      CostOfSuffix(items, m + 1, n, cost);
    }
  }

  // ----- truncating one text

  const MARKER_RESERVE := 64

  function Marker(dropped: nat): string {
    "\n[... truncated " + Decimal(dropped) + " bytes to fit the compaction window ...]"
  }

  ghost predicate IsCharBoundary(s: string, k: nat) {
    exists n :: 0 <= n <= |s| && ByteLen(s[..n]) == k
  }

  /** Number of leading characters whose bytes fit in `limit`. */
  function FittingChars(s: string, limit: nat): (n: nat)
    ensures n <= |s| && ByteLen(s[..n]) <= limit
    ensures n == |s| || limit < ByteLen(s[..n + 1])
  {
    FittingFrom(s, limit, 0)
  }

  function FittingFrom(s: string, limit: nat, from: nat): (n: nat)
    requires from <= |s| && ByteLen(s[..from]) <= limit
    ensures from <= n <= |s| && ByteLen(s[..n]) <= limit
    ensures n == |s| || limit < ByteLen(s[..n + 1])
    decreases |s| - from
  {
    if from < |s| && ByteLen(s[..from + 1]) <= limit then FittingFrom(s, limit, from + 1) else from
  }

  function Reserved(maxBytes: nat): nat {
    if MARKER_RESERVE <= maxBytes then maxBytes - MARKER_RESERVE else 0
  }

  function Truncated(s: string, maxBytes: nat): Option<string> {
    if ByteLen(s) <= maxBytes then None
    else
      var kept := s[..FittingChars(s, Reserved(maxBytes))];
      Some(kept + Marker(ByteLen(s) - ByteLen(kept)))
  }

  method TruncateTextToBytes(s: string, maxBytes: nat) returns (r: Option<string>)
    ensures r == Truncated(s, maxBytes)
  {
    var len := ByteLen(s);
    if len <= maxBytes {
      return None;
    }
    var chars, end := BoundaryBelow(s, Reserved(maxBytes));
    r := Some(s[..chars] + Marker(len - end));
  }

  /** The source walks `end` down byte by byte to a character boundary; it lands
      on the longest prefix within `keep` bytes. */
  method BoundaryBelow(s: string, keep: nat) returns (chars: nat, end: nat)
    ensures chars == FittingChars(s, keep) && end == ByteLen(s[..chars])
  {
    end := if keep < ByteLen(s) then keep else ByteLen(s);
    ghost var n := FittingChars(s, keep);
    PrefixIsShorter(s, n);
    var at: Option<nat> := BoundaryChars(s, end);
    while 0 < end && at.None?
      invariant ByteLen(s[..n]) <= end <= keep
      invariant at.None? <==> !IsCharBoundary(s, end)
      invariant at.Some? ==> at.value <= |s| && ByteLen(s[..at.value]) == end
    {
      assert ByteLen(s[..n]) != end;
      end := end - 1;
      at := BoundaryChars(s, end);
    }
    assert end == 0 ==> ByteLen(s[..n]) == 0;
    assert at.Some?;
    chars := at.value;
    PrefixByLength(s, chars, n, keep);
  }

  lemma PrefixIsShorter(s: string, n: nat)
    requires n <= |s|
    ensures ByteLen(s[..n]) <= ByteLen(s)
  {
    assert s[..|s|] == s;
    if n < |s| {
      ByteLenMonotone(s, n, |s|);
    }
  }

  /** Where byte offset `k` falls in `s`, if it is a character boundary. */
  method BoundaryChars(s: string, k: nat) returns (r: Option<nat>)
    ensures r.None? <==> !IsCharBoundary(s, k)
    ensures r.Some? ==> r.value <= |s| && ByteLen(s[..r.value]) == k
  {
    for n := 0 to |s| + 1
      invariant forall m :: 0 <= m < n ==> ByteLen(s[..m]) != k
    {
      if ByteLen(s[..n]) == k {
        return Some(n);
      }
    }
    r := None;
  }

  lemma PrefixByLength(s: string, m: nat, n: nat, limit: nat)
    requires m <= |s| && n <= |s|
    requires ByteLen(s[..n]) <= ByteLen(s[..m]) <= limit
    requires n == |s| || limit < ByteLen(s[..n + 1])
    ensures m == n
  {
    if m < n {
      ByteLenMonotone(s, m, n);
    } else if n + 1 < m {
      ByteLenMonotone(s, n + 1, m);
    }
  }

  lemma MarkerLength(dropped: nat)
    ensures ByteLen(Marker(dropped)) == 56 + |Decimal(dropped)|
  {
    var head, tail := "\n[... truncated ", " bytes to fit the compaction window ...]";
    DecimalIsAscii(dropped);
    AsciiByteLen(head);
    AsciiByteLen(tail);
    ByteLenConcat(head, Decimal(dropped));
    ByteLenConcat(head + Decimal(dropped), tail);
  }

  /** The documented bound "within `max_bytes`" holds exactly when the number of
      dropped bytes has few enough digits for the room left. */
  lemma TruncationFitsIff(s: string, maxBytes: nat)
    requires maxBytes < ByteLen(s)
    ensures
      var kept := ByteLen(s[..FittingChars(s, Reserved(maxBytes))]);
      ByteLen(Truncated(s, maxBytes).value) <= maxBytes <==>
      57 <= maxBytes - kept && ByteLen(s) - kept < Pow10(maxBytes - kept - 56)
  {
    var n := FittingChars(s, Reserved(maxBytes));
    PrefixIsShorter(s, n);
    CutLength(s[..n], ByteLen(s) - ByteLen(s[..n]));
    RoomIff(maxBytes, ByteLen(s[..n]), ByteLen(s) - ByteLen(s[..n]));
  }

  lemma CutLength(prefix: string, dropped: nat)
    ensures ByteLen(prefix + Marker(dropped)) == ByteLen(prefix) + 56 + |Decimal(dropped)|
  {
    ByteLenConcat(prefix, Marker(dropped));
    MarkerLength(dropped);
  }

  lemma RoomIff(maxBytes: nat, kept: nat, dropped: nat)
    ensures kept + 56 + |Decimal(dropped)| <= maxBytes <==>
            57 <= maxBytes - kept && dropped < Pow10(maxBytes - kept - 56)
  {
    DecimalIsAscii(dropped);
    if 57 <= maxBytes - kept {
      DecimalLength(dropped, maxBytes - kept - 56);
    }
  }

  /** So every text below a hundred million bytes is cut to size once the
      reserve fits, and a budget under 57 bytes is always exceeded. */
  lemma TruncationInPractice(s: string, maxBytes: nat)
    requires maxBytes < ByteLen(s)
    ensures 64 <= maxBytes && ByteLen(s) < 100_000_000 ==> ByteLen(Truncated(s, maxBytes).value) <= maxBytes
    ensures maxBytes < 57 ==> maxBytes < ByteLen(Truncated(s, maxBytes).value)
  {
    TruncationFitsIff(s, maxBytes);
    var kept := ByteLen(s[..FittingChars(s, Reserved(maxBytes))]);
    EightDigits();
    if 64 <= maxBytes {
      PowMonotone(8, maxBytes - kept - 56);
    }
  }

  /** In the caller's terms, below the reserve: the text is dropped whole, and the bound
      holds exactly when its length has at most as many digits as there is room for. */
  lemma SmallLimitFitsIff(s: string, maxBytes: nat)
    requires maxBytes < ByteLen(s) && maxBytes < MARKER_RESERVE
    ensures ByteLen(Truncated(s, maxBytes).value) <= maxBytes <==> 57 <= maxBytes && ByteLen(s) < Pow10(maxBytes - 56)
  {
    TruncationFitsIff(s, maxBytes);
  }

  /** And from the reserve on: all texts of a length are cut to size exactly when what
      exceeds the kept part is under a hundred million bytes. */
  lemma LargeLimitFitsIff(length: nat, maxBytes: nat)
    requires MARKER_RESERVE <= maxBytes < length
    ensures (forall s :: ByteLen(s) == length ==> ByteLen(Shortened(s, maxBytes)) <= maxBytes) <==>
            length - (maxBytes - MARKER_RESERVE) < 100_000_000
  {
    EightDigits();
    if length - (maxBytes - MARKER_RESERVE) < 100_000_000 {
      forall s | ByteLen(s) == length ensures ByteLen(Shortened(s, maxBytes)) <= maxBytes {
        FewDropped(s, maxBytes);
      }
    } else {
      FillerLength(length);
      FillerIsTooLong(length, maxBytes);
    }
  }

  lemma EightDigits()
    ensures Pow10(8) == 100_000_000
  {
    assert Pow10(4) == 10_000;
    assert Pow10(6) == 1_000_000;
  }

  lemma {:induction false} PowPositive(k: nat)
    ensures 1 <= Pow10(k)
  {
    if k != 0 {
      PowPositive(k - 1);
    }
  }

  lemma {:induction false} PowPlus(a: nat, r: nat)
    ensures Pow10(a) + r <= Pow10(a + r)
    decreases r
  {
    PowPositive(a + r);
    if r != 0 {
      PowPlus(a, r - 1);
      PowPositive(a + r - 1);
    }
  }

  lemma FewDropped(s: string, maxBytes: nat)
    requires MARKER_RESERVE <= maxBytes < ByteLen(s) && ByteLen(s) - (maxBytes - MARKER_RESERVE) < Pow10(8)
    ensures ByteLen(Shortened(s, maxBytes)) <= maxBytes
  {
    TruncationFitsIff(s, maxBytes);
    RoomToSpare(ByteLen(s), maxBytes, ByteLen(s[..FittingChars(s, Reserved(maxBytes))]));
  }

  lemma RoomToSpare(length: nat, maxBytes: nat, kept: nat)
    requires kept + MARKER_RESERVE <= maxBytes < length && length - (maxBytes - MARKER_RESERVE) < Pow10(8)
    ensures 57 <= maxBytes - kept && length - kept < Pow10(maxBytes - kept - 56)
  {
    PowPlus(8, maxBytes - MARKER_RESERVE - kept);
  }

  lemma FillerIsTooLong(length: nat, maxBytes: nat)
    requires MARKER_RESERVE <= maxBytes < length == ByteLen(Filler(length))
    requires Pow10(8) <= length - (maxBytes - MARKER_RESERVE)
    ensures maxBytes < ByteLen(Shortened(Filler(length), maxBytes))
  {
    FillerFits(length, maxBytes - MARKER_RESERVE);
    TooLong(Filler(length), length, maxBytes);
  }

  lemma TooLong(s: string, length: nat, maxBytes: nat)
    requires MARKER_RESERVE <= maxBytes < length == ByteLen(s)
    requires ByteLen(s[..FittingChars(s, maxBytes - MARKER_RESERVE)]) == maxBytes - MARKER_RESERVE
    requires Pow10(8) <= length - (maxBytes - MARKER_RESERVE)
    ensures maxBytes < ByteLen(Shortened(s, maxBytes))
  {
    TruncationFitsIff(s, maxBytes);
  }

  lemma FillerFits(length: nat, limit: nat)
    requires limit <= length
    ensures FittingChars(Filler(length), limit) == limit && ByteLen(Filler(length)[..limit]) == limit
  {
    var s := Filler(length);
    var n := FittingChars(s, limit);
    AsciiByteLen(s[..n]);
    AsciiByteLen(s[..limit]);
    if n < |s| {
      AsciiByteLen(s[..n + 1]);
    }
  }

  lemma {:induction false} PowMonotone(a: nat, b: nat)
    requires a <= b
    ensures Pow10(a) <= Pow10(b)
    decreases b
  {
    if a < b {
      PowMonotone(a, b - 1);
      PowAtLeastTen(b);
    }
  }

  // ----- truncating one item

  function Shortened(s: string, maxBytes: nat): string {
    match Truncated(s, maxBytes)
    case Some(t) => t
    case None => s
  }

  function TruncatedParts(parts: seq<ContentPart>, maxBytes: nat): (out: seq<ContentPart>)
    ensures |out| == |parts|
  {
    if parts == [] then []
    else
      [if parts[0].Text? then ContentPart.Text(Shortened(parts[0].text, maxBytes)) else parts[0]]
      + TruncatedParts(parts[1..], maxBytes)
  }

  function TruncatedItem(item: Item, maxTokens: nat): Item {
    ShortenedItem(item, maxTokens * 4)
  }

  function ShortenedItem(item: Item, maxBytes: nat): Item {
    match item
    case ToolResult(id, content, images) => ToolResult(id, Shortened(content, maxBytes), images)
    case Assistant(content, calls) => Assistant(Shortened(content, maxBytes), calls)
    case User(parts, synthetic) => User(TruncatedParts(parts, maxBytes), synthetic)
    case other => other
  }

  /** The text itself, or a prefix of it and the marker with the bytes dropped. */
  ghost predicate TextFrom(cut: string, text: string) {
    cut == text || exists k: nat :: CutAt(cut, text, k)
  }

  ghost predicate CutAt(cut: string, text: string, k: nat) {
    k <= |text| && ByteLen(text[..k]) < ByteLen(text) && cut == text[..k] + Marker(ByteLen(text) - ByteLen(text[..k]))
  }

  ghost predicate PartFrom(cut: ContentPart, part: ContentPart) {
    if part.Text? then cut.Text? && TextFrom(cut.text, part.text) else cut == part
  }

  /** The same item, with each text whole or cut: kind, call ids, result id and images
      are kept. */
  ghost predicate ItemFrom(cut: Item, item: Item) {
    match item
    case ToolResult(id, content, images) =>
      cut.ToolResult? && cut.callId == id && cut.images == images && TextFrom(cut.content, content)
    case Assistant(content, calls) =>
      cut.Assistant? && cut.calls == calls && TextFrom(cut.content, content)
    case User(parts, synthetic) =>
      && cut.User? && cut.synthetic == synthetic && |cut.parts| == |parts|
      && forall i :: 0 <= i < |parts| ==> PartFrom(cut.parts[i], parts[i])
    case other => cut == other
  }

  lemma ShortenedFrom(s: string, maxBytes: nat)
    ensures TextFrom(Shortened(s, maxBytes), s)
  {
    if maxBytes < ByteLen(s) {
      var k := FittingChars(s, Reserved(maxBytes));
      assert s[..|s|] == s;
      assert CutAt(Shortened(s, maxBytes), s, k);
    }
  }

  lemma {:induction false} TruncatedPartsFrom(parts: seq<ContentPart>, maxBytes: nat)
    ensures forall i :: 0 <= i < |parts| ==> PartFrom(TruncatedParts(parts, maxBytes)[i], parts[i])
  {
    if parts != [] {
      TruncatedPartsFrom(parts[1..], maxBytes);
      if parts[0].Text? {
        ShortenedFrom(parts[0].text, maxBytes);
      }
    }
  }

  /** Truncation cuts texts and nothing else. */
  lemma TruncatedItemFrom(item: Item, maxTokens: nat)
    ensures ItemFrom(TruncatedItem(item, maxTokens), item)
  {
    match item
    case ToolResult(_, content, _) => ShortenedFrom(content, maxTokens * 4);
    case Assistant(content, _) => ShortenedFrom(content, maxTokens * 4);
    case User(parts, _) => TruncatedPartsFrom(parts, maxTokens * 4);
    case _ =>
  }

  ghost predicate SameTurns(a: seq<Item>, b: seq<Item>) {
    |a| == |b| && forall i :: 0 <= i < |a| ==> ItemFrom(a[i], b[i])
  }

  function TruncatedItems(items: seq<Item>, maxTokens: nat): (out: seq<Item>)
    ensures |out| == |items|
  {
    if items == [] then [] else [TruncatedItem(items[0], maxTokens)] + TruncatedItems(items[1..], maxTokens)
  }

  // ----- the last turn: trailing results with their owner, or one item

  /** Where the run of results ending just before `end` starts. */
  function RunStart(items: seq<Item>, end: nat): (i: nat)
    requires end <= |items|
    ensures i <= end
    ensures forall k :: i <= k < end ==> items[k].ToolResult?
    ensures 0 < i ==> !items[i - 1].ToolResult?
  {
    if end == 0 || !items[end - 1].ToolResult? then end else RunStart(items, end - 1)
  }

  /** Where the last turn starts: at the assistant calling for the trailing
      results, at those results if nobody does, or else at the last item. */
  function LastTurnStart(items: seq<Item>): (s: nat)
    ensures s <= RunStart(items, |items|) <= |items|
  {
    var i := RunStart(items, |items|);
    if items == [] then 0
    else if i == |items| then |items| - 1
    else if 0 < i && Calls(items[i - 1]) != [] then i - 1
    else i
  }

  function Share(owner: seq<Item>, results: nat, budget: nat, cost: CostOf): nat
    requires results != 0
  {
    var share := Left(budget, Cost(owner, cost)) / results;
    if share < 1 then 1 else share
  }

  function RecoveredTail(body: seq<Item>, budget: nat, cost: CostOf): seq<Item> {
    TailWith(body, budget, TailShare(body, budget, cost))
  }

  /** What each trailing result may keep. */
  function TailShare(body: seq<Item>, budget: nat, cost: CostOf): nat {
    var s, i := LastTurnStart(body), RunStart(body, |body|);
    if i == |body| then 0 else Share(body[s..i], |body| - i, budget, cost)
  }

  /** The last turn, its results cut to `share` tokens each. */
  function TailWith(body: seq<Item>, budget: nat, share: nat): seq<Item> {
    var s, i := LastTurnStart(body), RunStart(body, |body|);
    if body == [] then []
    else if i == |body| then [TruncatedItem(body[|body| - 1], budget)]
    else CutResults(body, s, i, share)
  }

  function CutResults(body: seq<Item>, s: nat, i: nat, share: nat): seq<Item>
    requires s <= i <= |body|
  {
    body[s..i] + TruncatedItems(body[i..], share)
  }

  lemma {:induction false} TruncatedItemsFrom(items: seq<Item>, maxTokens: nat)
    ensures SameTurns(TruncatedItems(items, maxTokens), items)
  {
    if items != [] {
      TruncatedItemsFrom(items[1..], maxTokens);
      TruncatedItemFrom(items[0], maxTokens);
    }
  }

  lemma RecoveredKeepsTurns(body: seq<Item>, budget: nat, cost: CostOf)
    ensures SameTurns(RecoveredTail(body, budget, cost), body[LastTurnStart(body)..])
  {
    TailKeepsTurns(body, budget, TailShare(body, budget, cost));
  }

  lemma TailKeepsTurns(body: seq<Item>, budget: nat, share: nat)
    ensures SameTurns(TailWith(body, budget, share), body[LastTurnStart(body)..])
  {
    var s, i := LastTurnStart(body), RunStart(body, |body|);
    if body != [] && i == |body| {
      TruncatedItemFrom(body[|body| - 1], budget);
    } else if body != [] {
      TruncatedItemsFrom(body[i..], share);
      SameTurnsAfter(body[s..i], TruncatedItems(body[i..], share), body[i..]);
      SliceTwo(body, s, i);
      TailOfResults(body, i, budget, s, share);
    }
  }

  lemma SameTurnsAfter(owner: seq<Item>, a: seq<Item>, b: seq<Item>)
    requires SameTurns(a, b)
    ensures SameTurns(owner + a, owner + b)
  {
  }

  // ----- how much of the last turn is kept

  /** A text of at most `limit` bytes whole, a longer one as its longest prefix within
      `limit` less the reserve, and the marker with the number of bytes dropped. */
  ghost predicate TextCut(cut: string, text: string, limit: nat) {
    if ByteLen(text) <= limit then cut == text
    else exists k: nat :: LongestCut(cut, text, limit, k)
  }

  ghost predicate LongestCut(cut: string, text: string, limit: nat, k: nat) {
    && k <= |text| && ByteLen(text[..k]) <= Reserved(limit) && ByteLen(text[..k]) < ByteLen(text)
    && (forall j: nat :: k < j <= |text| ==> Reserved(limit) < ByteLen(text[..j]))
    && cut == text[..k] + Marker(ByteLen(text) - ByteLen(text[..k]))
  }

  ghost predicate PartCut(cut: ContentPart, part: ContentPart, limit: nat) {
    if part.Text? then cut.Text? && TextCut(cut.text, part.text, limit) else cut == part
  }

  /** The same item with each text cut to `tokens` of four bytes. */
  ghost predicate ItemCut(cut: Item, item: Item, tokens: nat) {
    ItemCutTo(cut, item, 4 * tokens)
  }

  ghost predicate ItemCutTo(cut: Item, item: Item, limit: nat) {
    match item
    case ToolResult(id, content, images) =>
      cut.ToolResult? && cut.callId == id && cut.images == images && TextCut(cut.content, content, limit)
    case Assistant(content, calls) =>
      cut.Assistant? && cut.calls == calls && TextCut(cut.content, content, limit)
    case User(parts, synthetic) =>
      && cut.User? && cut.synthetic == synthetic && |cut.parts| == |parts|
      && forall i :: 0 <= i < |parts| ==> PartCut(cut.parts[i], parts[i], limit)
    case other => cut == other
  }

  /** The largest number of tokens that `n` results can each have out of `left`, or one
      when there is not enough for that. */
  ghost predicate FairShare(n: nat, left: nat, p: nat) {
    if n <= left then n * p <= left < n * (p + 1) else p == 1
  }

  /** The results at the end of `body` start at `i`. */
  ghost predicate TrailingAt(body: seq<Item>, i: nat) {
    && i <= |body| && (forall k :: i <= k < |body| ==> body[k].ToolResult?)
    && (0 < i ==> !body[i - 1].ToolResult?)
  }

  ghost predicate SharedOut(body: seq<Item>, s: nat, i: nat, unit: seq<Item>, p: nat)
    requires s <= i <= |body|
  {
    && |unit| == |body| - s && unit[..i - s] == body[s..i]
    && forall k :: i <= k < |body| ==> ItemCut(unit[k - s], body[k], p)
  }

  /** The last turn as it is recovered: one item cut to the budget; or the trailing
      results, each cut to a fair share of what their owner leaves of the budget, after
      that owner, whole, if they have one. */
  ghost predicate Recovers(body: seq<Item>, i: nat, budget: nat, cost: CostOf, unit: seq<Item>)
    requires TrailingAt(body, i)
  {
    if body == [] then unit == []
    else if i == |body| then |unit| == 1 && ItemCut(unit[0], body[i - 1], budget)
    else
      var s := if 0 < i && Calls(body[i - 1]) != [] then i - 1 else i;
      SharesFairly(body, s, i, unit, Left(budget, Cost(body[s..i], cost)))
  }

  function Left(budget: nat, spent: nat): nat {
    if spent <= budget then budget - spent else 0
  }

  ghost predicate SharesFairly(body: seq<Item>, s: nat, i: nat, unit: seq<Item>, left: nat)
    requires s <= i <= |body|
  {
    exists p: nat :: FairShare(|body| - i, left, p) && SharedOut(body, s, i, unit, p)
  }

  lemma ShortenedCut(s: string, limit: nat)
    ensures TextCut(Shortened(s, limit), s, limit)
  {
    if limit < ByteLen(s) {
      var k := FittingChars(s, Reserved(limit));
      assert s[..|s|] == s;
      forall j: nat | k < j <= |s| ensures Reserved(limit) < ByteLen(s[..j]) {
        if k + 1 < j {
          ByteLenMonotone(s, k + 1, j);
        }
      }
      assert LongestCut(Shortened(s, limit), s, limit, k);
    }
  }

  lemma {:induction false} TruncatedPartsCut(parts: seq<ContentPart>, limit: nat)
    ensures forall i :: 0 <= i < |parts| ==> PartCut(TruncatedParts(parts, limit)[i], parts[i], limit)
  {
    if parts != [] {
      TruncatedPartsCut(parts[1..], limit);
      if parts[0].Text? {
        ShortenedCut(parts[0].text, limit);
      }
    }
  }

  lemma TruncatedItemCut(item: Item, tokens: nat)
    ensures ItemCut(TruncatedItem(item, tokens), item, tokens)
  {
    ShortenedItemCut(item, 4 * tokens);
  }

  lemma ShortenedItemCut(item: Item, limit: nat)
    ensures ItemCutTo(ShortenedItem(item, limit), item, limit)
  {
    match item
    case ToolResult(_, content, _) => ShortenedCut(content, limit);
    case Assistant(content, _) => ShortenedCut(content, limit);
    case User(parts, _) => TruncatedPartsCut(parts, limit);
    case _ =>
  }

  lemma {:induction false} TruncatedItemsCut(items: seq<Item>, tokens: nat)
    ensures forall k :: 0 <= k < |items| ==> ItemCut(TruncatedItems(items, tokens)[k], items[k], tokens)
  {
    if items != [] {
      TruncatedItemsCut(items[1..], tokens);
      TruncatedItemCut(items[0], tokens);
    }
  }

  lemma TailShareIsFair(body: seq<Item>, s: nat, i: nat, budget: nat, cost: CostOf)
    requires s == LastTurnStart(body) && i == RunStart(body, |body|) < |body|
    ensures FairShare(|body| - i, Left(budget, Cost(body[s..i], cost)), TailShare(body, budget, cost))
  {
    ShareIsFair(|body| - i, Left(budget, Cost(body[s..i], cost)));
  }

  lemma ShareIsFair(n: nat, left: nat)
    requires 0 < n
    ensures FairShare(n, left, if left / n < 1 then 1 else left / n)
  {
    var p := left / n;
    assert left == n * p + left % n;
    assert n * (p + 1) == n * p + n;
    if n <= left {
      assert p != 0;
    } else {
      Quotient(n, left, p);
    }
  }

  lemma Quotient(n: nat, left: nat, p: nat)
    requires 0 < n && left < n && n * p <= left
    ensures p == 0
  {
    assert 0 < p ==> n <= n * p;
  }

  lemma SharedOutBy(body: seq<Item>, s: nat, i: nat, p: nat)
    requires s <= i <= |body|
    ensures SharedOut(body, s, i, CutResults(body, s, i, p), p)
  {
    var cut := TruncatedItems(body[i..], p);
    var unit := body[s..i] + cut;
    TruncatedItemsCut(body[i..], p);
    forall k | i <= k < |body| ensures ItemCut(unit[k - s], body[k], p) {
      assert unit[k - s] == cut[k - i] && body[i..][k - i] == body[k];
    }
  }

  lemma ResultsRecovered(body: seq<Item>, i: nat, budget: nat, cost: CostOf, s: nat, p: nat)
    requires TrailingAt(body, i) && i < |body| && s == if 0 < i && Calls(body[i - 1]) != [] then i - 1 else i
    requires FairShare(|body| - i, Left(budget, Cost(body[s..i], cost)), p)
    ensures Recovers(body, i, budget, cost, CutResults(body, s, i, p))
  {
    SharedOutBy(body, s, i, p);
  }

  lemma ItemRecovered(body: seq<Item>, budget: nat, cost: CostOf)
    requires body != [] && TrailingAt(body, |body|)
    ensures Recovers(body, |body|, budget, cost, [TruncatedItem(body[|body| - 1], budget)])
  {
    TruncatedItemCut(body[|body| - 1], budget);
  }

  lemma RunStartTrails(body: seq<Item>)
    ensures TrailingAt(body, RunStart(body, |body|))
  {
  }

  /** The recovered turn is of the stated size. */
  lemma RecoveredRecovers(body: seq<Item>, i: nat, budget: nat, cost: CostOf)
    requires i == RunStart(body, |body|) && TrailingAt(body, i)
    ensures Recovers(body, i, budget, cost, RecoveredTail(body, budget, cost))
  {
    if body == [] {
    } else if i == |body| {
      ItemRecovered(body, budget, cost);
    } else {
      RunRecovered(body, i, budget, cost);
    }
  }

  lemma RunRecovered(body: seq<Item>, i: nat, budget: nat, cost: CostOf)
    requires i == RunStart(body, |body|) < |body| && TrailingAt(body, i)
    ensures Recovers(body, i, budget, cost, RecoveredTail(body, budget, cost))
  {
    var s := if 0 < i && Calls(body[i - 1]) != [] then i - 1 else i;
    var p := TailShare(body, budget, cost);
    TailShareIsFair(body, s, i, budget, cost);
    TailOfResults(body, i, budget, s, p);
    ResultsRecovered(body, i, budget, cost, s, p);
  }

  lemma TailOfResults(body: seq<Item>, i: nat, budget: nat, s: nat, p: nat)
    requires i == RunStart(body, |body|) < |body| && s == LastTurnStart(body)
    ensures TailWith(body, budget, p) == CutResults(body, s, i, p)
  {
  }

  /** Pop trailing results; what is popped comes out in its original order. */
  method PopResults(body: seq<Item>) returns (left: nat, results: seq<Item>)
    ensures left == RunStart(body, |body|) && results == body[left..]
  {
    left, results := |body|, [];
    while 0 < left && body[left - 1].ToolResult?
      invariant left <= |body| && results == body[left..]
      invariant RunStart(body, left) == RunStart(body, |body|)
    {
      left := left - 1;
      results := [body[left]] + results;
    }
  }

  ghost predicate RecoversLastTurn(body: seq<Item>, budget: nat, cost: CostOf, unit: seq<Item>) {
    exists i: nat :: TrailingAt(body, i) && Recovers(body, i, budget, cost, unit)
  }

  lemma TailRecoversLastTurn(body: seq<Item>, budget: nat, cost: CostOf)
    ensures RecoversLastTurn(body, budget, cost, RecoveredTail(body, budget, cost))
  {
    var i := RunStart(body, |body|);
    RunStartTrails(body);
    RecoveredRecovers(body, i, budget, cost);
  }

  /** Keep the last turn, its owner whole and its results cut to a fair share. */
  method RecoverTruncatedTailUnit(body: seq<Item>, budget: nat, cost: CostOf) returns (unit: seq<Item>)
    ensures unit == RecoveredTail(body, budget, cost)
    ensures RecoversLastTurn(body, budget, cost, unit)
  {
    unit := LastTurnCut(body, budget, cost);
    TailRecoversLastTurn(body, budget, cost);
  }

  method LastTurnCut(body: seq<Item>, budget: nat, cost: CostOf) returns (unit: seq<Item>)
    ensures unit == RecoveredTail(body, budget, cost)
  {
    var left, results := PopResults(body);
    if results == [] {
      if left == 0 {
        return [];
      }
      return [TruncatedItem(body[left - 1], budget)];
    }
    var owner: seq<Item> := [];
    if 0 < left && body[left - 1].Assistant? && body[left - 1].calls != [] {
      owner := [body[left - 1]];
    }
    assert body[LastTurnStart(body)..left] == owner;
    var share := Share(owner, |results|, budget, cost);
    ShareOfOwner(body, left, owner, budget, cost);
    unit := owner + TruncatedItems(results, share);
    TailOfResults(body, left, budget, LastTurnStart(body), share);
  }

  lemma ShareOfOwner(body: seq<Item>, i: nat, owner: seq<Item>, budget: nat, cost: CostOf)
    requires i == RunStart(body, |body|) < |body| && owner == body[LastTurnStart(body)..i]
    ensures Share(owner, |body| - i, budget, cost) == TailShare(body, budget, cost)
  {
  }

  // ----- fitting

  function LeadingSystem(items: seq<Item>): (n: nat)
    ensures n <= |items|
  {
    if items != [] && items[0].System? then 1 else 0
  }

  /** What is left of the budget after the System item. */
  function Allowance(head: seq<Item>, maxTokens: nat, cost: CostOf): nat {
    if Cost(head, cost) <= maxTokens then maxTokens - Cost(head, cost) else 0
  }

  /** A tail the budget pays for and that does not open on a tool result. */
  ghost predicate Affordable(body: seq<Item>, budget: nat, cost: CostOf, t: nat) {
    t < |body| && !body[t].ToolResult? && Cost(body[t..], cost) <= budget
  }

  ghost predicate LongestAffordable(body: seq<Item>, budget: nat, cost: CostOf, t: nat) {
    Affordable(body, budget, cost, t) && forall u: nat :: Affordable(body, budget, cost, u) ==> t <= u
  }

  ghost predicate NothingAffordable(body: seq<Item>, budget: nat, cost: CostOf) {
    forall t: nat :: !Affordable(body, budget, cost, t)
  }

  /** How the body of an oversized conversation is cut. */
  ghost predicate CutBody(body: seq<Item>, budget: nat, cost: CostOf, kept: seq<Item>) {
    if NothingAffordable(body, budget, cost) then kept == RecoveredTail(body, budget, cost)
    else exists t: nat :: LongestAffordable(body, budget, cost, t) && kept == body[t..]
  }

  /** The specification of the whole function. */
  ghost predicate Fitted(items: seq<Item>, maxTokens: nat, cost: CostOf, out: seq<Item>) {
    var n := LeadingSystem(items);
    var head, body := items[..n], items[n..];
    if Cost(items, cost) <= maxTokens then out == items
    else n <= |out| && out[..n] == head && CutBody(body, Allowance(head, maxTokens, cost), cost, out[n..])
  }

  method FitConversationToBudget(items: seq<Item>, maxTokens: nat, cost: CostOf) returns (out: seq<Item>)
    ensures Fitted(items, maxTokens, cost, out)
  {
    var total := TotalCost(items, cost);
    if total <= maxTokens {
      return items;
    }
    var split := LeadingSystem(items);
    var head, body := items[..split], items[split..];
    var kept := FitBody(body, Allowance(head, maxTokens, cost), cost);
    out := head + kept;
    assert out[..split] == head && out[split..] == kept;
  }

  method TotalCost(items: seq<Item>, cost: CostOf) returns (total: nat)
    ensures total == Cost(items, cost)
  {
    total := 0;
    for n := 0 to |items|
      invariant total + Cost(items[n..], cost) == Cost(items, cost)
    {
      assert items[n..][1..] == items[n + 1..];
      total := total + cost(items[n]);
    }
  }

  method FitBody(body: seq<Item>, budget: nat, cost: CostOf) returns (kept: seq<Item>)
    ensures CutBody(body, budget, cost, kept)
  {
    var start := AffordableStart(body, budget, cost);
    ghost var cut := start;
    while start < |body| && body[start].ToolResult?
      invariant cut <= start <= |body|
      invariant forall i :: cut <= i < start ==> body[i].ToolResult?
    {
      start := start + 1;
    }
    NoneBefore(body, budget, cost, cut, start);
    if start < |body| {
      CostOfSuffix(body, cut, start, cost);
      assert LongestAffordable(body, budget, cost, start);
      kept := body[start..];
    } else {
      kept := RecoverTruncatedTailUnit(body, budget, cost);
    }
  }

  lemma NoneBefore(body: seq<Item>, budget: nat, cost: CostOf, cut: nat, start: nat)
    requires cut <= start <= |body|
    requires 0 < cut ==> budget < Cost(body[cut - 1..], cost)
    requires forall i :: cut <= i < start ==> body[i].ToolResult?
    ensures forall t: nat :: Affordable(body, budget, cost, t) ==> start <= t
  {
    forall t: nat | t < cut ensures !Affordable(body, budget, cost, t) {
      CostOfSuffix(body, t, cut - 1, cost);
    }
  }

  /** Walking back while the next item is affordable finds the longest
      affordable tail. */
  method AffordableStart(body: seq<Item>, budget: nat, cost: CostOf) returns (start: nat)
    ensures start <= |body| && Cost(body[start..], cost) <= budget
    ensures 0 < start ==> budget < Cost(body[start - 1..], cost)
  {
    var remaining: nat := budget;
    start := |body|;
    while 0 < start
      invariant 0 <= start <= |body|
      invariant Cost(body[start..], cost) + remaining == budget
    {
      assert body[start - 1..][1..] == body[start..];
      assert Cost(body[start - 1..], cost) == cost(body[start - 1]) + Cost(body[start..], cost);
      if cost(body[start - 1]) > remaining {
        break;
      }
      remaining := remaining - cost(body[start - 1]);
      start := start - 1;
    }
  }

  // ----- what fitting keeps

  /** Fitting never breaks the contiguous-run rule. */
  lemma FitKeepsContiguousRuns(items: seq<Item>, maxTokens: nat, cost: CostOf, out: seq<Item>)
    requires Fitted(items, maxTokens, cost, out) && ContiguousRuns(items)
    ensures ContiguousRuns(out)
  {
    if maxTokens < Cost(items, cost) {
      var n := LeadingSystem(items);
      RuleHasNoOrphanStart(items, n);
      assert items == items[..n] + items[n..] && out == items[..n] + out[n..];
      SplitKeepsContiguousRuns(items[..n], items[n..], Allowance(items[..n], maxTokens, cost), cost, out[n..]);
    }
  }

  lemma SplitKeepsContiguousRuns(head: seq<Item>, body: seq<Item>, budget: nat, cost: CostOf, kept: seq<Item>)
    requires ContiguousRuns(head + body) && StartsRunFree(body) && CutBody(body, budget, cost, kept)
    ensures ContiguousRuns(head + kept)
  {
    ContiguousSplit(head, body);
    CutKeepsContiguousRuns(body, budget, cost, kept);
    ContiguousSplit(head, kept);
  }

  lemma CutKeepsContiguousRuns(body: seq<Item>, budget: nat, cost: CostOf, kept: seq<Item>)
    requires CutBody(body, budget, cost, kept) && ContiguousRuns(body)
    ensures ContiguousRuns(kept) && StartsRunFree(kept)
  {
    if NothingAffordable(body, budget, cost) {
      var s := LastTurnStart(body);
      LastTurnIsClean(body);
      SliceTwo(body, s, |body|);
      ContiguousSplit(body[..s], body[s..]);
      RecoveredKeepsTurns(body, budget, cost);
      SameTurnsSameRuns(kept, body[s..]);
    } else {
      var t: nat :| LongestAffordable(body, budget, cost, t) && kept == body[t..];
      SliceTwo(body, t, |body|);
      ContiguousSplit(body[..t], body[t..]);
    }
  }

  lemma RuleHasNoOrphanStart(items: seq<Item>, n: nat)
    requires ContiguousRuns(items) && n == LeadingSystem(items)
    ensures StartsRunFree(items[n..])
  {
    assert n == 1 ==> CallIds(items[0]) == {};
    assert n < |items| ==> !HasOwner(items, n);
  }

  lemma LastTurnIsClean(body: seq<Item>)
    requires ContiguousRuns(body)
    ensures StartsRunFree(body[LastTurnStart(body)..])
  {
    var j := RunStart(body, |body|);
    if j < |body| {
      assert HasOwner(body, j);
      var i :| Owns(body, i, j);
      assert i == j - 1;
      assert Calls(body[i]) != [];
    }
  }

  lemma SameTurnsSameRuns(a: seq<Item>, b: seq<Item>)
    requires SameTurns(a, b) && ContiguousRuns(b)
    ensures ContiguousRuns(a)
    ensures StartsRunFree(a) <==> StartsRunFree(b)
  {
    forall k | 0 <= k < |a| ensures ShapeAgrees(a[k], b[k]) {
      ShapeFacts(a[k], b[k]);
    }
    forall j | 0 <= j < |a| && a[j].ToolResult? ensures HasOwner(a, j) {
      assert ShapeAgrees(a[j], b[j]);
      assert HasOwner(b, j);
      var i :| Owns(b, i, j);
      assert ShapeAgrees(a[i], b[i]);
      assert forall k :: i < k < j ==> ShapeAgrees(a[k], b[k]);
      assert Owns(a, i, j);
    }
    assert |a| != 0 ==> ShapeAgrees(a[0], b[0]);
  }

  ghost predicate ShapeAgrees(a: Item, b: Item) {
    && (a.ToolResult? <==> b.ToolResult?)
    && (a.ToolResult? ==> a.callId == b.callId)
    && CallIds(a) == CallIds(b)
  }

  lemma ShapeFacts(a: Item, b: Item)
    requires ItemFrom(a, b)
    ensures ShapeAgrees(a, b)
  {
    assert Calls(a) == Calls(b);
  }

  /** The leading System item survives, and the last turn survives with its call
      ids, result ids, images and order; each of its texts is whole, or a prefix
      followed by the marker with the number of bytes dropped. */
  lemma FitKeepsEnds(items: seq<Item>, maxTokens: nat, cost: CostOf, out: seq<Item>)
    requires Fitted(items, maxTokens, cost, out)
    ensures var n := LeadingSystem(items);
            n <= |out| && out[..n] == items[..n] && EndsWithTurn(out, items[n..][LastTurnStart(items[n..])..])
  {
    var n := LeadingSystem(items);
    var head, body := items[..n], items[n..];
    var last := body[LastTurnStart(body)..];
    if Cost(items, cost) <= maxTokens {
      EndsInSuffix(body, LastTurnStart(body));
    } else {
      CutKeepsLastTurn(body, Allowance(head, maxTokens, cost), cost, out[n..]);
    }
    EndsLater(out, n, last);
  }

  ghost predicate EndsWithTurn(out: seq<Item>, last: seq<Item>) {
    |last| <= |out| && SameTurns(out[|out| - |last|..], last)
  }

  lemma EndsInSuffix(body: seq<Item>, t: nat)
    requires t <= |body|
    ensures EndsWithTurn(body, body[t..])
  {
    SuffixOfTail(body, 0, |body| - t);
    forall i | t <= i < |body| ensures ItemFrom(body[i], body[i]) {
    }
  }

  lemma EndsLater(out: seq<Item>, n: nat, last: seq<Item>)
    requires n <= |out| && EndsWithTurn(out[n..], last)
    ensures EndsWithTurn(out, last)
  {
    SuffixOfTail(out, n, |last|);
  }

  lemma CutKeepsLastTurn(body: seq<Item>, budget: nat, cost: CostOf, kept: seq<Item>)
    requires CutBody(body, budget, cost, kept)
    ensures EndsWithTurn(kept, body[LastTurnStart(body)..])
  {
    if NothingAffordable(body, budget, cost) {
      RecoveredKeepsTurns(body, budget, cost);
      assert kept[0..] == kept;
    } else {
      var t: nat :| LongestAffordable(body, budget, cost, t) && kept == body[t..];
      TailKeepsLastTurn(body, t);
      TailEndsWith(body, t, LastTurnStart(body));
    }
  }

  lemma TailEndsWith(body: seq<Item>, t: nat, s: nat)
    requires t <= s <= |body|
    ensures EndsWithTurn(body[t..], body[s..])
  {
    EndsInSuffix(body[t..], s - t);
    assert body[t..][s - t..] == body[s..];
  }

  /** A tail that starts no run of results starts no later than the last turn. */
  lemma TailKeepsLastTurn(body: seq<Item>, t: nat)
    requires t < |body| && !body[t].ToolResult?
    ensures t <= LastTurnStart(body)
  {
  }

  /** Whenever a tail is kept the total is at most the larger of the budget and
      the System item's own cost. */
  lemma FitWithinBudget(items: seq<Item>, maxTokens: nat, cost: CostOf, out: seq<Item>)
    requires Fitted(items, maxTokens, cost, out)
    requires var n := LeadingSystem(items);
             !NothingAffordable(items[n..], Allowance(items[..n], maxTokens, cost), cost)
    ensures var system := Cost(items[..LeadingSystem(items)], cost);
            Cost(out, cost) <= if maxTokens < system then system else maxTokens
  {
    var n := LeadingSystem(items);
    var head, body := items[..n], items[n..];
    if maxTokens < Cost(items, cost) {
      var kept := out[n..];
      assert out == head + kept;
      var t: nat :| LongestAffordable(body, Allowance(head, maxTokens, cost), cost, t) && kept == body[t..];
      CostConcat(head, kept, cost);
    }
  }
}
