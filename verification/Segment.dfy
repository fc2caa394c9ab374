/** Rendering one compaction segment: turns are added while they fit a byte
    budget, and segment file names carry their index. */
module Segment {
  import opened Prelude
  import opened Conversation
  import opened Text

  // ----- file names

  const SEGMENT_PREFIX := "segment_"
  const SEGMENT_SUFFIX := ".md"

  /** Zero-padded to three digits. */
  function Label(index: nat): string {
    var d := Decimal(index);
    if |d| == 1 then "00" + d else if |d| == 2 then "0" + d else d
  }

  function SegmentFilename(index: nat): string {
    SEGMENT_PREFIX + Label(index) + SEGMENT_SUFFIX
  }

  predicate IsDigit(c: char) {
    '0' <= c <= '9'
  }

  /** Value of a digit string, read left to right. */
  function Value(s: string): nat
    requires forall i :: 0 <= i < |s| ==> IsDigit(s[i])
  {
    if s == "" then 0
    else
      assert IsDigit(s[|s| - 1]);
      10 * Value(s[..|s| - 1]) + (s[|s| - 1] as int - '0' as int)
  }

  /** The checked 64-bit parser's loop: fails on a non-digit or on overflow. */
  function ParseDigits(s: string): Option<nat> {
    if s == "" then Some(0)
    else
      match ParseDigits(s[..|s| - 1])
      case None => None
      case Some(v) =>
        var c := s[|s| - 1];
        if !IsDigit(c) then None
        else
          var next := 10 * v + (c as int - '0' as int);
          if next <= U64_MAX then Some(next) else None
  }

  /** An optional plus sign, then at least one digit. */
  function ParseU64(s: string): Option<nat> {
    var digits := if s != "" && s[0] == '+' then s[1..] else s;
    if digits == "" then None else ParseDigits(digits)
  }

  function ParseSegmentIndex(name: string): Option<nat> {
    if !(SEGMENT_PREFIX <= name) then None
    else
      var rest := name[|SEGMENT_PREFIX|..];
      var cut := |rest| - |SEGMENT_SUFFIX|;
      if cut < 0 || rest[cut..] != SEGMENT_SUFFIX then None else ParseU64(rest[..cut])
  }

  lemma {:induction false} ParsesValue(s: string)
    requires (forall i :: 0 <= i < |s| ==> IsDigit(s[i])) && Value(s) <= U64_MAX
    ensures ParseDigits(s) == Some(Value(s))
    decreases |s|
  {
    if s != "" {
      ParsesValue(s[..|s| - 1]);
    }
  }

  lemma {:induction false} DecimalValue(n: nat)
    ensures forall i :: 0 <= i < |Decimal(n)| ==> IsDigit(Decimal(n)[i])
    ensures Value(Decimal(n)) == n
  {
    if n < 10 {
      assert Decimal(n)[..0] == "";
    } else {
      DecimalValue(n / 10);
      assert Decimal(n)[..|Decimal(n)| - 1] == Decimal(n / 10);
    }
  }

  lemma {:induction false} LeadingZero(s: string)
    requires forall i :: 0 <= i < |s| ==> IsDigit(s[i])
    ensures forall i :: 0 <= i < |"0" + s| ==> IsDigit(("0" + s)[i])
    ensures Value("0" + s) == Value(s)
    decreases |s|
  {
    var t := "0" + s;
    if s == "" {
      assert t[..0] == "";
    } else {
      LeadingZero(s[..|s| - 1]);
      assert t[..|t| - 1] == "0" + s[..|s| - 1];
    }
  }

  lemma LabelValue(index: nat)
    ensures Label(index) != "" && forall i :: 0 <= i < |Label(index)| ==> IsDigit(Label(index)[i])
    ensures Value(Label(index)) == index
  {
    DecimalIsAscii(index);
    DecimalValue(index);
    LeadingZero(Decimal(index));
    LeadingZero("0" + Decimal(index));
    assert "0" + ("0" + Decimal(index)) == "00" + Decimal(index);
  }

  /** Labels have at least three digits, and no padding from 100 on. */
  lemma LabelWidth(index: nat)
    ensures 3 <= |Label(index)| && (100 <= index ==> Label(index) == Decimal(index))
  {
    DecimalIsAscii(index);
    assert Pow10(2) == 10 * Pow10(1);
    DecimalLength(index, 2);
  }

  /** Every 64-bit index is read back from its file name. */
  lemma FilenameRoundTrip(index: nat)
    requires index <= U64_MAX
    ensures ParseSegmentIndex(SegmentFilename(index)) == Some(index)
  {
    var digits, name := Label(index), SegmentFilename(index);
    LabelValue(index);
    ParsesValue(digits);
    assert name[..|SEGMENT_PREFIX|] == SEGMENT_PREFIX;
    var rest := name[|SEGMENT_PREFIX|..];
    assert rest == digits + SEGMENT_SUFFIX;
    assert rest[..|digits|] == digits && rest[|digits|..] == SEGMENT_SUFFIX;
  }

  // ----- the document

  const SEGMENT_MAX_BYTES: nat := 524288
  const NOTICE_BYTES: nat := 64
  const PER_TURN_OVERHEAD_BYTES: nat := 64
  const NOTICE_START := "\n\n[... TRUNCATED at "
  const NOTICE_MIDDLE := " bytes, "
  const NOTICE_END := " turns omitted ...]\n"

  type Renderer = (Item, nat) -> string

  /** The truncation notice with its two numbers filled in. */
  function Notice(omitted: nat): string {
    NOTICE_START + Decimal(SEGMENT_MAX_BYTES) + NOTICE_MIDDLE + Decimal(omitted) + NOTICE_END
  }

  function Budget(preamble: string): nat {
    var reserved := ByteLen(preamble) + NOTICE_BYTES + PER_TURN_OVERHEAD_BYTES;
    if reserved <= SEGMENT_MAX_BYTES then SEGMENT_MAX_BYTES - reserved else 0
  }

  /** Bytes of the first `k` rendered turns. */
  function Used(items: seq<Item>, k: nat, render: Renderer): nat
    requires k <= |items|
  {
    if k == 0 then 0 else Used(items, k - 1, render) + ByteLen(render(items[k - 1], k - 1))
  }

  function Blocks(items: seq<Item>, k: nat, render: Renderer): (b: seq<string>)
    requires k <= |items|
    ensures |b| == k
  {
    if k == 0 then [] else Blocks(items, k - 1, render) + [render(items[k - 1], k - 1)]
  }

  /** `k` turns are the longest prefix within the budget. */
  ghost predicate LongestPrefix(items: seq<Item>, k: nat, budget: nat, render: Renderer) {
    && k <= |items| && Used(items, k, render) <= budget
    && forall j :: 0 <= j <= |items| && Used(items, j, render) <= budget ==> j <= k
  }

  function Tail(omitted: nat): string {
    if omitted == 0 then "" else Notice(omitted)
  }

  function Newlines(k: nat): nat {
    if k == 0 then 0 else k - 1
  }

  function Document(preamble: string, items: seq<Item>, k: nat, render: Renderer, tail: string): string
    requires k <= |items|
  {
    preamble + (Joined(Blocks(items, k, render)) + tail)
  }

  /** The document with the longest prefix of turns within the budget. */
  ghost predicate IsSegment(preamble: string, items: seq<Item>, render: Renderer, k: nat, doc: string) {
    && LongestPrefix(items, k, Budget(preamble), render)
    && doc == Document(preamble, items, k, render, Tail(|items| - k))
  }

  lemma {:induction false} UsedGrows(items: seq<Item>, j: nat, k: nat, render: Renderer)
    requires j <= k <= |items|
    ensures Used(items, j, render) <= Used(items, k, render)
    decreases k
  {
    if j < k {
      UsedGrows(items, j, k - 1, render);
    }
  }

  lemma StopsAtLongest(items: seq<Item>, k: nat, budget: nat, render: Renderer)
    requires k <= |items| && Used(items, k, render) <= budget
    requires k < |items| ==> budget < Used(items, k + 1, render)
    ensures LongestPrefix(items, k, budget, render)
  {
    forall j: nat | k < j <= |items| ensures budget < Used(items, j, render) {
      UsedGrows(items, k + 1, j, render);
    }
  }

  /** The rendering loop stops at the longest prefix within the budget. */
  method RenderTurns(items: seq<Item>, budget: nat, render: Renderer) returns (blocks: seq<string>)
    ensures LongestPrefix(items, |blocks|, budget, render)
    ensures blocks == Blocks(items, |blocks|, render)
  {
    blocks := [];
    var used := 0;
    while |blocks| < |items|
      invariant |blocks| <= |items| && blocks == Blocks(items, |blocks|, render)
      invariant used == Used(items, |blocks|, render) && used <= budget
    {
      var block := render(items[|blocks|], |blocks|);
      if used + ByteLen(block) > budget {
        break;
      }
      used := used + ByteLen(block);
      blocks := blocks + [block];
    }
    StopsAtLongest(items, |blocks|, budget, render);
  }

  /** The document holds the longest prefix of turns within the budget, and its
      notice says how many turns it left out. */
  method RenderSegment(preamble: string, items: seq<Item>, render: Renderer) returns (doc: string, rendered: nat)
    ensures IsSegment(preamble, items, render, rendered, doc)
  {
    var blocks := RenderTurns(items, Budget(preamble), render);
    rendered := |blocks|;
    doc := preamble + (Joined(blocks) + Tail(|items| - rendered));
  }

  lemma {:induction false} JoinedLength(items: seq<Item>, k: nat, render: Renderer)
    requires k <= |items|
    ensures ByteLen(Joined(Blocks(items, k, render))) == Used(items, k, render) + Newlines(k)
  {
    if k != 0 {
      var blocks := Blocks(items, k, render);
      JoinedLength(items, k - 1, render);
      assert blocks[..k - 1] == Blocks(items, k - 1, render);
      if k != 1 {
        var front := Joined(blocks[..k - 1]);
        ByteLenConcat(front, "\n");
        ByteLenConcat(front + "\n", blocks[k - 1]);
        AsciiByteLen("\n");
      }
    }
  }

  lemma FivePartLength(a: string, b: string, c: string, d: string, e: string)
    ensures ByteLen(a + b + c + d + e) == ByteLen(a) + ByteLen(b) + ByteLen(c) + ByteLen(d) + ByteLen(e)
  {
    ByteLenConcat(a, b);
    ByteLenConcat(a + b, c);
    ByteLenConcat(a + b + c, d);
    ByteLenConcat(a + b + c + d, e);
  }

  lemma StartLength()
    ensures ByteLen(NOTICE_START) == 20
  {
    AsciiByteLen(NOTICE_START);
  }

  lemma MiddleLength()
    ensures ByteLen(NOTICE_MIDDLE) == 8
  {
    AsciiByteLen(NOTICE_MIDDLE);
  }

  lemma EndLength()
    ensures ByteLen(NOTICE_END) == 20
  {
    AsciiByteLen(NOTICE_END);
  }

  lemma NoticeLength(omitted: nat)
    ensures ByteLen(Notice(omitted)) == 54 + |Decimal(omitted)|
  {
    FivePartLength(NOTICE_START, Decimal(SEGMENT_MAX_BYTES), NOTICE_MIDDLE, Decimal(omitted), NOTICE_END);
    DecimalIsAscii(SEGMENT_MAX_BYTES);
    DecimalIsAscii(omitted);
    StartLength();
    MiddleLength();
    EndLength();
    CapDigits();
  }

  lemma CapDigits()
    ensures |Decimal(SEGMENT_MAX_BYTES)| == 6
  {
    assert |Decimal(5)| == 1;
    assert |Decimal(524)| == 3;
    assert |Decimal(52428)| == 5;
  }

  lemma TailLength(omitted: nat)
    ensures ByteLen(Tail(omitted)) == if omitted == 0 then 0 else 54 + |Decimal(omitted)|
  {
    if omitted != 0 {
      NoticeLength(omitted);
    }
  }

  lemma TailBound(omitted: nat, tail: string)
    requires omitted <= U64_MAX && tail == Tail(omitted)
    ensures ByteLen(tail) <= 74
  {
    TailLength(omitted);
    TwentyDigits(omitted);
  }

  lemma TwentyDigits(n: nat)
    requires n <= U64_MAX
    ensures |Decimal(n)| <= 20
  {
    PowTwenty();
    DecimalLength(n, 20);
  }

  /** The document's exact size. */
  lemma DocumentLength(preamble: string, items: seq<Item>, k: nat, render: Renderer, tail: string)
    requires k <= |items|
    ensures ByteLen(Document(preamble, items, k, render, tail)) ==
            ByteLen(preamble) + Used(items, k, render) + Newlines(k) + ByteLen(tail)
  {
    var body := Joined(Blocks(items, k, render));
    JoinedLength(items, k, render);
    ByteLenConcat(body, tail);
    ByteLenConcat(preamble, body + tail);
  }

  /** Whenever the preamble fits, the document is within the cap plus one byte per
      rendered turn, and within the cap itself up to 55 rendered turns. */
  lemma DocumentBound(preamble: string, items: seq<Item>, k: nat, render: Renderer, omitted: nat, tail: string)
    requires k + omitted == |items| <= U64_MAX && tail == Tail(omitted)
    requires Used(items, k, render) <= Budget(preamble)
    requires ByteLen(preamble) + NOTICE_BYTES + PER_TURN_OVERHEAD_BYTES <= SEGMENT_MAX_BYTES
    ensures ByteLen(Document(preamble, items, k, render, tail)) <= SEGMENT_MAX_BYTES + k
    ensures k <= 55 ==> ByteLen(Document(preamble, items, k, render, tail)) <= SEGMENT_MAX_BYTES
  {
    TailBound(omitted, tail);
    ShortTailBound(preamble, items, k, render, tail);
  }

  lemma ShortTailBound(preamble: string, items: seq<Item>, k: nat, render: Renderer, tail: string)
    requires k <= |items| && Used(items, k, render) <= Budget(preamble) && ByteLen(tail) <= 74
    requires ByteLen(preamble) + NOTICE_BYTES + PER_TURN_OVERHEAD_BYTES <= SEGMENT_MAX_BYTES
    ensures ByteLen(Document(preamble, items, k, render, tail)) <= SEGMENT_MAX_BYTES + k
    ensures k <= 55 ==> ByteLen(Document(preamble, items, k, render, tail)) <= SEGMENT_MAX_BYTES
  {
    DocumentLength(preamble, items, k, render, tail);
  }

  // ----- what the document says

  lemma CapText()
    ensures Decimal(SEGMENT_MAX_BYTES) == "524288"
  {
    assert Decimal(5) == "5";
    assert Decimal(52) == "52";
    assert Decimal(524) == "524";
    assert Decimal(5242) == "5242";
    assert Decimal(52428) == "52428";
  }

  /** The notice names the cap first and the number of turns left out second. */
  lemma NoticeTells(omitted: nat) returns (digits: string)
    ensures Notice(omitted) == NOTICE_START + "524288" + NOTICE_MIDDLE + digits + NOTICE_END
    ensures (forall i :: 0 <= i < |digits| ==> IsDigit(digits[i])) && Value(digits) == omitted
  {
    CapText();
    DecimalValue(omitted);
    digits := Decimal(omitted);
  }

  /** Where text `i` starts among texts joined by newlines. */
  function StartOf(texts: seq<string>, i: nat): nat
    requires i <= |texts|
  {
    if i == 0 then 0 else StartOf(texts, i - 1) + |texts[i - 1]| + 1
  }

  lemma {:induction false} StartOfFront(texts: seq<string>, n: nat, i: nat)
    requires i <= n <= |texts|
    ensures StartOf(texts[..n], i) == StartOf(texts, i)
    decreases i
  {
    if i != 0 {
      StartOfFront(texts, n, i - 1);
    }
  }

  lemma {:induction false} JoinedSize(texts: seq<string>)
    requires texts != []
    ensures |Joined(texts)| + 1 == StartOf(texts, |texts|)
    decreases |texts|
  {
    var n := |texts| - 1;
    if n != 0 {
      JoinedSize(texts[..n]);
      StartOfFront(texts, n, n);
    }
  }

  ghost predicate StandsAt(s: string, t: string, at: nat) {
    at + |t| <= |s| && s[at..at + |t|] == t
  }

  lemma {:induction false} JoinedAt(texts: seq<string>, i: nat)
    requires i < |texts|
    ensures StandsAt(Joined(texts), texts[i], StartOf(texts, i))
    decreases |texts|
  {
    var n := |texts| - 1;
    if n != 0 {
      var front := Joined(texts[..n]);
      StartOfFront(texts, n, i);
      if i < n {
        JoinedAt(texts[..n], i);
        JoinedKeeps(front, texts[n], texts[i], StartOf(texts, i));
      } else {
        JoinedSize(texts[..n]);
        JoinedEnds(front, texts[n]);
      }
    }
  }

  lemma JoinedKeeps(front: string, last: string, t: string, at: nat)
    requires StandsAt(front, t, at)
    ensures StandsAt(front + "\n" + last, t, at)
  {
  }

  lemma JoinedEnds(front: string, last: string)
    ensures StandsAt(front + "\n" + last, last, |front| + 1)
  {
  }

  lemma {:induction false} BlockAt(items: seq<Item>, k: nat, render: Renderer, i: nat)
    requires i < k <= |items|
    ensures Blocks(items, k, render)[i] == render(items[i], i)
    decreases k
  {
    if i < k - 1 {
      BlockAt(items, k - 1, render, i);
    }
  }

  /** The document opens with the preamble, then shows every rendered turn whole, in
      order and one newline apart, and ends with the tail. */
  lemma DocumentShows(preamble: string, items: seq<Item>, k: nat, render: Renderer, tail: string, i: nat)
    requires i < k <= |items|
    ensures var doc, blocks := Document(preamble, items, k, render, tail), Blocks(items, k, render);
            && StandsAt(doc, preamble, 0)
            && StandsAt(doc, render(items[i], i), |preamble| + StartOf(blocks, i))
            && StandsAt(doc, tail, |preamble| + StartOf(blocks, k) - 1)
            && |doc| == |preamble| + StartOf(blocks, k) - 1 + |tail|
  {
    var blocks := Blocks(items, k, render);
    BlockAt(items, k, render, i);
    JoinedAt(blocks, i);
    JoinedSize(blocks);
    MiddleShows(preamble, Joined(blocks), tail, blocks[i], StartOf(blocks, i));
  }

  lemma MiddleShows(a: string, b: string, c: string, t: string, at: nat)
    requires StandsAt(b, t, at)
    ensures var s := a + (b + c);
            StandsAt(s, a, 0) && StandsAt(s, t, |a| + at) && StandsAt(s, c, |a| + |b|) && |s| == |a| + |b| + |c|
  {
  }

  lemma PowTwenty()
    ensures U64_MAX < Pow10(20)
  {
    assert Pow10(2) == 100;
    assert Pow10(4) == 100 * Pow10(2);
    assert Pow10(8) == 10_000 * Pow10(4) by {
      assert Pow10(6) == 100 * Pow10(4);
      assert Pow10(8) == 100 * Pow10(6);
    }
    assert Pow10(12) == 10_000 * Pow10(8) by {
      assert Pow10(10) == 100 * Pow10(8);
      assert Pow10(12) == 100 * Pow10(10);
    }
    assert Pow10(16) == 10_000 * Pow10(12) by {
      assert Pow10(14) == 100 * Pow10(12);
      assert Pow10(16) == 100 * Pow10(14);
    }
    assert Pow10(20) == 10_000 * Pow10(16) by {
      assert Pow10(18) == 100 * Pow10(16);
      assert Pow10(20) == 100 * Pow10(18);
    }
  }
}
