/** A line-buffered reader: a producer cuts a chunked byte source into lines, a
    consumer serves them through reads of any size. */
module LineReader {
  import opened Prelude

  const NEWLINE: Byte := 10
  const MAX_LINE_SIZE: nat := 64 * 1024 * 1024

  datatype Error = Oversized | ReadFault

  datatype LineResult = Line(bytes: seq<Byte>) | Eof | Failed(error: Error)

  // ----- what a line is, on the plain byte stream

  /** Length of the first line: through the first newline, or all there is. */
  function LineLength(s: seq<Byte>): (n: nat)
    ensures n <= |s|
    ensures s != [] ==> 0 < n
  {
    if s == [] then 0 else if s[0] == NEWLINE then 1 else 1 + LineLength(s[1..])
  }

  predicate HasNewline(s: seq<Byte>) {
    NEWLINE in s
  }

  lemma {:induction false} LineLengthSpec(s: seq<Byte>)
    ensures forall i :: 0 <= i < LineLength(s) - 1 ==> s[i] != NEWLINE
    ensures if HasNewline(s) then 0 < LineLength(s) && s[LineLength(s) - 1] == NEWLINE else LineLength(s) == |s|
  {
    if s != [] && s[0] != NEWLINE {
      LineLengthSpec(s[1..]);
      assert HasNewline(s) <==> HasNewline(s[1..]) by {
        assert forall i :: 0 < i < |s| ==> s[i] == s[1..][i - 1];
      }
    }
  }

  lemma {:induction false} LineLengthConcat(a: seq<Byte>, b: seq<Byte>)
    ensures LineLength(a + b) == if HasNewline(a) then LineLength(a) else |a| + LineLength(b)
  {
    if a == [] {
      assert a + b == b;
    } else {
      assert (a + b)[1..] == a[1..] + b;
      if a[0] != NEWLINE {
        LineLengthConcat(a[1..], b);
        assert HasNewline(a) <==> HasNewline(a[1..]) by {
          assert forall i :: 0 < i < |a| ==> a[i] == a[1..][i - 1];
        }
      }
    }
  }

  /** One read: a whole line, the unterminated rest at end of input, or an error.
      `fault` says whether the source ends in a read error instead of EOF. */
  function NextLine(s: seq<Byte>, fault: bool): LineResult {
    var n := LineLength(s);
    if n > MAX_LINE_SIZE then Failed(Oversized)
    else if !HasNewline(s) && fault then Failed(ReadFault)
    else if s == [] then Eof
    else Line(s[..n])
  }

  function Flatten(chunks: seq<seq<Byte>>): seq<Byte> {
    if chunks == [] then [] else chunks[0] + Flatten(chunks[1..])
  }

  // ----- the buffered source

  /** What `fill_buf` and `consume` offer: non-empty chunks, then EOF or a fault. */
  class Source {
    var chunks: seq<seq<Byte>>
    const fault: bool

    ghost predicate Valid()
      reads this
    {
      forall i :: 0 <= i < |chunks| ==> chunks[i] != []
    }

    ghost function Bytes(): seq<Byte>
      reads this
    {
      Flatten(chunks)
    }

    constructor (chunks: seq<seq<Byte>>, fault: bool)
      requires forall i :: 0 <= i < |chunks| ==> chunks[i] != []
      ensures Valid() && Bytes() == Flatten(chunks) && this.fault == fault
    {
      this.chunks := chunks;
      this.fault := fault;
    }

    method Consume(n: nat)
      requires Valid() && chunks != [] && n <= |chunks[0]|
      modifies this
      ensures Valid() && old(Bytes()) == old(chunks[0])[..n] + Bytes()
      ensures |Bytes()| == old(|Bytes()|) - n
    {
      ghost var first, rest := chunks[0], Flatten(chunks[1..]);
      assert first + rest == first[..n] + (first[n..] + rest);
      if n == |chunks[0]| {
        chunks := chunks[1..];
        assert first[n..] == [] && [] + rest == rest;
      } else {
        ghost var kept := [chunks[0][n..]] + chunks[1..];
        assert kept[1..] == chunks[1..];
        chunks := [chunks[0][n..]] + chunks[1..];
      }
    }

    /** Read one line, whatever the chunk boundaries. */
    method ReadLineCapped() returns (r: LineResult)
      requires Valid()
      modifies this
      ensures Valid()
      ensures r == NextLine(old(Bytes()), fault)
      ensures r.Line? ==> r.bytes != [] && old(Bytes()) == r.bytes + Bytes()
    {
      var buf: seq<Byte> := [];
      ghost var all := Bytes();
      while true
        invariant Valid()
        invariant all == buf + Bytes()
        invariant !HasNewline(buf) && |buf| <= MAX_LINE_SIZE
        decreases |Bytes()|
      {
        if chunks == [] {
          assert all == buf;
          AtEnd(buf, fault);
          return if fault then Failed(ReadFault) else if buf == [] then Eof else Line(buf);
        }
        var available := chunks[0];
        var n := LineLength(available);
        AfterChunk(all, buf, available, Flatten(chunks[1..]), fault);
        Consume(n);
        Reassociate(buf, available[..n], Bytes());
        buf := buf + available[..n];
        if |buf| > MAX_LINE_SIZE {
          return Failed(Oversized);
        }
        if HasNewline(available) {
          return Line(buf);
        }
      }
    }
  }

  lemma AtEnd(buf: seq<Byte>, fault: bool)
    requires !HasNewline(buf) && |buf| <= MAX_LINE_SIZE
    ensures NextLine(buf, fault) ==
            if fault then Failed(ReadFault) else if buf == [] then Eof else Line(buf)
  {
    LineLengthSpec(buf);
    assert buf[..|buf|] == buf;
  }

  /** What one more chunk settles about the line being read. */
  lemma AfterChunk(all: seq<Byte>, buf: seq<Byte>, available: seq<Byte>, rest: seq<Byte>, fault: bool)
    requires all == buf + (available + rest) && !HasNewline(buf)
    ensures
      var grown := buf + available[..LineLength(available)];
      && (HasNewline(grown) <==> HasNewline(available))
      && (|grown| > MAX_LINE_SIZE ==> NextLine(all, fault) == Failed(Oversized))
      && (|grown| <= MAX_LINE_SIZE && HasNewline(available) ==> NextLine(all, fault) == Line(grown))
  {
    var n := LineLength(available);
    LineLengthSpec(available);
    LineLengthConcat(buf, available + rest);
    LineLengthConcat(available, rest);
    assert all[..|buf| + n] == buf + available[..n];
    NewlineConcat(buf, available[..n]);
    if HasNewline(available) {
      assert available[..n][n - 1] == NEWLINE;
      NewlineConcat(available, rest);
      NewlineConcat(buf, available + rest);
    } else {
      assert available[..n] == available;
    }
  }

  lemma NewlineConcat(a: seq<Byte>, b: seq<Byte>)
    ensures HasNewline(a + b) <==> HasNewline(a) || HasNewline(b)
  {
  }

  // ----- the producer

  /** Everything the reader task sends: lines in order, then nothing on EOF or
      one error. */
  function Lines(s: seq<Byte>, fault: bool): seq<LineResult>
    decreases |s|
  {
    match NextLine(s, fault)
    case Eof => []
    case Failed(e) => [Failed(e)]
    case Line(bytes) => [Line(bytes)] + Lines(s[|bytes|..], fault)
  }

  /** The reader task: the lines sent do not depend on how the source was chunked. */
  method Produce(source: Source) returns (sent: seq<LineResult>)
    requires source.Valid()
    modifies source
    ensures sent == Lines(old(source.Bytes()), source.fault)
  {
    sent := [];
    ghost var all := source.Bytes();
    while true
      invariant source.Valid()
      invariant sent + Lines(source.Bytes(), source.fault) == Lines(all, source.fault)
      decreases |source.Bytes()|
    {
      ghost var left := source.Bytes();
      var r := source.ReadLineCapped();
      match r {
        case Eof =>
          assert sent + [] == sent;
          return;
        case Failed(e) =>
          return sent + [r];
        case Line(bytes) =>
          assert left[|bytes|..] == source.Bytes();
          Reassociate(sent, [r], Lines(source.Bytes(), source.fault));
          sent := sent + [r];
      }
    }
  }

  /** The bytes of the lines among `items`. */
  function Payload(items: seq<LineResult>): seq<Byte> {
    if items == [] then [] else (if items[0].Line? then items[0].bytes else []) + Payload(items[1..])
  }

  lemma {:induction false} PayloadConcat(a: seq<LineResult>, b: seq<LineResult>)
    ensures Payload(a + b) == Payload(a) + Payload(b)
  {
    if a == [] {
      assert a + b == b;
    } else {
      assert (a + b)[1..] == a[1..] + b;
      PayloadConcat(a[1..], b);
      Reassociate(if a[0].Line? then a[0].bytes else [], Payload(a[1..]), Payload(b));
    }
  }

  /** Every line of `s` is within the cap. */
  predicate WithinCap(s: seq<Byte>)
    decreases |s|
  {
    LineLength(s) <= MAX_LINE_SIZE && (s != [] ==> WithinCap(s[LineLength(s)..]))
  }

  /** Start of the first line over the cap, or the end of the source. */
  function FirstOversized(s: seq<Byte>): (n: nat)
    ensures n <= |s|
    decreases |s|
  {
    if s == [] || LineLength(s) > MAX_LINE_SIZE then 0
    else LineLength(s) + FirstOversized(s[LineLength(s)..])
  }

  lemma {:induction false} FirstOversizedSpec(s: seq<Byte>)
    ensures WithinCap(s) <==> FirstOversized(s) == |s|
    ensures !WithinCap(s) ==> LineLength(s[FirstOversized(s)..]) > MAX_LINE_SIZE
    decreases |s|
  {
    if s != [] && LineLength(s) <= MAX_LINE_SIZE {
      var n := LineLength(s);
      FirstOversizedSpec(s[n..]);
      assert s[n..][FirstOversized(s[n..])..] == s[FirstOversized(s)..];
    }
  }

  /** One more line in front. */
  lemma LinesCons(s: seq<Byte>, fault: bool)
    requires NextLine(s, fault).Line?
    ensures var n := LineLength(s);
            && 0 < n <= |s| && Lines(s, fault) == [Line(s[..n])] + Lines(s[n..], fault)
            && Payload(Lines(s, fault)) == s[..n] + Payload(Lines(s[n..], fault))
  {
    var n := LineLength(s);
    var rest := Lines(s[n..], fault);
    assert |s[..n]| == n;
    assert ([Line(s[..n])] + rest)[1..] == rest;
  }

  /** Just past the last newline, or 0. */
  function LastLineEnd(s: seq<Byte>): (e: nat)
    ensures e <= |s|
  {
    if s == [] || s[|s| - 1] == NEWLINE then |s| else LastLineEnd(s[..|s| - 1])
  }

  lemma {:induction false} LastLineEndSpec(s: seq<Byte>)
    ensures 0 < LastLineEnd(s) ==> s[LastLineEnd(s) - 1] == NEWLINE
    ensures forall i :: LastLineEnd(s) <= i < |s| ==> s[i] != NEWLINE
  {
    if s != [] && s[|s| - 1] != NEWLINE {
      LastLineEndSpec(s[..|s| - 1]);
    }
  }

  /** How much of the source the lines carry: all up to the first line over the cap,
      less an unterminated last line when the source ends in a read fault. */
  function Carried(s: seq<Byte>, fault: bool): (n: nat)
    ensures n <= |s|
  {
    CarriedOf(s, FirstOversized(s), fault)
  }

  function CarriedOf(s: seq<Byte>, whole: nat, fault: bool): (n: nat)
    requires whole <= |s|
    ensures n <= whole
  {
    if fault then LastLineEnd(s[..whole]) else whole
  }

  lemma {:induction false} LastLineEndAfter(a: seq<Byte>, b: seq<Byte>)
    requires a != [] && a[|a| - 1] == NEWLINE
    ensures LastLineEnd(a + b) == |a| + LastLineEnd(b)
    decreases |b|
  {
    if b == [] {
      assert a + b == a;
    } else {
      assert (a + b)[|a + b| - 1] == b[|b| - 1];
      assert (a + b)[..|a + b| - 1] == a + b[..|b| - 1];
      if b[|b| - 1] != NEWLINE {
        LastLineEndAfter(a, b[..|b| - 1]);
      }
    }
  }

  lemma LastLineEndSplit(s: seq<Byte>, n: nat, m: nat)
    requires 0 < n && n + m <= |s| && s[n - 1] == NEWLINE
    ensures LastLineEnd(s[..n + m]) == n + LastLineEnd(s[n..][..m])
  {
    PrefixJoin(s, n, m);
    LastLineEndAfter(s[..n], s[n..][..m]);
  }

  lemma FirstLineEnds(s: seq<Byte>, fault: bool)
    requires NextLine(s, fault).Line?
    ensures var n := LineLength(s);
            && 0 < n <= |s| && (fault ==> s[n - 1] == NEWLINE)
            && FirstOversized(s) == n + FirstOversized(s[n..])
  {
    LineLengthSpec(s);
  }

  lemma CarriedJoin(s: seq<Byte>, n: nat, m: nat, fault: bool)
    requires 0 < n && n + m <= |s| && (fault ==> s[n - 1] == NEWLINE)
    ensures CarriedOf(s, n + m, fault) == n + CarriedOf(s[n..], m, fault)
  {
    if fault {
      LastLineEndSplit(s, n, m);
    }
  }

  lemma CarriedNothing(s: seq<Byte>, fault: bool)
    requires !NextLine(s, fault).Line?
    ensures CarriedOf(s, FirstOversized(s), fault) == 0
  {
    if s != [] && LineLength(s) <= MAX_LINE_SIZE {
      LineLengthSpec(s);
      LastLineEndSpec(s);
      assert s[..|s|] == s && s[|s|..] == [];
    }
  }

  lemma {:induction false} LinesCarry(s: seq<Byte>, fault: bool, whole: nat)
    requires whole == FirstOversized(s)
    ensures Payload(Lines(s, fault)) == s[..CarriedOf(s, whole, fault)]
    decreases |s|
  {
    if NextLine(s, fault).Line? {
      var n := LineLength(s);
      FirstLineEnds(s, fault);
      var m: nat := whole - n;
      LinesCons(s, fault);
      LinesCarry(s[n..], fault, m);
      CarriedJoin(s, n, m, fault);
      PrefixJoin(s, n, CarriedOf(s[n..], m, fault));
    } else {
      CarriedNothing(s, fault);
      assert Lines(s, fault) != [] ==> Lines(s, fault)[1..] == [];
    }
  }

  lemma {:induction false} ErrorIff(s: seq<Byte>, fault: bool)
    ensures EndsInError(Lines(s, fault)) <==> fault || !WithinCap(s)
    decreases |s|
  {
    if NextLine(s, fault).Line? {
      var n := LineLength(s);
      LinesCons(s, fault);
      ErrorIff(s[n..], fault);
      EndsInErrorCons(Line(s[..n]), Lines(s[n..], fault));
    }
  }

  /** The lines carry exactly that part of the source, and an error follows exactly
      when there is a fault or a line over the cap. */
  lemma LinesCarrySource(s: seq<Byte>, fault: bool)
    ensures Payload(Lines(s, fault)) == s[..Carried(s, fault)]
    ensures EndsInError(Lines(s, fault)) <==> fault || !WithinCap(s)
  {
    LinesCarry(s, fault, FirstOversized(s));
    ErrorIff(s, fault);
  }

  lemma PrefixJoin(s: seq<Byte>, n: nat, m: nat)
    requires n + m <= |s|
    ensures s[..n] + s[n..][..m] == s[..n + m]
  {
  }

  predicate EndsInError(items: seq<LineResult>) {
    items != [] && items[|items| - 1].Failed?
  }

  lemma EndsInErrorCons(line: LineResult, rest: seq<LineResult>)
    requires line.Line?
    ensures EndsInError([line] + rest) <==> EndsInError(rest)
  {
  }

  /** Only non-empty lines are sent, then at most one error. */
  ghost predicate ErrorLast(items: seq<LineResult>) {
    && (forall i :: 0 <= i < |items| ==> !items[i].Eof? && (items[i].Line? ==> items[i].bytes != []))
    && (forall i :: 0 <= i < |items| - 1 ==> items[i].Line?)
  }

  lemma {:induction false} ErrorsComeLast(s: seq<Byte>, fault: bool)
    ensures ErrorLast(Lines(s, fault))
    decreases |s|
  {
    if NextLine(s, fault).Line? {
      LinesCons(s, fault);
      ErrorsComeLast(s[LineLength(s)..], fault);
    }
  }

  // ----- the consumer

  datatype Poll = Ready(bytes: seq<Byte>) | Error(error: Error) | Pending

  /** The reading side: the stashed line, and what the channel holds. */
  datatype Reader = Reader(buf: seq<Byte>, pos: nat, queue: seq<LineResult>, closed: bool) {
    predicate Valid() {
      pos <= |buf| && (buf != [] ==> pos < |buf|)
    }

    function Stash(): seq<Byte>
      requires pos <= |buf|
    {
      buf[pos..]
    }
  }

  function Least(a: nat, b: nat): nat {
    if a < b then a else b
  }

  function Polled(r: Reader, n: nat): (Reader, Poll)
    requires r.Valid()
  {
    if r.pos < |r.buf| then
      var k := Least(|r.buf| - r.pos, n);
      var served := r.buf[r.pos..r.pos + k];
      (if r.pos + k == |r.buf| then r.(buf := [], pos := 0) else r.(pos := r.pos + k), Ready(served))
    else if r.queue == [] then (r, if r.closed then Ready([]) else Pending)
    else
      var rest := r.(queue := r.queue[1..]);
      match r.queue[0]
      case Line(line) =>
        var k := Least(|line|, n);
        (if k < |line| then rest.(buf := line, pos := k) else rest, Ready(line[..k]))
      case Failed(e) => (rest, Error(e))
      case Eof => (rest, Ready([]))
  }

  class LineBufferedRead {
    var buf: seq<Byte>
    var pos: nat
    var queue: seq<LineResult>
    var closed: bool

    ghost function View(): Reader
      reads this
    {
      Reader(buf, pos, queue, closed)
    }

    constructor ()
      ensures View() == Reader([], 0, [], false) && View().Valid()
    {
      buf, pos, queue, closed := [], 0, [], false;
    }

    /** Serve bytes into a buffer of `n` bytes. */
    method PollRead(n: nat) returns (result: Poll)
      requires View().Valid()
      modifies this
      ensures (View(), result) == Polled(old(View()), n)
      ensures View().Valid()
    {
      if pos < |buf| {
        var avail := |buf| - pos;
        var k := if avail < n then avail else n;
        result := Ready(buf[pos..pos + k]);
        pos := pos + k;
        if pos >= |buf| {
          buf := [];
          pos := 0;
        }
        return;
      }
      if queue == [] {
        return if closed then Ready([]) else Pending;
      }
      var item := queue[0];
      queue := queue[1..];
      match item {
        case Line(line) =>
          var k := if |line| < n then |line| else n;
          result := Ready(line[..k]);
          if k < |line| {
            buf := line;
            pos := k;
          }
        case Failed(e) =>
          result := Error(e);
        case Eof =>
          result := Ready([]);
      }
    }
  }

  // ----- producer and consumer together, in any interleaving

  /** `todo` is what the producer still has to send, `served` what reads returned,
      `taken` how many items the reader has taken off the channel. */
  datatype System = System(todo: seq<LineResult>, reader: Reader, served: seq<Byte>, taken: nat)

  datatype Step = Send | Close | Read(n: nat)

  function Start(source: seq<Byte>, fault: bool): System {
    System(Lines(source, fault), Reader([], 0, [], false), [], 0)
  }

  predicate Enabled(s: System, step: Step) {
    match step
    case Send => s.todo != []
    case Close => s.todo == []
    case Read(n) => 0 < n && s.reader.Valid()
  }

  function Apply(s: System, step: Step): System
    requires Enabled(s, step)
  {
    match step
    case Send => s.(todo := s.todo[1..], reader := s.reader.(queue := s.reader.queue + [s.todo[0]]))
    case Close => s.(reader := s.reader.(closed := true))
    case Read(n) =>
      var (reader, poll) := Polled(s.reader, n);
      s.(reader := reader,
         served := if poll.Ready? then s.served + poll.bytes else s.served,
         taken := s.taken + |s.reader.queue| - |reader.queue|)
  }

  predicate Runs(s: System, steps: seq<Step>)
    decreases |steps|
  {
    steps == [] || (Enabled(s, steps[0]) && Runs(Apply(s, steps[0]), steps[1..]))
  }

  function After(s: System, steps: seq<Step>): System
    requires Runs(s, steps)
    decreases |steps|
  {
    if steps == [] then s else After(Apply(s, steps[0]), steps[1..])
  }

  /** Nothing is lost, duplicated or reordered: the channel and the producer hold
      the items not taken yet, and what was served plus the stash is exactly the
      payload of those taken. */
  ghost predicate Inv(s: System, all: seq<LineResult>) {
    && s.reader.Valid() && ErrorLast(all)
    && (s.reader.closed ==> s.todo == [])
    && s.taken <= |all|
    && s.reader.queue + s.todo == all[s.taken..]
    && s.served + s.reader.Stash() == Payload(all[..s.taken])
  }

  lemma {:induction false} PayloadSnoc(all: seq<LineResult>, k: nat)
    requires k < |all|
    ensures Payload(all[..k + 1]) == Payload(all[..k]) + (if all[k].Line? then all[k].bytes else [])
  {
    assert all[..k + 1] == all[..k] + [all[k]];
    PayloadConcat(all[..k], [all[k]]);
    assert [all[k]][1..] == [];
  }

  lemma SendKeepsInv(s: System, all: seq<LineResult>)
    requires Inv(s, all) && s.todo != []
    ensures Inv(Apply(s, Send), all)
  {
    assert s.reader.queue + s.todo == (s.reader.queue + [s.todo[0]]) + s.todo[1..];
  }

  lemma ReadStashKeepsInv(s: System, n: nat, all: seq<LineResult>)
    requires Inv(s, all) && 0 < n && s.reader.pos < |s.reader.buf|
    ensures Inv(Apply(s, Read(n)), all)
  {
    var (reader, poll) := Polled(s.reader, n);
    StashServed(s.reader, n);
    Reassociate(s.served, poll.bytes, reader.Stash());
  }

  lemma StashServed(r: Reader, n: nat)
    requires r.Valid() && 0 < n && r.pos < |r.buf|
    ensures var (reader, poll) := Polled(r, n);
            && reader.Valid() && reader.queue == r.queue && reader.closed == r.closed
            && poll.Ready? && poll.bytes + reader.Stash() == r.Stash()
  {
    var k := Least(|r.buf| - r.pos, n);
    SliceParts(r.buf, r.pos, r.pos + k);
  }

  lemma SliceParts(buf: seq<Byte>, i: nat, j: nat)
    requires i <= j <= |buf|
    ensures buf[i..j] + buf[j..] == buf[i..]
    ensures j == |buf| ==> buf[i..j] + [] == buf[i..]
  {
  }

  lemma QueueHead(s: System, all: seq<LineResult>)
    requires Inv(s, all)
    ensures s.reader.queue != [] ==> s.taken < |all| && s.reader.queue[0] == all[s.taken]
  {
    if s.reader.queue != [] {
      assert (s.reader.queue + s.todo)[0] == s.reader.queue[0];
    }
  }

  lemma TakeHead(queue: seq<LineResult>, todo: seq<LineResult>, all: seq<LineResult>, taken: nat)
    requires taken <= |all| && queue + todo == all[taken..] && queue != []
    ensures taken < |all| && queue[0] == all[taken] && queue[1..] + todo == all[taken + 1..]
  {
    assert (queue + todo)[0] == queue[0];
    assert queue[1..] + todo == (queue + todo)[1..];
  }

  /** Taking an item: what is served and what is stashed make up the item's line. */
  lemma ItemServed(r: Reader, n: nat)
    requires r.Valid() && 0 < n && r.pos == |r.buf| && r.queue != []
    ensures var (reader, poll) := Polled(r, n);
            && reader.Valid() && reader.queue == r.queue[1..] && reader.closed == r.closed
            && (if poll.Ready? then poll.bytes else []) + reader.Stash() ==
               (if r.queue[0].Line? then r.queue[0].bytes else [])
  {
    if r.queue[0].Line? {
      SliceParts(r.queue[0].bytes, 0, Least(|r.queue[0].bytes|, n));
    }
  }

  lemma ReadQueueKeepsInv(s: System, n: nat, all: seq<LineResult>)
    requires Inv(s, all) && 0 < n && s.reader.pos == |s.reader.buf| && s.reader.queue != []
    ensures Inv(Apply(s, Read(n)), all)
  {
    var r := s.reader;
    var (reader, poll) := Polled(r, n);
    TakeHead(r.queue, s.todo, all, s.taken);
    PayloadSnoc(all, s.taken);
    ItemServed(r, n);
    assert r.Stash() == [] && s.served + [] == s.served;
    Reassociate(s.served, if poll.Ready? then poll.bytes else [], reader.Stash());
  }

  lemma StepKeepsInv(s: System, step: Step, all: seq<LineResult>)
    requires Inv(s, all) && Enabled(s, step)
    ensures Inv(Apply(s, step), all)
  {
    match step
    case Send => SendKeepsInv(s, all);
    case Close =>
    case Read(n) =>
      if s.reader.pos < |s.reader.buf| {
        ReadStashKeepsInv(s, n, all);
      } else if s.reader.queue != [] {
        ReadQueueKeepsInv(s, n, all);
      } else {
        assert s.served + [] == s.served;
      }
  }

  lemma {:induction false} RunKeepsInv(s: System, steps: seq<Step>, all: seq<LineResult>)
    requires Inv(s, all) && Runs(s, steps)
    ensures Inv(After(s, steps), all)
    decreases |steps|
  {
    if steps != [] {
      StepKeepsInv(s, steps[0], all);
      RunKeepsInv(Apply(s, steps[0]), steps[1..], all);
    }
  }

  lemma RunInv(source: seq<Byte>, fault: bool, steps: seq<Step>)
    requires Runs(Start(source, fault), steps)
    ensures Inv(After(Start(source, fault), steps), Lines(source, fault))
  {
    var all := Lines(source, fault);
    ErrorsComeLast(source, fault);
    assert [] + all == all[0..];
    RunKeepsInv(Start(source, fault), steps, all);
  }

  lemma PayloadSplit(all: seq<LineResult>, k: nat)
    requires k <= |all|
    ensures Payload(all) == Payload(all[..k]) + Payload(all[k..])
  {
    assert all == all[..k] + all[k..];
    PayloadConcat(all[..k], all[k..]);
  }

  /** In every run, what has been served is a prefix of what the lines carry. */
  lemma ServedIsPrefix(source: seq<Byte>, fault: bool, steps: seq<Step>)
    requires Runs(Start(source, fault), steps)
    ensures After(Start(source, fault), steps).served <= source[..Carried(source, fault)]
  {
    RunInv(source, fault, steps);
    LinesCarrySource(source, fault);
    var s := After(Start(source, fault), steps);
    PayloadSplit(Lines(source, fault), s.taken);
    Reassociate(s.served, s.reader.Stash(), Payload(Lines(source, fault)[s.taken..]));
  }

  /** What a read looks at: the unserved rest of a line, or else the next line received. */
  function Ahead(r: Reader): seq<Byte>
    requires r.Valid()
  {
    if r.Stash() != [] then r.Stash()
    else if r.queue != [] && r.queue[0].Line? then r.queue[0].bytes
    else []
  }

  /** A read serves as much of the line ahead as its buffer holds, and leaves the rest
      ahead. */
  lemma ReadServesAllItCan(s: System, n: nat)
    requires 0 < n && s.reader.Valid() && Ahead(s.reader) != []
    ensures var ahead, s' := Ahead(s.reader), Apply(s, Read(n));
            if n < |ahead| then s'.served == s.served + ahead[..n] && s'.reader.Stash() == ahead[n..]
            else s'.served == s.served + ahead && s'.reader.Stash() == []
  {
    var ahead := Ahead(s.reader);
    assert ahead[..|ahead|] == ahead;
  }

  /** A read is `Pending` only between lines: no received byte is unserved, and the
      bytes served so far are whole lines. */
  lemma PendingOnlyBetweenLines(source: seq<Byte>, fault: bool, steps: seq<Step>, n: nat)
    requires Runs(Start(source, fault), steps)
    requires var s := After(Start(source, fault), steps);
             s.reader.Valid() && Polled(s.reader, n).1.Pending?
    ensures
      var s := After(Start(source, fault), steps);
      && s.reader.queue == [] && s.reader.Stash() == []
      && s.taken <= |Lines(source, fault)|
      && s.served == Payload(Lines(source, fault)[..s.taken])
  {
    RunInv(source, fault, steps);
    var s := After(Start(source, fault), steps);
    assert s.served + [] == s.served;
  }

  /** A non-empty buffer filled with nothing means end of stream: every line has
      been served, which without faults or oversized lines is the whole source. */
  lemma EmptyReadMeansEnd(source: seq<Byte>, fault: bool, steps: seq<Step>, n: nat)
    requires Runs(Start(source, fault), steps) && 0 < n
    requires var s := After(Start(source, fault), steps);
             s.reader.Valid() && Polled(s.reader, n).1 == Ready([])
    ensures After(Start(source, fault), steps).served == source[..Carried(source, fault)]
    ensures !fault && WithinCap(source) ==> After(Start(source, fault), steps).served == source
  {
    RunInv(source, fault, steps);
    AllServedAtEnd(After(Start(source, fault), steps), n, Lines(source, fault));
    LinesCarrySource(source, fault);
    FirstOversizedSpec(source);
  }

  lemma AllServedAtEnd(s: System, n: nat, all: seq<LineResult>)
    requires Inv(s, all) && 0 < n && Polled(s.reader, n).1 == Ready([])
    ensures s.served == Payload(all)
  {
    QueueHead(s, all);
    assert s.reader.pos == |s.reader.buf| && s.reader.queue == [] && s.reader.closed;
    assert all[..s.taken] == all;
    assert s.served + [] == s.served;
  }

  lemma AllServedAtError(s: System, n: nat, all: seq<LineResult>)
    requires Inv(s, all) && Polled(s.reader, n).1.Error?
    ensures s.served == Payload(all) && EndsInError(all)
  {
    QueueHead(s, all);
    PayloadSnoc(all, s.taken);
    assert all[..s.taken + 1] == all;
    assert s.served + [] == s.served;
  }

  /** An error surfaces only after every line before it was served in full. */
  lemma ErrorComesAfterLines(source: seq<Byte>, fault: bool, steps: seq<Step>, n: nat)
    requires Runs(Start(source, fault), steps)
    requires var s := After(Start(source, fault), steps);
             s.reader.Valid() && Polled(s.reader, n).1.Error?
    ensures After(Start(source, fault), steps).served == source[..Carried(source, fault)]
    ensures fault || !WithinCap(source)
  {
    RunInv(source, fault, steps);
    AllServedAtError(After(Start(source, fault), steps), n, Lines(source, fault));
    LinesCarrySource(source, fault);
  }
}
