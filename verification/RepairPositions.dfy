/** Repair read off the positions of a history, without the passes: which results are
    superseded, displaced or kept, which calls are unanswered, and what comes out. */
module RepairPositions {
  import opened Prelude
  import opened Conversation
  import opened Pairing
  import opened Repair

  /** Item `j` stands in the run of results right after item `i`. */
  ghost predicate InRun(h: seq<Item>, i: int, j: int) {
    0 <= i < j < |h| && forall k :: i < k <= j ==> h[k].ToolResult?
  }

  /** A later result of the same id stands in the same run, after an item with calls. */
  ghost predicate Superseded(h: seq<Item>, j: int) {
    exists i, y :: InRun(h, i, y) && i < j < y && Calls(h[i]) != [] && h[y].callId == h[j].callId
  }

  /** A result in no run of an assistant that declares it, nor superseded. */
  ghost predicate Displaced(h: seq<Item>, j: int) {
    0 <= j < |h| && h[j].ToolResult? && !Superseded(h, j) && !HasOwner(h, j)
  }

  ghost predicate KeptAt(h: seq<Item>, j: int)
    requires 0 <= j < |h|
  {
    h[j].ToolResult? ==> !Superseded(h, j) && HasOwner(h, j)
  }

  ghost predicate UnansweredCall(h: seq<Item>, p: nat, c: nat)
    requires p < |h| && c < |Calls(h[p])|
  {
    !AnsweredAt(h, p, Calls(h[p])[c].id)
  }

  /** One result for each unanswered call of item `p`, from call `c` on, in order. */
  ghost function SyntheticFrom(h: seq<Item>, p: nat, c: nat, reason: DanglingReason): seq<Item>
    requires p < |h| && c <= |Calls(h[p])|
    decreases |Calls(h[p])| - c
  {
    if c == |Calls(h[p])| then []
    else
      var call := Calls(h[p])[c];
      (if UnansweredCall(h, p, c) then [ToolResult(call.id, SyntheticText(call.name, reason), [])] else [])
      + SyntheticFrom(h, p, c + 1, reason)
  }

  // ----- picking positions

  /** The items at the marked positions from `i` on, in order. */
  function Picked(h: seq<Item>, mark: seq<bool>, i: nat): seq<Item>
    requires i <= |h| == |mark|
    decreases |h| - i
  {
    if i == |h| then [] else (if mark[i] then [h[i]] else []) + Picked(h, mark, i + 1)
  }

  /** The ids of the results at the marked positions. */
  function IdsAt(h: seq<Item>, mark: seq<bool>, i: nat): seq<string>
    requires i <= |h| == |mark|
    decreases |h| - i
  {
    if i == |h| then []
    else (if mark[i] && h[i].ToolResult? then [h[i].callId] else []) + IdsAt(h, mark, i + 1)
  }

  function Count(mark: seq<bool>, i: nat): nat
    requires i <= |mark|
    decreases |mark| - i
  {
    if i == |mark| then 0 else (if mark[i] then 1 else 0) + Count(mark, i + 1)
  }

  function Total(extra: seq<seq<Item>>, i: nat): nat
    requires i <= |extra|
    decreases |extra| - i
  {
    if i == |extra| then 0 else |extra[i]| + Total(extra, i + 1)
  }

  /** The marked items, each followed by what is put in after its position. */
  function Output(h: seq<Item>, keep: seq<bool>, extra: seq<seq<Item>>, i: nat): seq<Item>
    requires i <= |h| == |keep| == |extra|
    decreases |h| - i
  {
    if i == |h| then [] else (if keep[i] then [h[i]] else []) + extra[i] + Output(h, keep, extra, i + 1)
  }

  // ----- the marks of a history

  ghost function SupersededMarks(h: seq<Item>): (m: seq<bool>)
    ensures |m| == |h|
  {
    seq(|h|, i requires 0 <= i < |h| => Superseded(h, i))
  }

  ghost function DisplacedMarks(h: seq<Item>): (m: seq<bool>)
    ensures |m| == |h|
  {
    seq(|h|, i requires 0 <= i < |h| => Displaced(h, i))
  }

  ghost function KeptMarks(h: seq<Item>): (m: seq<bool>)
    ensures |m| == |h|
  {
    seq(|h|, i requires 0 <= i < |h| => KeptAt(h, i))
  }

  /** The item whose run ends at position `i`, if one does. */
  ghost predicate EndsRunOf(h: seq<Item>, p: nat, i: nat) {
    IsBlock(h, p, i + 1)
  }

  /** What is put in after position `i`: the results lacking in the run that ends there. */
  ghost function Owed(h: seq<Item>, i: nat, reason: DanglingReason): seq<Item>
    requires i < |h|
  {
    if exists p: nat :: EndsRunOf(h, p, i) then
      var p: nat :| EndsRunOf(h, p, i);
      SyntheticFrom(h, p, 0, reason)
    else []
  }

  ghost function Extras(h: seq<Item>, reason: DanglingReason): (m: seq<seq<Item>>)
    ensures |m| == |h|
  {
    seq(|h|, i requires 0 <= i < |h| => Owed(h, i, reason))
  }

  // ----- facts about one position of a run

  /** `p` is not a result, and its run is exactly the positions between `p` and `e`. */
  ghost predicate IsBlock(h: seq<Item>, p: nat, e: nat) {
    && p < e <= |h| && !h[p].ToolResult? && (e < |h| ==> !h[e].ToolResult?)
    && forall k :: p < k < e ==> h[k].ToolResult?
  }

  lemma OwnerInBlock(h: seq<Item>, p: nat, e: nat, j: nat)
    requires IsBlock(h, p, e) && p < j < e
    ensures HasOwner(h, j) <==> h[j].callId in CallIds(h[p])
  {
    if h[j].callId in CallIds(h[p]) {
      assert Owns(h, p, j);
    }
    if HasOwner(h, j) {
      var i :| Owns(h, i, j);
      NoCallsInResult(h[i]);
      assert i == p;
    }
  }

  lemma NoCallsInResult(x: Item)
    ensures x.ToolResult? ==> CallIds(x) == {}
  {
  }

  lemma SupersededInBlock(h: seq<Item>, p: nat, e: nat, j: nat)
    requires IsBlock(h, p, e) && p < j < e
    ensures Superseded(h, j) <==> Calls(h[p]) != [] && h[j].callId in ResultIds(h[j + 1..e])
  {
    var rest := h[j + 1..e];
    if Superseded(h, j) {
      var i, y :| InRun(h, i, y) && i < j < y && Calls(h[i]) != [] && h[y].callId == h[j].callId;
      assert i == p && y < e;
      assert rest[y - j - 1] == h[y];
    }
    if Calls(h[p]) != [] && h[j].callId in ResultIds(rest) {
      var k :| 0 <= k < |rest| && rest[k].ToolResult? && rest[k].callId == h[j].callId;
      assert rest[k] == h[j + 1 + k];
      assert InRun(h, p, j + 1 + k);
    }
  }

  lemma AnsweredInBlock(h: seq<Item>, p: nat, e: nat, id: string)
    requires IsBlock(h, p, e) && id in CallIds(h[p])
    ensures AnsweredAt(h, p, id) <==> id in ResultIds(h[p + 1..e])
  {
    var run := h[p + 1..e];
    if AnsweredAt(h, p, id) {
      var j :| Owns(h, p, j) && h[j].callId == id;
      assert j < e && run[j - p - 1] == h[j];
    }
    if id in ResultIds(run) {
      var k :| 0 <= k < |run| && run[k].ToolResult? && run[k].callId == id;
      assert run[k] == h[p + 1 + k];
      assert Owns(h, p, p + 1 + k);
    }
  }

  lemma OwedAtEnd(h: seq<Item>, p: nat, e: nat, reason: DanglingReason)
    requires IsBlock(h, p, e)
    ensures Owed(h, e - 1, reason) == SyntheticFrom(h, p, 0, reason)
  {
    var i: nat := e - 1;
    assert EndsRunOf(h, p, i);
    forall q: nat | EndsRunOf(h, q, i) ensures q == p {
      SameHead(h, p, q, e);
    }
  }

  lemma SameHead(h: seq<Item>, p: nat, q: nat, e: nat)
    requires IsBlock(h, p, e) && IsBlock(h, q, e)
    ensures p == q
  {
  }

  lemma OwedInside(h: seq<Item>, p: nat, e: nat, i: nat, reason: DanglingReason)
    requires IsBlock(h, p, e) && p <= i < e - 1
    ensures Owed(h, i, reason) == []
  {
    assert h[i + 1].ToolResult?;
  }

  /** Only results up to position `i`. */
  ghost predicate Leading(h: seq<Item>, i: int) {
    i < |h| && forall k :: 0 <= k <= i ==> h[k].ToolResult?
  }

  lemma OwedLeading(h: seq<Item>, i: nat, reason: DanglingReason)
    requires Leading(h, i)
    ensures Owed(h, i, reason) == [] && !KeptAt(h, i) && !Superseded(h, i)
  {
    forall p ensures !Owns(h, p, i) {
      if 0 <= p < i {
        NoCallsInResult(h[p]);
      }
    }
    forall p, y | InRun(h, p, y) && p < i < y ensures Calls(h[p]) == [] {
      assert h[p].ToolResult?;
    }
  }

  lemma {:induction false} SyntheticIsMissing(h: seq<Item>, p: nat, c: nat, answered: set<string>, reason: DanglingReason)
    requires p < |h| && c <= |Calls(h[p])|
    requires forall id :: id in CallIds(h[p]) ==> (AnsweredAt(h, p, id) <==> id in answered)
    ensures SyntheticFrom(h, p, c, reason) == Missing(Calls(h[p])[c..], answered, reason)
    decreases |Calls(h[p])| - c
  {
    var calls := Calls(h[p]);
    if c < |calls| {
      SyntheticIsMissing(h, p, c + 1, answered, reason);
      assert calls[c..][1..] == calls[c + 1..];
      assert calls[c].id in CallIds(h[p]);
    }
  }

  lemma SyntheticInBlock(h: seq<Item>, p: nat, e: nat, reason: DanglingReason)
    requires IsBlock(h, p, e)
    ensures SyntheticFrom(h, p, 0, reason) == Missing(Calls(h[p]), ResultIds(h[p + 1..e]), reason)
    ensures SyntheticFrom(h, p, 0, reason) == Missing(Calls(h[p]), ResultIds(Kept(h[p], h[p + 1..e])), reason)
  {
    var run := h[p + 1..e];
    KeptSpec(h[p], run);
    forall id | id in CallIds(h[p]) ensures AnsweredAt(h, p, id) <==> id in ResultIds(run) {
      AnsweredInBlock(h, p, e, id);
    }
    SyntheticIsMissing(h, p, 0, ResultIds(run), reason);
    SyntheticIsMissing(h, p, 0, ResultIds(Kept(h[p], run)), reason);
    assert Calls(h[p])[0..] == Calls(h[p]);
  }

  lemma KeptInBlock(h: seq<Item>, p: nat, e: nat, j: nat)
    requires IsBlock(h, p, e) && p < j < e
    ensures KeptAt(h, j) <==> h[j].callId in CallIds(h[p]) && h[j].callId !in ResultIds(h[j + 1..e])
  {
    OwnerInBlock(h, p, e, j);
    SupersededInBlock(h, p, e, j);
  }

  // ----- the output of a repair, from its marks

  /** The marks agree with the repair of the block at `p`. */
  ghost predicate BlockFits(h: seq<Item>, keep: seq<bool>, extra: seq<seq<Item>>, p: nat, e: nat)
    requires IsBlock(h, p, e) && |h| == |keep| == |extra|
  {
    var ids, miss := CallIds(h[p]), Missing(Calls(h[p]), ResultIds(Kept(h[p], h[p + 1..e])), REPAIR_REASON);
    && keep[p]
    && (forall j :: p < j < e ==> (keep[j] <==> h[j].callId in ids && h[j].callId !in ResultIds(h[j + 1..e])))
    && (forall j :: p <= j < e ==> extra[j] == if j == e - 1 then miss else [])
  }

  ghost predicate Fits(h: seq<Item>, keep: seq<bool>, extra: seq<seq<Item>>) {
    && |h| == |keep| == |extra|
    && (forall p: nat, e: nat :: IsBlock(h, p, e) ==> BlockFits(h, keep, extra, p, e))
    && (forall i: nat :: Leading(h, i) ==> !keep[i] && extra[i] == [])
  }

  lemma SurvivorsCons(run: seq<Item>, ids: set<string>)
    requires run != [] && AllResults(run)
    ensures Strip(KeepLast(run), ids) ==
            (if run[0].callId in ids && run[0].callId !in ResultIds(run[1..]) then [run[0]] else [])
            + Strip(KeepLast(run[1..]), ids)
  {
    var rest := KeepLast(run[1..]);
    if run[0].callId !in ResultIds(run[1..]) {
      assert ([run[0]] + rest)[1..] == rest;
    }
  }

  lemma {:induction false} OutputInRun(h: seq<Item>, keep: seq<bool>, extra: seq<seq<Item>>, e: nat, j: nat, ids: set<string>, miss: seq<Item>)
    requires j < e <= |h| == |keep| == |extra| && AllResults(h[j..e])
    requires forall k :: j <= k < e ==> (keep[k] <==> h[k].callId in ids && h[k].callId !in ResultIds(h[k + 1..e]))
    requires forall k :: j <= k < e ==> extra[k] == if k == e - 1 then miss else []
    ensures Output(h, keep, extra, j) == Strip(KeepLast(h[j..e]), ids) + miss + Output(h, keep, extra, e)
    decreases e - j
  {
    var run, rest := h[j..e], h[j + 1..e];
    assert run[1..] == rest && run[0] == h[j];
    SurvivorsCons(run, ids);
    var here, next, late := if keep[j] then [h[j]] else [], Strip(KeepLast(rest), ids), Output(h, keep, extra, e);
    if j + 1 < e {
      assert AllResults(rest) by { assert forall k :: 0 <= k < |rest| ==> rest[k] == run[k + 1]; }
      OutputInRun(h, keep, extra, e, j + 1, ids, miss);
      Prepend(here, next, miss, late);
    } else {
      assert rest == [] && here + [] == here;
    }
  }

  lemma Prepend(here: seq<Item>, next: seq<Item>, miss: seq<Item>, late: seq<Item>)
    ensures here + [] + (next + miss + late) == (here + next) + miss + late
  {
  }

  lemma BlockJoin(x: Item, kept: seq<Item>, miss: seq<Item>, rest: seq<Item>)
    ensures [x] + [] + (kept + miss + rest) == [x] + (kept + miss) + rest
    ensures kept == [] ==> [x] + miss + rest == [x] + (kept + miss) + rest
  {
  }

  lemma OutputOfBlock(h: seq<Item>, keep: seq<bool>, extra: seq<seq<Item>>, p: nat, e: nat)
    requires IsBlock(h, p, e) && |h| == |keep| == |extra| && BlockFits(h, keep, extra, p, e)
    ensures Output(h, keep, extra, p) == [h[p]] + RepairRun(h[p], h[p + 1..e]) + Output(h, keep, extra, e)
  {
    var run := h[p + 1..e];
    var miss := Missing(Calls(h[p]), ResultIds(Kept(h[p], run)), REPAIR_REASON);
    assert AllResults(run);
    if p + 1 < e {
      OutputInRun(h, keep, extra, e, p + 1, CallIds(h[p]), miss);
    }
    BlockJoin(h[p], Kept(h[p], run), miss, Output(h, keep, extra, e));
  }

  lemma BlockFrom(h: seq<Item>, p: nat) returns (e: nat)
    requires p < |h| && !h[p].ToolResult?
    ensures e == p + 1 + RunLength(h[p + 1..]) && IsBlock(h, p, e)
  {
    var after := h[p + 1..];
    RunLengthSpec(after);
    e := p + 1 + RunLength(after);
    assert forall k :: p < k < e ==> h[k] == after[..RunLength(after)][k - p - 1];
    assert e < |h| ==> h[e] == after[RunLength(after)..][0];
  }

  lemma RepairedSlices(h: seq<Item>, i: nat, e: nat)
    requires i < e <= |h| && !h[i].ToolResult? && e == i + 1 + RunLength(h[i + 1..])
    ensures Repaired(h[i..]) == [h[i]] + RepairRun(h[i], h[i + 1..e]) + Repaired(h[e..])
  {
    var items, k := h[i..], RunLength(h[i + 1..]);
    assert items[1..] == h[i + 1..];
    assert items[1..][..k] == h[i + 1..e];
    assert items[1..][k..] == h[e..];
  }

  lemma {:induction false} FittingIsRepaired(h: seq<Item>, keep: seq<bool>, extra: seq<seq<Item>>, i: nat)
    requires Fits(h, keep, extra) && i <= |h| && (i < |h| && h[i].ToolResult? ==> Leading(h, i))
    ensures Repaired(h[i..]) == Output(h, keep, extra, i)
    decreases |h| - i
  {
    if i < |h| {
      if h[i].ToolResult? {
        assert h[i..][1..] == h[i + 1..];
        FittingIsRepaired(h, keep, extra, i + 1);
        assert [] + [] + Output(h, keep, extra, i + 1) == Output(h, keep, extra, i + 1);
      } else {
        var e := BlockFrom(h, i);
        assert BlockFits(h, keep, extra, i, e);
        OutputOfBlock(h, keep, extra, i, e);
        FittingIsRepaired(h, keep, extra, e);
        RepairedSlices(h, i, e);
      }
    }
  }

  lemma KeptMarksFit(h: seq<Item>, p: nat, e: nat)
    requires IsBlock(h, p, e)
    ensures KeptMarks(h)[p]
    ensures forall j :: p < j < e ==>
              (KeptMarks(h)[j] <==> h[j].callId in CallIds(h[p]) && h[j].callId !in ResultIds(h[j + 1..e]))
  {
    forall j | p < j < e
      ensures KeptAt(h, j) <==> h[j].callId in CallIds(h[p]) && h[j].callId !in ResultIds(h[j + 1..e])
    {
      KeptInBlock(h, p, e, j);
    }
  }

  lemma ExtrasFit(h: seq<Item>, p: nat, e: nat, reason: DanglingReason)
    requires IsBlock(h, p, e)
    ensures forall j :: p <= j < e ==> Extras(h, reason)[j] == if j == e - 1 then SyntheticFrom(h, p, 0, reason) else []
  {
    forall j | p <= j < e
      ensures Extras(h, reason)[j] == if j == e - 1 then SyntheticFrom(h, p, 0, reason) else []
    {
      OwedInBlock(h, p, e, j, reason);
    }
  }

  lemma OwedInBlock(h: seq<Item>, p: nat, e: nat, j: nat, reason: DanglingReason)
    requires IsBlock(h, p, e) && p <= j < e
    ensures Owed(h, j, reason) == if j == e - 1 then SyntheticFrom(h, p, 0, reason) else []
  {
    if j == e - 1 {
      OwedAtEnd(h, p, e, reason);
    } else {
      OwedInside(h, p, e, j, reason);
    }
  }

  lemma MarksFitBlock(h: seq<Item>, p: nat, e: nat)
    requires IsBlock(h, p, e)
    ensures BlockFits(h, KeptMarks(h), Extras(h, REPAIR_REASON), p, e)
  {
    SyntheticInBlock(h, p, e, REPAIR_REASON);
    KeptMarksFit(h, p, e);
    ExtrasFit(h, p, e, REPAIR_REASON);
  }

  /** What repair puts out, by position: the kept items in order, and at the end of every
      run one result for each call of its head that has none. */
  lemma RepairIsOutput(h: seq<Item>)
    ensures Repaired(h) == Output(h, KeptMarks(h), Extras(h, REPAIR_REASON), 0)
  {
    forall p: nat, e: nat | IsBlock(h, p, e) ensures BlockFits(h, KeptMarks(h), Extras(h, REPAIR_REASON), p, e) {
      MarksFitBlock(h, p, e);
    }
    forall i: nat | Leading(h, i) ensures !KeptMarks(h)[i] && Extras(h, REPAIR_REASON)[i] == [] {
      OwedLeading(h, i, REPAIR_REASON);
    }
    FittingIsRepaired(h, KeptMarks(h), Extras(h, REPAIR_REASON), 0);
    assert h[0..] == h;
  }

  // ----- the third pass on its own

  function All(n: nat): (m: seq<bool>)
    ensures |m| == n && forall i :: 0 <= i < n ==> m[i]
  {
    seq(n, _ => true)
  }

  lemma {:induction false} OutputWhole(h: seq<Item>, extra: seq<seq<Item>>, e: nat, j: nat, miss: seq<Item>)
    requires j < e <= |h| == |extra|
    requires forall k :: j <= k < e ==> extra[k] == if k == e - 1 then miss else []
    ensures Output(h, All(|h|), extra, j) == h[j..e] + miss + Output(h, All(|h|), extra, e)
    decreases e - j
  {
    assert h[j..e] == [h[j]] + h[j + 1..e];
    if j + 1 < e {
      OutputWhole(h, extra, e, j + 1, miss);
      Prepend([h[j]], h[j + 1..e], miss, Output(h, All(|h|), extra, e));
    }
  }

  lemma BackfillSlices(h: seq<Item>, i: nat, e: nat, reason: DanglingReason)
    requires i < e <= |h| && Calls(h[i]) != [] && e == i + 1 + RunLength(h[i + 1..])
    ensures Backfill(h[i..], reason) ==
            h[i..e] + Missing(Calls(h[i]), ResultIds(h[i + 1..e]), reason) + Backfill(h[e..], reason)
  {
    var items, k := h[i..], RunLength(h[i + 1..]);
    assert items[1..] == h[i + 1..];
    assert items[1..][..k] == h[i + 1..e];
    assert items[1..][k..] == h[e..];
    assert h[i..e] == [h[i]] + h[i + 1..e];
    Reassociate([h[i]], h[i + 1..e], Missing(Calls(h[i]), ResultIds(h[i + 1..e]), reason));
  }

  lemma NothingOwed(h: seq<Item>, i: nat, reason: DanglingReason)
    requires i < |h| && Outside(h, i) && Calls(h[i]) == []
    ensures Owed(h, i, reason) == []
  {
    if p: nat :| EndsRunOf(h, p, i) {
      if p < i {
        var q: nat, e: nat :| IsBlock(h, q, e) && q < i < e && Calls(h[q]) == [];
        assert q == p;
      }
      assert Calls(h[p]) == [];
      OwedAtEnd(h, p, i + 1, reason);
    }
  }

  lemma {:induction false} BackfillFrom(h: seq<Item>, i: nat, reason: DanglingReason)
    requires i <= |h| && Outside(h, i)
    ensures Backfill(h[i..], reason) == Output(h, All(|h|), Extras(h, reason), i)
    decreases |h| - i
  {
    if i < |h| {
      if Calls(h[i]) == [] {
        NothingOwed(h, i, reason);
        NextOutside(h, i);
        BackfillFrom(h, i + 1, reason);
        assert h[i..][1..] == h[i + 1..];
        assert [h[i]] + [] == [h[i]];
      } else {
        var e := BlockFrom(h, i);
        ExtrasFit(h, i, e, reason);
        SyntheticInBlock(h, i, e, reason);
        OutputWhole(h, Extras(h, reason), e, i, SyntheticFrom(h, i, 0, reason));
        BackfillFrom(h, e, reason);
        BackfillSlices(h, i, e, reason);
      }
    }
  }

  /** The third pass by position: every item stays, and every run ends with one result,
      naming the tool and the reason, for each call of its head that has none. */
  lemma BackfillIsOutput(h: seq<Item>, reason: DanglingReason)
    ensures Backfill(h, reason) == Output(h, All(|h|), Extras(h, reason), 0)
    ensures |Backfill(h, reason)| == |h| + Total(Extras(h, reason), 0)
  {
    BackfillFrom(h, 0, reason);
    assert h[0..] == h;
    OutputLength(h, All(|h|), Extras(h, reason), 0);
    CountAll(|h|, 0);
  }

  lemma {:induction false} CountAll(n: nat, i: nat)
    requires i <= n
    ensures Count(All(n), i) == n - i
    decreases n - i
  {
    if i < n {
      CountAll(n, i + 1);
    }
  }

  // ----- the report, from the marks

  function Negated(mark: seq<bool>): (m: seq<bool>)
    ensures |m| == |mark| && forall i :: 0 <= i < |mark| ==> m[i] == !mark[i]
  {
    seq(|mark|, i requires 0 <= i < |mark| => !mark[i])
  }

  lemma {:induction false} PickedInRun(h: seq<Item>, keep: seq<bool>, e: nat, j: nat)
    requires j <= e <= |h| == |keep| && AllResults(h[j..e])
    requires forall k :: j <= k < e ==> (keep[k] <==> h[k].callId !in ResultIds(h[k + 1..e]))
    ensures Picked(h, keep, j) == KeepLast(h[j..e]) + Picked(h, keep, e)
    decreases e - j
  {
    if j < e {
      var run, rest := h[j..e], h[j + 1..e];
      assert run[1..] == rest && run[0] == h[j];
      assert AllResults(rest) by { assert forall k :: 0 <= k < |rest| ==> rest[k] == run[k + 1]; }
      PickedInRun(h, keep, e, j + 1);
      Reassociate([h[j]], KeepLast(rest), Picked(h, keep, e));
    }
  }

  /** Marks that keep all but the superseded results of every run after a caller. */
  ghost predicate Deduplicates(h: seq<Item>, keep: seq<bool>) {
    && |h| == |keep|
    && (forall p: nat, e: nat, j: nat :: IsBlock(h, p, e) && p < j < e ==>
          (keep[j] <==> Calls(h[p]) == [] || h[j].callId !in ResultIds(h[j + 1..e])))
    && (forall i: nat :: i < |h| && (Leading(h, i) || !h[i].ToolResult?) ==> keep[i])
  }

  lemma DedupSlices(h: seq<Item>, i: nat, e: nat)
    requires i < e <= |h| && Calls(h[i]) != [] && e == i + 1 + RunLength(h[i + 1..])
    ensures Dedup(h[i..]) == [h[i]] + KeepLast(h[i + 1..e]) + Dedup(h[e..])
  {
    var items, k := h[i..], RunLength(h[i + 1..]);
    assert items[1..] == h[i + 1..];
    assert items[1..][..k] == h[i + 1..e];
    assert items[1..][k..] == h[e..];
  }

  /** Position `i` is outside every run after an item with calls, and kept. */
  ghost predicate Outside(h: seq<Item>, i: nat) {
    i < |h| && h[i].ToolResult? ==> Leading(h, i) || exists p: nat, e: nat :: IsBlock(h, p, e) && p < i < e && Calls(h[p]) == []
  }

  lemma NextOutside(h: seq<Item>, i: nat)
    requires i < |h| && Outside(h, i) && Calls(h[i]) == []
    ensures Outside(h, i + 1)
  {
    if i + 1 < |h| && h[i + 1].ToolResult? && !Leading(h, i + 1) {
      if h[i].ToolResult? {
        var p: nat, e: nat :| IsBlock(h, p, e) && p < i < e && Calls(h[p]) == [];
        assert p < i + 1 < e;
      } else {
        var e := BlockFrom(h, i);
        assert i < i + 1 < e;
      }
    }
  }

  lemma KeptOutside(h: seq<Item>, keep: seq<bool>, i: nat)
    requires Deduplicates(h, keep) && i < |h| && Outside(h, i)
    ensures keep[i]
  {
    if h[i].ToolResult? && !Leading(h, i) {
      var p: nat, e: nat :| IsBlock(h, p, e) && p < i < e && Calls(h[p]) == [];
    }
  }

  lemma PickedBlock(h: seq<Item>, keep: seq<bool>, i: nat, e: nat)
    requires Deduplicates(h, keep) && IsBlock(h, i, e) && Calls(h[i]) != []
    ensures Picked(h, keep, i) == [h[i]] + KeepLast(h[i + 1..e]) + Picked(h, keep, e)
  {
    assert AllResults(h[i + 1..e]);
    assert keep[i];
    PickedInRun(h, keep, e, i + 1);
    Reassociate([h[i]], KeepLast(h[i + 1..e]), Picked(h, keep, e));
  }

  lemma {:induction false} DedupPicks(h: seq<Item>, keep: seq<bool>, i: nat)
    requires Deduplicates(h, keep) && i <= |h| && Outside(h, i)
    ensures Dedup(h[i..]) == Picked(h, keep, i)
    decreases |h| - i
  {
    if i < |h| {
      if Calls(h[i]) == [] {
        KeptOutside(h, keep, i);
        NextOutside(h, i);
        DedupPicks(h, keep, i + 1);
        DedupOne(h[i..]);
        assert h[i..][1..] == h[i + 1..];
      } else {
        var e := BlockFrom(h, i);
        PickedBlock(h, keep, i, e);
        DedupPicks(h, keep, e);
        DedupSlices(h, i, e);
      }
    }
  }

  lemma DedupOne(items: seq<Item>)
    requires items != [] && Calls(items[0]) == []
    ensures Dedup(items) == [items[0]] + Dedup(items[1..])
  {
  }

  lemma UnsupersededDeduplicates(h: seq<Item>)
    ensures Deduplicates(h, Negated(SupersededMarks(h)))
  {
    forall p: nat, e: nat, j: nat | IsBlock(h, p, e) && p < j < e
      ensures !Superseded(h, j) <==> Calls(h[p]) == [] || h[j].callId !in ResultIds(h[j + 1..e])
    {
      SupersededInBlock(h, p, e, j);
    }
    forall i: nat | i < |h| && (Leading(h, i) || !h[i].ToolResult?) ensures !Superseded(h, i) {
      if Leading(h, i) {
        OwedLeading(h, i, REPAIR_REASON);
      }
    }
  }

  lemma StrippedCons(x: Item, rest: seq<Item>, ids: set<string>)
    ensures StrippedIds([x] + rest, ids) ==
            if x.ToolResult? then (if x.callId in ids then [] else [x.callId]) + StrippedIds(rest, ids)
            else StrippedIds(rest, CallIds(x))
  {
    assert ([x] + rest)[1..] == rest;
    assert [] + StrippedIds(rest, ids) == StrippedIds(rest, ids);
  }

  lemma StrippedStep(x: Item, rest: seq<Item>, ids: set<string>, next: set<string>, keep: bool, gone: bool)
    requires next == if x.ToolResult? then ids else CallIds(x)
    requires gone <==> keep && x.ToolResult? && x.callId !in ids
    requires !x.ToolResult? ==> keep
    ensures StrippedIds((if keep then [x] else []) + rest, ids) ==
            (if gone && x.ToolResult? then [x.callId] else []) + StrippedIds(rest, next)
  {
    StrippedCons(x, rest, ids);
    assert [] + rest == rest;
  }

  /** Stripping what is left after the first pass reports the displaced results. */
  lemma {:induction false} StrippedPicks(h: seq<Item>, keep: seq<bool>, gone: seq<bool>, i: nat)
    requires i <= |h| == |keep| == |gone| && Reports(h, keep, gone)
    ensures StrippedIds(Picked(h, keep, i), CurrentIds(h, i)) == IdsAt(h, gone, i)
    decreases |h| - i
  {
    if i < |h| {
      StrippedPicks(h, keep, gone, i + 1);
      StrippedStep(h[i], Picked(h, keep, i + 1), CurrentIds(h, i), CurrentIds(h, i + 1), keep[i], gone[i]);
    }
  }

  ghost predicate Reports(h: seq<Item>, keep: seq<bool>, gone: seq<bool>) {
    && |h| == |keep| == |gone|
    && forall k: nat :: k < |h| ==>
         && (gone[k] <==> keep[k] && h[k].ToolResult? && h[k].callId !in CurrentIds(h, k))
         && (!h[k].ToolResult? ==> keep[k])
  }

  lemma NotSuperseded(h: seq<Item>, i: nat)
    requires i < |h| && !h[i].ToolResult?
    ensures !Superseded(h, i)
  {
  }

  lemma DisplacedAreStripped(h: seq<Item>)
    ensures StrippedIds(Picked(h, Negated(SupersededMarks(h)), 0), {}) == IdsAt(h, DisplacedMarks(h), 0)
  {
    var keep, gone := Negated(SupersededMarks(h)), DisplacedMarks(h);
    forall k: nat | k < |h| ensures gone[k] <==> keep[k] && h[k].ToolResult? && h[k].callId !in CurrentIds(h, k) {
      if h[k].ToolResult? {
        OwnerIsCurrent(h, k);
      }
    }
    forall k: nat | k < |h| && !h[k].ToolResult? ensures keep[k] {
      NotSuperseded(h, k);
    }
    StrippedPicks(h, keep, gone, 0);
  }

  lemma {:induction false} PickedLength(h: seq<Item>, mark: seq<bool>, i: nat)
    requires i <= |h| == |mark|
    ensures |Picked(h, mark, i)| == Count(mark, i)
    decreases |h| - i
  {
    if i < |h| {
      PickedLength(h, mark, i + 1);
    }
  }

  lemma {:induction false} CountNegated(mark: seq<bool>, i: nat)
    requires i <= |mark|
    ensures Count(Negated(mark), i) + Count(mark, i) == |mark| - i
    decreases |mark| - i
  {
    if i < |mark| {
      CountNegated(mark, i + 1);
    }
  }

  lemma {:induction false} OutputLength(h: seq<Item>, keep: seq<bool>, extra: seq<seq<Item>>, i: nat)
    requires i <= |h| == |keep| == |extra|
    ensures |Output(h, keep, extra, i)| == Count(keep, i) + Total(extra, i)
    decreases |h| - i
  {
    if i < |h| {
      OutputLength(h, keep, extra, i + 1);
    }
  }

  lemma {:induction false} ThreeWays(h: seq<Item>, a: seq<bool>, b: seq<bool>, c: seq<bool>, i: nat)
    requires i <= |h| == |a| == |b| == |c|
    requires forall k :: 0 <= k < |h| ==> (a[k] && !b[k] && !c[k]) || (!a[k] && b[k] && !c[k]) || (!a[k] && !b[k] && c[k])
    requires forall k :: 0 <= k < |h| && c[k] ==> h[k].ToolResult?
    ensures Count(a, i) + Count(b, i) + |IdsAt(h, c, i)| == |h| - i
    decreases |h| - i
  {
    if i < |h| {
      ThreeWays(h, a, b, c, i + 1);
    }
  }

  lemma OneOfThree(h: seq<Item>)
    ensures Count(KeptMarks(h), 0) + Count(SupersededMarks(h), 0) + |IdsAt(h, DisplacedMarks(h), 0)| == |h|
  {
    forall k: nat | k < |h| && !h[k].ToolResult? ensures !Superseded(h, k) {
      NotSuperseded(h, k);
    }
    ThreeWays(h, KeptMarks(h), SupersededMarks(h), DisplacedMarks(h), 0);
  }

  /** The three parts of a report, by position: how many results are superseded, which
      are displaced, and how many are put in. */
  lemma ReportByPosition(h: seq<Item>)
    ensures Dedup(h) == Picked(h, Negated(SupersededMarks(h)), 0)
    ensures |Dedup(h)| + Count(SupersededMarks(h), 0) == |h|
    ensures StrippedIds(Dedup(h), {}) == IdsAt(h, DisplacedMarks(h), 0)
    ensures |Repaired(h)| + Count(SupersededMarks(h), 0) + |IdsAt(h, DisplacedMarks(h), 0)| == |h| + Total(Extras(h, REPAIR_REASON), 0)
  {
    var keep := Negated(SupersededMarks(h));
    UnsupersededDeduplicates(h);
    DedupPicks(h, keep, 0);
    assert h[0..] == h;
    PickedLength(h, keep, 0);
    CountNegated(SupersededMarks(h), 0);
    DisplacedAreStripped(h);
    RepairIsOutput(h);
    OutputLength(h, KeptMarks(h), Extras(h, REPAIR_REASON), 0);
    OneOfThree(h);
  }
}
