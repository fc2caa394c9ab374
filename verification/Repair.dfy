/** Repair of a history whose tool results are duplicated, displaced or
    missing: three passes over the list, proved equal to one block-by-block
    repair, and the exact condition under which that repair is final. The passes as
    the source runs them are in RepairPasses. */
module Repair {
  import opened Prelude
  import opened Conversation
  import opened Pairing

  datatype DanglingReason = UserCancelled | HarnessHalted(class_: string)

  datatype Report = Report(duplicatesRemoved: nat, strippedIds: seq<string>, syntheticInserted: nat) {
    predicate Changed() {
      duplicatesRemoved > 0 || strippedIds != [] || syntheticInserted > 0
    }
  }

  // ----- pass 1: duplicates inside one run

  /** A run with only the last result of each id. */
  function KeepLast(run: seq<Item>): (kept: seq<Item>)
  {
    if run == [] then []
    else if run[0].ToolResult? && run[0].callId in ResultIds(run[1..]) then KeepLast(run[1..])
    else [run[0]] + KeepLast(run[1..])
  }

  function Dedup(items: seq<Item>): (out: seq<Item>)
    decreases |items|
  {
    if items == [] then []
    else if Calls(items[0]) != [] then
      var k := RunLength(items[1..]);
      [items[0]] + KeepLast(items[1..][..k]) + Dedup(items[1..][k..])
    else [items[0]] + Dedup(items[1..])
  }

  // ----- pass 2: results outside their run

  function Strip(items: seq<Item>, ids: set<string>): (out: seq<Item>) {
    if items == [] then []
    else if items[0].ToolResult? then
      if items[0].callId in ids then [items[0]] + Strip(items[1..], ids) else Strip(items[1..], ids)
    else [items[0]] + Strip(items[1..], CallIds(items[0]))
  }

  function StrippedIds(items: seq<Item>, ids: set<string>): (out: seq<string>) {
    if items == [] then []
    else if items[0].ToolResult? then
      if items[0].callId in ids then StrippedIds(items[1..], ids)
      else [items[0].callId] + StrippedIds(items[1..], ids)
    else StrippedIds(items[1..], CallIds(items[0]))
  }

  /** The items that are not results without an owner, from position `i` on. */
  ghost function OwnedFrom(items: seq<Item>, i: nat): seq<Item>
    requires i <= |items|
    decreases |items| - i
  {
    if i == |items| then []
    else
      var rest := OwnedFrom(items, i + 1);
      if items[i].ToolResult? && !HasOwner(items, i) then rest else [items[i]] + rest
  }

  /** The ids of the results without an owner, from position `i` on. */
  ghost function UnownedIdsFrom(items: seq<Item>, i: nat): seq<string>
    requires i <= |items|
    decreases |items| - i
  {
    if i == |items| then []
    else
      var rest := UnownedIdsFrom(items, i + 1);
      if items[i].ToolResult? && !HasOwner(items, i) then [items[i].callId] + rest else rest
  }

  /** The ids the last item before `i` that is not a result declares. */
  function CurrentIds(items: seq<Item>, i: nat): set<string>
    requires i <= |items|
  {
    if i == 0 then {}
    else if items[i - 1].ToolResult? then CurrentIds(items, i - 1)
    else CallIds(items[i - 1])
  }

  lemma {:induction false} CurrentOwner(items: seq<Item>, i: nat, id: string)
    requires i <= |items|
    ensures id in CurrentIds(items, i) <==>
            exists p :: 0 <= p < i && id in CallIds(items[p]) && forall k :: p < k < i ==> items[k].ToolResult?
  {
    if i != 0 {
      CurrentOwner(items, i - 1, id);
    }
  }

  lemma OwnerIsCurrent(items: seq<Item>, i: nat)
    requires i < |items| && items[i].ToolResult?
    ensures HasOwner(items, i) <==> items[i].callId in CurrentIds(items, i)
  {
    CurrentOwner(items, i, items[i].callId);
    if items[i].callId in CurrentIds(items, i) {
      var p :| 0 <= p < i && items[i].callId in CallIds(items[p]) && forall k :: p < k < i ==> items[k].ToolResult?;
      assert Owns(items, p, i);
    }
  }

  /** Stripping keeps a result exactly when it has an owner, by position. */
  lemma {:induction false} StripKeepsOwned(items: seq<Item>, i: nat)
    requires i <= |items|
    ensures Strip(items[i..], CurrentIds(items, i)) == OwnedFrom(items, i)
    ensures StrippedIds(items[i..], CurrentIds(items, i)) == UnownedIdsFrom(items, i)
    decreases |items| - i
  {
    if i < |items| {
      StripKeepsOwned(items, i + 1);
      assert items[i..][1..] == items[i + 1..];
      if items[i].ToolResult? {
        OwnerIsCurrent(items, i);
      }
    }
  }

  lemma StripByPosition(items: seq<Item>)
    ensures Strip(items, {}) == OwnedFrom(items, 0)
    ensures StrippedIds(items, {}) == UnownedIdsFrom(items, 0)
  {
    StripKeepsOwned(items, 0);
    assert items[0..] == items;
  }

  // ----- pass 3: calls without a result

  function SyntheticText(name: string, reason: DanglingReason): string {
    match reason
    case UserCancelled =>
      "Tool execution was cancelled by the user (tool `" + name + "` was not executed)."
    case HarnessHalted(class_) =>
      "Tool execution was halted by the harness (" + class_ + "); the tool `" + name + "` was not executed."
  }

  function Missing(calls: seq<ToolCall>, answered: set<string>, reason: DanglingReason): (out: seq<Item>) {
    if calls == [] then []
    else if calls[0].id in answered then Missing(calls[1..], answered, reason)
    else [ToolResult(calls[0].id, SyntheticText(calls[0].name, reason), [])] + Missing(calls[1..], answered, reason)
  }

  function Backfill(items: seq<Item>, reason: DanglingReason): (out: seq<Item>)
    decreases |items|
  {
    if items == [] then []
    else if Calls(items[0]) != [] then
      var k := RunLength(items[1..]);
      var run := items[1..][..k];
      [items[0]] + (run + Missing(items[0].calls, ResultIds(run), reason)) + Backfill(items[1..][k..], reason)
    else [items[0]] + Backfill(items[1..], reason)
  }

  // ----- the whole repair, one block at a time

  const REPAIR_REASON := HarnessHalted("history_repair")

  /** The results of a run that survive: the last of each id the head declares. */
  function Kept(head: Item, run: seq<Item>): (out: seq<Item>) {
    Strip(KeepLast(run), CallIds(head))
  }

  function RepairRun(head: Item, run: seq<Item>): (out: seq<Item>) {
    Kept(head, run) + Missing(Calls(head), ResultIds(Kept(head, run)), REPAIR_REASON)
  }

  function Repaired(items: seq<Item>): (out: seq<Item>)
    decreases |items|
  {
    if items == [] then []
    else if items[0].ToolResult? then Repaired(items[1..])
    else
      var k := RunLength(items[1..]);
      [items[0]] + RepairRun(items[0], items[1..][..k]) + Repaired(items[1..][k..])
  }

  // ----- facts about one run

  lemma {:induction false} StripRunKeepsResults(run: seq<Item>, ids: set<string>)
    requires AllResults(run)
    ensures AllResults(Strip(run, ids)) && |Strip(run, ids)| <= |run|
    ensures ResultIds(Strip(run, ids)) == ResultIds(run) * ids
    ensures |Strip(run, ids)| + |StrippedIds(run, ids)| == |run|
  {
    if run != [] {
      StripRunKeepsResults(run[1..], ids);
      ResultIdsCons(run);
      if run[0].callId in ids {
        ResultIdsCons([run[0]] + Strip(run[1..], ids));
      }
    }
  }

  /** Deduplication keeps the ids, keeps one result of each, and that one is the
      last of its id in the run. */
  lemma {:induction false} KeepLastSpec(run: seq<Item>)
    requires AllResults(run)
    ensures AllResults(KeepLast(run))
    ensures ResultIds(KeepLast(run)) == ResultIds(run)
    ensures DistinctIds(KeepLast(run))
    ensures forall r :: r in KeepLast(run) ==> IsLastOfItsId(run, r)
  {
    if run != [] {
      var rest := run[1..];
      KeepLastSpec(rest);
      ResultIdsCons(run);
      forall r | r in KeepLast(rest) ensures IsLastOfItsId(run, r) {
        assert IsLastOfItsId(rest, r);
        var i :| 0 <= i < |rest| && rest[i] == r && forall k :: i < k < |rest| ==> rest[k].callId != r.callId;
        assert run[i + 1] == r;
        assert forall k :: i + 1 < k < |run| ==> run[k] == rest[k - 1];
      }
      if run[0].callId !in ResultIds(rest) {
        ResultIdsCons([run[0]] + KeepLast(rest));
        forall k | 0 < k < |run| ensures run[k].callId != run[0].callId {
          assert rest[k - 1] == run[k];
        }
        forall k | 0 <= k < |KeepLast(rest)| ensures KeepLast(rest)[k].callId != run[0].callId {
          assert KeepLast(rest)[k].callId in ResultIds(KeepLast(rest));
        }
        assert IsLastOfItsId(run, run[0]);
      }
    }
  }

  ghost predicate IsLastOfItsId(run: seq<Item>, r: Item)
    requires AllResults(run)
  {
    r.ToolResult? &&
    exists i :: 0 <= i < |run| && run[i] == r && forall k :: i < k < |run| ==> run[k].callId != r.callId
  }

  lemma {:induction false} KeepLastOfDistinct(run: seq<Item>)
    requires AllResults(run) && DistinctIds(run)
    ensures KeepLast(run) == run
  {
    if run != [] {
      KeepLastOfDistinct(run[1..]);
      DistinctCons(run);
    }
  }

  lemma {:induction false} StripOfOwn(run: seq<Item>, ids: set<string>)
    requires AllResults(run) && ResultIds(run) <= ids
    ensures Strip(run, ids) == run
  {
    if run != [] {
      ResultIdsCons(run);
      StripOfOwn(run[1..], ids);
    }
  }

  lemma {:induction false} StripKeepsDistinct(run: seq<Item>, ids: set<string>)
    requires AllResults(run) && DistinctIds(run)
    ensures DistinctIds(Strip(run, ids))
  {
    if run != [] {
      var rest := run[1..];
      StripKeepsDistinct(rest, ids);
      StripRunKeepsResults(rest, ids);
      forall k | 0 <= k < |Strip(rest, ids)| ensures Strip(rest, ids)[k].callId != run[0].callId {
        assert Strip(rest, ids)[k].callId in ResultIds(Strip(rest, ids));
        var i :| 0 <= i < |rest| && rest[i].callId == Strip(rest, ids)[k].callId;
        assert run[i + 1] == rest[i];
      }
    }
  }

  lemma KeptSpec(head: Item, run: seq<Item>)
    requires AllResults(run)
    ensures AllResults(Kept(head, run))
    ensures ResultIds(Kept(head, run)) == ResultIds(run) * CallIds(head)
    ensures DistinctIds(Kept(head, run))
  {
    KeepLastSpec(run);
    StripRunKeepsResults(KeepLast(run), CallIds(head));
    StripKeepsDistinct(KeepLast(run), CallIds(head));
  }

  /** The ids of a call list. */
  function IdsOf(calls: seq<ToolCall>): set<string> {
    set i | 0 <= i < |calls| :: calls[i].id
  }

  lemma IdsOfCons(calls: seq<ToolCall>)
    requires calls != []
    ensures IdsOf(calls) == {calls[0].id} + IdsOf(calls[1..])
  {
    forall id | id in IdsOf(calls) ensures id in {calls[0].id} + IdsOf(calls[1..]) {
      var i :| 0 <= i < |calls| && calls[i].id == id;
      if 0 < i {
        assert calls[1..][i - 1] == calls[i];
      }
    }
    forall id | id in IdsOf(calls[1..]) ensures id in IdsOf(calls) {
      var i :| 0 <= i < |calls[1..]| && calls[1..][i].id == id;
      assert calls[i + 1] == calls[1..][i];
    }
  }

  lemma {:induction false} MissingSpec(calls: seq<ToolCall>, answered: set<string>, reason: DanglingReason)
    ensures AllResults(Missing(calls, answered, reason))
    ensures ResultIds(Missing(calls, answered, reason)) == IdsOf(calls) - answered
    ensures Missing(calls, answered, reason) == [] <==> IdsOf(calls) <= answered
  {
    if calls != [] {
      MissingSpec(calls[1..], answered, reason);
      IdsOfCons(calls);
      if calls[0].id !in answered {
        ResultIdsCons(Missing(calls, answered, reason));
      }
    }
  }

  /** No id outside `answered` is declared twice. */
  ghost predicate RepeatsAnswered(calls: seq<ToolCall>, answered: set<string>) {
    forall a, b :: 0 <= a < b < |calls| && calls[a].id == calls[b].id ==> calls[a].id in answered
  }

  lemma RepeatsCons(calls: seq<ToolCall>, answered: set<string>)
    requires calls != []
    ensures RepeatsAnswered(calls, answered) <==>
            RepeatsAnswered(calls[1..], answered) && (calls[0].id in answered || calls[0].id !in IdsOf(calls[1..]))
  {
    var rest := calls[1..];
    assert forall k :: 0 < k < |calls| ==> calls[k] == rest[k - 1];
    if RepeatsAnswered(calls, answered) {
      forall a, b | 0 <= a < b < |rest| && rest[a].id == rest[b].id ensures rest[a].id in answered {
        assert calls[a + 1].id == calls[b + 1].id;
      }
    }
    if RepeatsAnswered(rest, answered) && (calls[0].id in answered || calls[0].id !in IdsOf(rest)) {
      forall a, b | 0 <= a < b < |calls| && calls[a].id == calls[b].id ensures calls[a].id in answered {
        assert rest[b - 1].id in IdsOf(rest);
        assert 0 < a ==> calls[a] == rest[a - 1];
      }
    }
  }

  lemma {:induction false} MissingDistinct(calls: seq<ToolCall>, answered: set<string>, reason: DanglingReason)
    ensures DistinctIds(Missing(calls, answered, reason)) <==> RepeatsAnswered(calls, answered)
  {
    if calls != [] {
      var rest := calls[1..];
      var all, miss := Missing(calls, answered, reason), Missing(rest, answered, reason);
      MissingDistinct(rest, answered, reason);
      MissingSpec(rest, answered, reason);
      RepeatsCons(calls, answered);
      if calls[0].id !in answered {
        assert all[1..] == miss;
        DistinctCons(all);
        assert calls[0].id in ResultIds(miss) <==> calls[0].id in IdsOf(rest);
      }
    }
  }

  lemma DistinctCons(run: seq<Item>)
    requires AllResults(run) && run != []
    ensures DistinctIds(run) <==> DistinctIds(run[1..]) && run[0].callId !in ResultIds(run[1..])
  {
    var rest := run[1..];
    assert forall k :: 0 < k < |run| ==> run[k] == rest[k - 1];
    if DistinctIds(run) {
      forall j, k | 0 <= j < k < |rest| ensures rest[j].callId != rest[k].callId {
        assert run[j + 1].callId != run[k + 1].callId;
      }
      forall k | 0 <= k < |rest| ensures rest[k].callId != run[0].callId {
        assert run[k + 1] == rest[k];
      }
    }
    if DistinctIds(rest) && run[0].callId !in ResultIds(rest) {
      forall j, k | 0 <= j < k < |run| ensures run[j].callId != run[k].callId {
        assert run[k] == rest[k - 1];
        assert rest[k - 1].callId in ResultIds(rest);
      }
    }
  }

  lemma DistinctConcat(a: seq<Item>, b: seq<Item>)
    requires AllResults(a) && AllResults(b) && ResultIds(a) !! ResultIds(b) && DistinctIds(a)
    ensures DistinctIds(a + b) <==> DistinctIds(b)
  {
    var h := a + b;
    if DistinctIds(h) {
      forall j, k | 0 <= j < k < |b| ensures b[j].callId != b[k].callId {
        assert h[j + |a|] == b[j] && h[k + |a|] == b[k];
      }
    }
    if DistinctIds(b) {
      forall j, k | 0 <= j < k < |h| ensures h[j].callId != h[k].callId {
        if j < |a| <= k {
          assert h[j] == a[j] && h[k] == b[k - |a|];
          assert a[j].callId in ResultIds(a) && b[k - |a|].callId in ResultIds(b);
        } else if |a| <= j {
          assert h[j] == b[j - |a|] && h[k] == b[k - |a|];
        }
      }
    }
  }

  /** What a repaired run holds, and when it holds no id twice. */
  lemma RepairRunSpec(head: Item, run: seq<Item>)
    requires AllResults(run)
    ensures AllResults(RepairRun(head, run))
    ensures ResultIds(RepairRun(head, run)) == CallIds(head)
    ensures DistinctIds(RepairRun(head, run)) <==> RepeatsAnswered(Calls(head), ResultIds(run))
  {
    KeptSpec(head, run);
    var kept := Kept(head, run);
    var miss := Missing(Calls(head), ResultIds(kept), REPAIR_REASON);
    MissingSpec(Calls(head), ResultIds(kept), REPAIR_REASON);
    assert IdsOf(Calls(head)) == CallIds(head);
    ResultIdsConcat(kept, miss);
    DistinctConcat(kept, miss);
    MissingDistinct(Calls(head), ResultIds(kept), REPAIR_REASON);
    assert forall a :: 0 <= a < |Calls(head)| ==> Calls(head)[a].id in CallIds(head);
  }

  /** A run that already pairs with its head is left alone, and no other is. */
  lemma RepairRunFixed(head: Item, run: seq<Item>)
    requires AllResults(run)
    ensures RepairRun(head, run) == run <==>
            ResultIds(run) == CallIds(head) && DistinctIds(run)
  {
    RepairRunSpec(head, run);
    if ResultIds(run) == CallIds(head) && DistinctIds(run) {
      KeepLastOfDistinct(run);
      StripOfOwn(run, CallIds(head));
      MissingSpec(Calls(head), ResultIds(run), REPAIR_REASON);
      assert IdsOf(Calls(head)) == CallIds(head);
    }
    if RepairRun(head, run) == run {
      assert forall a :: 0 <= a < |Calls(head)| ==> Calls(head)[a].id in CallIds(head);
    }
  }

  // ----- the three passes compose to the block repair

  lemma {:induction false} DedupRun(run: seq<Item>, rest: seq<Item>)
    requires AllResults(run)
    ensures Dedup(run + rest) == run + Dedup(rest)
  {
    if run == [] {
      assert run + rest == rest;
    } else {
      var first, more := run[0], run[1..] + rest;
      DedupRun(run[1..], rest);
      assert run + rest == [first] + more;
      DedupSkips(first, more);
      assert run == [first] + run[1..];
    }
  }

  lemma DedupSkips(first: Item, more: seq<Item>)
    requires Calls(first) == []
    ensures Dedup([first] + more) == [first] + Dedup(more)
  {
    assert ([first] + more)[1..] == more;
  }

  lemma DedupStart(items: seq<Item>)
    requires StartsRunFree(items)
    ensures StartsRunFree(Dedup(items))
  {
  }

  lemma {:induction false} StripRun(run: seq<Item>, rest: seq<Item>, ids: set<string>)
    requires AllResults(run)
    ensures Strip(run + rest, ids) == Strip(run, ids) + Strip(rest, ids)
    ensures StrippedIds(run + rest, ids) == StrippedIds(run, ids) + StrippedIds(rest, ids)
  {
    if run == [] {
      assert run + rest == rest;
    } else {
      assert (run + rest)[1..] == run[1..] + rest;
      StripRun(run[1..], rest, ids);
    }
  }

  lemma StripStart(items: seq<Item>, ids: set<string>)
    requires StartsRunFree(items)
    ensures StartsRunFree(Strip(items, ids))
    ensures Strip(items, ids) == Strip(items, {})
    ensures StrippedIds(items, ids) == StrippedIds(items, {})
  {
  }

  lemma DedupCaller(head: Item, run: seq<Item>, rest: seq<Item>)
    requires AllResults(run) && StartsRunFree(rest) && Calls(head) != []
    ensures Dedup([head] + (run + rest)) == [head] + KeepLast(run) + Dedup(rest)
  {
    var tail := run + rest;
    assert ([head] + tail)[1..] == tail;
    RunLengthUnique(run, rest);
    assert tail[..|run|] == run;
    assert tail[|run|..] == rest;
  }

  lemma DedupBlock(head: Item, run: seq<Item>, rest: seq<Item>)
    requires AllResults(run) && StartsRunFree(rest)
    ensures Dedup([head] + (run + rest)) ==
            [head] + ((if Calls(head) != [] then KeepLast(run) else run) + Dedup(rest))
  {
    if Calls(head) != [] {
      DedupCaller(head, run, rest);
    } else {
      DedupRun(run, rest);
      DedupSkips(head, run + rest);
    }
  }

  lemma StripBlock(head: Item, run: seq<Item>, rest: seq<Item>)
    requires !head.ToolResult? && AllResults(run) && StartsRunFree(rest)
    ensures Strip([head] + (run + rest), {}) == [head] + (Strip(run, CallIds(head)) + Strip(rest, {}))
  {
    var tail := run + rest;
    assert ([head] + tail)[1..] == tail;
    StripRun(run, rest, CallIds(head));
    StripStart(rest, CallIds(head));
  }

  /** One block through passes 1 and 2. */
  lemma DedupStripBlock(head: Item, run: seq<Item>, rest: seq<Item>)
    requires !head.ToolResult? && AllResults(run) && StartsRunFree(rest)
    ensures Strip(Dedup([head] + (run + rest)), {}) ==
            [head] + (Kept(head, run) + Strip(Dedup(rest), {}))
  {
    var inner := if Calls(head) != [] then KeepLast(run) else run;
    KeepLastSpec(run);
    DedupBlock(head, run, rest);
    DedupStart(rest);
    StripBlock(head, inner, Dedup(rest));
    if Calls(head) == [] {
      assert CallIds(head) == {};
      StripNothing(run);
      StripNothing(KeepLast(run));
    }
  }

  lemma {:induction false} StripNothing(run: seq<Item>)
    requires AllResults(run)
    ensures Strip(run, {}) == []
  {
    if run != [] {
      StripNothing(run[1..]);
    }
  }

  lemma BackfillBlock(head: Item, run: seq<Item>, rest: seq<Item>, reason: DanglingReason)
    requires !head.ToolResult? && AllResults(run) && StartsRunFree(rest)
    requires Calls(head) == [] ==> run == []
    ensures Backfill([head] + (run + rest), reason) ==
            [head] + (run + Missing(Calls(head), ResultIds(run), reason)) + Backfill(rest, reason)
  {
    var tail := run + rest;
    var items := [head] + tail;
    assert items[1..] == tail;
    assert items[0] == head;
    if Calls(head) != [] {
      RunLengthUnique(run, rest);
      assert tail[..|run|] == run;
      assert tail[|run|..] == rest;
    } else {
      assert tail == rest;
      assert Missing([], ResultIds(run), reason) == [];
      assert [head] + (run + []) == [head];
    }
  }

  function ThreePasses(items: seq<Item>): seq<Item> {
    Backfill(Strip(Dedup(items), {}), REPAIR_REASON)
  }

  lemma LeadingResultVanishes(items: seq<Item>)
    requires items != [] && items[0].ToolResult?
    ensures ThreePasses(items) == ThreePasses(items[1..])
  {
    assert ([items[0]] + Dedup(items[1..]))[1..] == Dedup(items[1..]);
  }

  lemma BlockThroughPasses(head: Item, run: seq<Item>, rest: seq<Item>)
    requires !head.ToolResult? && AllResults(run) && StartsRunFree(rest)
    ensures ThreePasses([head] + (run + rest)) == [head] + RepairRun(head, run) + ThreePasses(rest)
  {
    DedupStripBlock(head, run, rest);
    DedupStart(rest);
    StripStart(Dedup(rest), {});
    KeptOfSilent(head, run);
    KeptSpec(head, run);
    BackfillBlock(head, Kept(head, run), Strip(Dedup(rest), {}), REPAIR_REASON);
  }

  /** The three list passes of the source amount to repairing block by block. */
  lemma {:induction false} ThreePassesRepair(items: seq<Item>)
    ensures ThreePasses(items) == Repaired(items)
    decreases |items|
  {
    if items != [] {
      if items[0].ToolResult? {
        LeadingResultVanishes(items);
        ThreePassesRepair(items[1..]);
      } else {
        var k := RunLength(items[1..]);
        RunLengthSpec(items[1..]);
        var head, run, rest := items[0], items[1..][..k], items[1..][k..];
        SliceHead(items, k);
        BlockThroughPasses(head, run, rest);
        ThreePassesRepair(rest);
      }
    }
  }

  lemma KeptOfSilent(head: Item, run: seq<Item>)
    requires AllResults(run)
    ensures Calls(head) == [] ==> Kept(head, run) == []
  {
    KeepLastSpec(run);
    if Calls(head) == [] {
      assert CallIds(head) == {};
      StripNothing(KeepLast(run));
    }
  }

  // ----- what a repair guarantees for every history

  lemma RepairedStart(items: seq<Item>)
    requires StartsRunFree(items)
    ensures StartsRunFree(Repaired(items))
  {
  }

  lemma NonResultsBlock(head: Item, run: seq<Item>, rest: seq<Item>)
    requires !head.ToolResult? && AllResults(run)
    ensures NonResults([head] + run + rest) == [head] + NonResults(rest)
  {
    var items := [head] + run + rest;
    NonResultsConcat(run, rest);
    NonResultsOfRun(run);
    assert items[1..] == run + rest;
  }

  /** Repair keeps every item that is not a result, in order. */
  lemma {:induction false} RepairKeepsOthers(items: seq<Item>)
    ensures NonResults(Repaired(items)) == NonResults(items)
    decreases |items|
  {
    if items != [] {
      if items[0].ToolResult? {
        RepairKeepsOthers(items[1..]);
      } else {
        var k := RunLength(items[1..]);
        RunLengthSpec(items[1..]);
        var head, run, rest := items[0], items[1..][..k], items[1..][k..];
        SliceHead(items, k);
        NonResultsBlock(head, run, rest);
        RepairRunSpec(head, run);
        NonResultsBlock(head, RepairRun(head, run), Repaired(rest));
        RepairKeepsOthers(rest);
      }
    }
  }

  /** After one repair no result is displaced and no call is unanswered, whatever
      the history was; in particular the compaction check finds nothing. */
  lemma {:induction false} RepairAnswersEveryCall(items: seq<Item>)
    ensures ContiguousRuns(Repaired(items))
    ensures EveryCallAnswered(Repaired(items))
    ensures Orphans(Repaired(items), {}) == []
    decreases |items|
  {
    if items != [] {
      if items[0].ToolResult? {
        RepairAnswersEveryCall(items[1..]);
      } else {
        var k := RunLength(items[1..]);
        RunLengthSpec(items[1..]);
        var head, run, rest := items[0], items[1..][..k], items[1..][k..];
        var out := RepairRun(head, run);
        RepairAnswersEveryCall(rest);
        RepairedStart(rest);
        RepairRunSpec(head, run);
        BlockContiguous(head, out);
        BlockAnswered(head, out);
        ContiguousSplit([head] + out, Repaired(rest));
        EveryCallAnsweredSplit([head] + out, Repaired(rest));
      }
    }
    ContiguousImpliesClean(Repaired(items));
  }

  /** Every id an assistant declares more than once is answered in its run. */
  ghost predicate RepeatsAreAnswered(h: seq<Item>) {
    forall i, a, b :: 0 <= i < |h| && 0 <= a < b < |Calls(h[i])| && Calls(h[i])[a].id == Calls(h[i])[b].id ==>
                      AnsweredAt(h, i, Calls(h[i])[a].id)
  }

  lemma RepeatsSplit(a: seq<Item>, b: seq<Item>)
    requires StartsRunFree(b)
    ensures RepeatsAreAnswered(a + b) <==> RepeatsAreAnswered(a) && RepeatsAreAnswered(b)
  {
    var h := a + b;
    forall i, id
      ensures AnsweredAt(h, i, id) <==>
              if i < |a| then AnsweredAt(a, i, id) else AnsweredAt(b, i - |a|, id)
    {
      AnsweredAtSplit(a, b, i, id);
    }
    assert forall i :: 0 <= i < |a| ==> h[i] == a[i];
    assert forall i :: 0 <= i < |b| ==> h[i + |a|] == b[i];
    if RepeatsAreAnswered(h) {
      forall i, c, d | 0 <= i < |b| && 0 <= c < d < |Calls(b[i])| && Calls(b[i])[c].id == Calls(b[i])[d].id
        ensures AnsweredAt(b, i, Calls(b[i])[c].id)
      {
        assert Calls(h[i + |a|])[c].id == Calls(h[i + |a|])[d].id;
      }
      forall i, c, d | 0 <= i < |a| && 0 <= c < d < |Calls(a[i])| && Calls(a[i])[c].id == Calls(a[i])[d].id
        ensures AnsweredAt(a, i, Calls(a[i])[c].id)
      {
        assert Calls(h[i])[c].id == Calls(h[i])[d].id;
      }
    }
    if RepeatsAreAnswered(a) && RepeatsAreAnswered(b) {
      forall i, c, d | 0 <= i < |h| && 0 <= c < d < |Calls(h[i])| && Calls(h[i])[c].id == Calls(h[i])[d].id
        ensures AnsweredAt(h, i, Calls(h[i])[c].id)
      {
        if i < |a| {
          assert Calls(a[i])[c].id == Calls(a[i])[d].id;
        } else {
          assert h[i] == b[i - |a|];
          assert Calls(b[i - |a|])[c].id == Calls(b[i - |a|])[d].id;
        }
      }
    }
  }

  lemma RepeatsBlock(head: Item, run: seq<Item>)
    requires !head.ToolResult? && AllResults(run)
    ensures RepeatsAreAnswered([head] + run) <==> RepeatsAnswered(Calls(head), ResultIds(run))
  {
    var h := [head] + run;
    forall id ensures AnsweredAt(h, 0, id) <==> id in CallIds(head) && id in ResultIds(run) {
      BlockAnsweredAt(head, run, id);
    }
    assert h[0] == head;
    assert forall i :: 0 < i < |h| ==> h[i] == run[i - 1];
    assert forall i :: 0 < i < |h| ==> Calls(h[i]) == [];
    assert forall a :: 0 <= a < |Calls(head)| ==> Calls(head)[a].id in CallIds(head);
    if RepeatsAreAnswered(h) {
      forall a, b | 0 <= a < b < |Calls(head)| && Calls(head)[a].id == Calls(head)[b].id
        ensures Calls(head)[a].id in ResultIds(run)
      {
        assert Calls(h[0])[a].id == Calls(h[0])[b].id;
      }
    }
  }

  lemma LeadingResult(items: seq<Item>)
    requires items != [] && items[0].ToolResult?
    ensures RepeatsAreAnswered(items) <==> RepeatsAreAnswered(items[1..])
  {
    var rest := items[1..];
    assert forall k :: 0 < k < |items| ==> items[k] == rest[k - 1];
    assert Calls(items[0]) == [];
    forall i, id | 0 <= i < |rest| ensures AnsweredAt(items, i + 1, id) <==> AnsweredAt(rest, i, id) {
      forall j ensures Owns(items, i + 1, j + 1) <==> Owns(rest, i, j) {
        if Owns(items, i + 1, j + 1) {
          forall k | i < k < j ensures rest[k].ToolResult? {
            assert items[k + 1].ToolResult?;
          }
        }
        if Owns(rest, i, j) {
          forall k | i + 1 < k < j + 1 ensures items[k].ToolResult? {
            assert rest[k - 1].ToolResult?;
          }
        }
      }
      if AnsweredAt(items, i + 1, id) {
        var j :| Owns(items, i + 1, j) && items[j].callId == id;
        assert Owns(items, i + 1, (j - 1) + 1);
        assert Owns(rest, i, j - 1) && rest[j - 1].callId == id;
      }
      if AnsweredAt(rest, i, id) {
        var j :| Owns(rest, i, j) && rest[j].callId == id;
        assert Owns(items, i + 1, j + 1) && items[j + 1].callId == id;
      }
    }
    if RepeatsAreAnswered(items) {
      forall i, a, b | 0 <= i < |rest| && 0 <= a < b < |Calls(rest[i])| && Calls(rest[i])[a].id == Calls(rest[i])[b].id
        ensures AnsweredAt(rest, i, Calls(rest[i])[a].id)
      {
        assert items[i + 1] == rest[i];
        assert AnsweredAt(items, i + 1, Calls(items[i + 1])[a].id);
      }
    }
    if RepeatsAreAnswered(rest) {
      forall i, a, b | 0 <= i < |items| && 0 <= a < b < |Calls(items[i])| && Calls(items[i])[a].id == Calls(items[i])[b].id
        ensures AnsweredAt(items, i, Calls(items[i])[a].id)
      {
        assert 0 < i && items[i] == rest[i - 1];
        assert AnsweredAt(rest, i - 1, Calls(rest[i - 1])[a].id);
      }
    }
  }

  /** One repair leaves exactly one result per call id if and only if no
      assistant declares an unanswered id twice. */
  lemma {:induction false} RepairPairsIff(items: seq<Item>)
    ensures WellPaired(Repaired(items)) <==> RepeatsAreAnswered(items)
    decreases |items|
  {
    if items != [] {
      if items[0].ToolResult? {
        LeadingResult(items);
        RepairPairsIff(items[1..]);
      } else {
        var k := RunLength(items[1..]);
        RunLengthSpec(items[1..]);
        var head, run, rest := items[0], items[1..][..k], items[1..][k..];
        var out := RepairRun(head, run);
        SliceHead(items, k);
        RepairPairsIff(rest);
        RepairedStart(rest);
        WellPairedSplit([head] + out, Repaired(rest));
        RepeatsSplit([head] + run, rest);
        RepeatsBlock(head, run);
        RepairRunSpec(head, run);
        BlockContiguous(head, out);
        BlockAnswered(head, out);
        BlockDouble(head, out);
      }
    }
  }

  /** Repair is the identity on well-paired histories, and only on those. */
  lemma {:induction false} RepairFixedIff(items: seq<Item>)
    ensures Repaired(items) == items <==> WellPaired(items)
    decreases |items|
  {
    if items != [] {
      if items[0].ToolResult? {
        assert !HasOwner(items, 0);
        FirstIsNotResult(items[1..]);
      } else {
        var k := RunLength(items[1..]);
        RunLengthSpec(items[1..]);
        var head, run, rest := items[0], items[1..][..k], items[1..][k..];
        var out := RepairRun(head, run);
        SliceHead(items, k);
        RepairFixedIff(rest);
        RepairedStart(rest);
        WellPairedSplit([head] + run, rest);
        BlockFixedIff(head, run);
        RepairRunSpec(head, run);
        SameBlocks(head, run, rest, out, Repaired(rest));
      }
    }
  }

  lemma BlockFixedIff(head: Item, run: seq<Item>)
    requires !head.ToolResult? && AllResults(run)
    ensures RepairRun(head, run) == run <==> WellPaired([head] + run)
  {
    RepairRunFixed(head, run);
    BlockContiguous(head, run);
    BlockAnswered(head, run);
    if ResultIds(run) <= CallIds(head) {
      BlockDouble(head, run);
    }
  }

  lemma FirstIsNotResult(items: seq<Item>)
    ensures StartsRunFree(Repaired(items))
    decreases |items|
  {
    if items != [] && items[0].ToolResult? {
      FirstIsNotResult(items[1..]);
    }
  }

  lemma SameBlocks(head: Item, run: seq<Item>, rest: seq<Item>, run': seq<Item>, rest': seq<Item>)
    requires AllResults(run) && AllResults(run') && StartsRunFree(rest) && StartsRunFree(rest')
    ensures [head] + run + rest == [head] + run' + rest' <==> run == run' && rest == rest'
  {
    RunLengthUnique(run, rest);
    RunLengthUnique(run', rest');
    var l, r := [head] + run + rest, [head] + run' + rest';
    assert l[1..] == run + rest && r[1..] == run' + rest';
    assert (run + rest)[..|run|] == run && (run' + rest')[..|run'|] == run';
    assert (run + rest)[|run|..] == rest && (run' + rest')[|run'|..] == rest';
  }

  /** The documented idempotence holds exactly under the same condition. */
  lemma RepairIdempotentIff(items: seq<Item>)
    ensures Repaired(Repaired(items)) == Repaired(items) <==> RepeatsAreAnswered(items)
  {
    RepairFixedIff(Repaired(items));
    RepairPairsIff(items);
  }

  /** A second repair always finishes the job. */
  lemma TwoRepairsSuffice(items: seq<Item>)
    ensures WellPaired(Repaired(Repaired(items)))
    ensures Repaired(Repaired(Repaired(items))) == Repaired(Repaired(items))
  {
    var once := Repaired(items);
    RepairAnswersEveryCall(items);
    forall i, a, b | 0 <= i < |once| && 0 <= a < b < |Calls(once[i])| && Calls(once[i])[a].id == Calls(once[i])[b].id
      ensures AnsweredAt(once, i, Calls(once[i])[a].id)
    {
      assert Calls(once[i])[a].id in CallIds(once[i]);
    }
    RepairPairsIff(once);
    RepairIdempotentIff(once);
  }

  /** A history on which "idempotent" fails: one call id declared twice, no result. */
  lemma RepairNotIdempotentExample()
    ensures
      var h := [Assistant("", [ToolCall("c", "read", ""), ToolCall("c", "grep", "")])];
      !WellPaired(Repaired(h)) && Repaired(Repaired(h)) != Repaired(h)
  {
    var h := [Assistant("", [ToolCall("c", "read", ""), ToolCall("c", "grep", "")])];
    var calls := h[0].calls;
    assert calls[0].id == calls[1].id;
    assert !RepeatsAreAnswered(h) by {
      assert Calls(h[0])[0].id == Calls(h[0])[1].id;
      assert !AnsweredAt(h, 0, "c");
    }
    RepairPairsIff(h);
    RepairIdempotentIff(h);
  }
}
