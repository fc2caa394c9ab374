/** The pairing rules between tool calls and tool results, stated by position,
    and the two checks the compaction pipeline runs against them. */
module Pairing {
  import opened Prelude
  import opened Conversation

  /** The result at `j` answers a call of the assistant at `i`, with nothing
      but results in between. */
  ghost predicate Owns(h: seq<Item>, i: int, j: int) {
    && 0 <= i < j < |h|
    && h[j].ToolResult?
    && h[j].callId in CallIds(h[i])
    && (forall k :: i < k < j ==> h[k].ToolResult?)
  }

  ghost predicate HasOwner(h: seq<Item>, j: int) {
    exists i :: Owns(h, i, j)
  }

  /** No result stands outside the contiguous run after its assistant. */
  ghost predicate ContiguousRuns(h: seq<Item>) {
    forall j :: 0 <= j < |h| && h[j].ToolResult? ==> HasOwner(h, j)
  }

  ghost predicate AnsweredAt(h: seq<Item>, i: int, id: string) {
    exists j :: Owns(h, i, j) && h[j].callId == id
  }

  ghost predicate EveryCallAnswered(h: seq<Item>) {
    forall i, id :: 0 <= i < |h| && id in CallIds(h[i]) ==> AnsweredAt(h, i, id)
  }

  ghost predicate NoDoubleAnswer(h: seq<Item>) {
    forall i, j, k :: Owns(h, i, j) && Owns(h, i, k) && h[j].callId == h[k].callId ==> j == k
  }

  /** Each assistant is followed by exactly one result per distinct call id,
      and no result stands elsewhere. */
  ghost predicate WellPaired(h: seq<Item>) {
    ContiguousRuns(h) && EveryCallAnswered(h) && NoDoubleAnswer(h)
  }

  // ----- how the rules split over whole blocks

  lemma OwnsSplit(a: seq<Item>, b: seq<Item>, i: int, j: int)
    requires StartsRunFree(b)
    ensures Owns(a + b, i, j) <==>
            if j < |a| then Owns(a, i, j) else Owns(b, i - |a|, j - |a|)
  {
    var h := a + b;
    if j < |a| {
      assert forall k :: 0 <= k < |a| ==> h[k] == a[k];
    } else {
      assert forall k :: |a| <= k < |h| ==> h[k] == b[k - |a|];
      if i < |a| <= j < |h| {
        assert h[|a|] == b[0];
      }
      if Owns(b, i - |a|, j - |a|) {
        forall k | i < k < j ensures h[k].ToolResult? {
          assert b[k - |a|].ToolResult?;
        }
      }
      if Owns(h, i, j) && |a| <= i {
        forall k | i - |a| < k < j - |a| ensures b[k].ToolResult? {
          assert h[k + |a|].ToolResult?;
        }
      }
    }
  }

  lemma ContiguousSplit(a: seq<Item>, b: seq<Item>)
    requires StartsRunFree(b)
    ensures ContiguousRuns(a + b) <==> ContiguousRuns(a) && ContiguousRuns(b)
  {
    var h := a + b;
    if ContiguousRuns(h) {
      forall j | 0 <= j < |a| && a[j].ToolResult? ensures HasOwner(a, j) {
        assert h[j] == a[j];
        assert HasOwner(h, j);
        var i :| Owns(h, i, j);
        OwnsSplit(a, b, i, j);
        assert Owns(a, i, j);
      }
      forall j | 0 <= j < |b| && b[j].ToolResult? ensures HasOwner(b, j) {
        assert h[j + |a|] == b[j];
        assert HasOwner(h, j + |a|);
        var i :| Owns(h, i, j + |a|);
        OwnsSplit(a, b, i, j + |a|);
        assert Owns(b, i - |a|, j);
      }
    }
    if ContiguousRuns(a) && ContiguousRuns(b) {
      forall j | 0 <= j < |h| && h[j].ToolResult? ensures HasOwner(h, j) {
        if j < |a| {
          assert h[j] == a[j];
          assert HasOwner(a, j);
          var i :| Owns(a, i, j);
          OwnsSplit(a, b, i, j);
          assert Owns(h, i, j);
        } else {
          assert h[j] == b[j - |a|];
          assert HasOwner(b, j - |a|);
          var i :| Owns(b, i, j - |a|);
          OwnsSplit(a, b, i + |a|, j);
          assert Owns(h, i + |a|, j);
        }
      }
    }
  }

  lemma AnsweredAtSplit(a: seq<Item>, b: seq<Item>, i: int, id: string)
    requires StartsRunFree(b)
    ensures AnsweredAt(a + b, i, id) <==>
            if i < |a| then AnsweredAt(a, i, id) else AnsweredAt(b, i - |a|, id)
  {
    var h := a + b;
    if AnsweredAt(h, i, id) {
      var j :| Owns(h, i, j) && h[j].callId == id;
      OwnsSplit(a, b, i, j);
      if j < |a| {
        assert h[j] == a[j];
        assert Owns(a, i, j) && a[j].callId == id;
      } else {
        assert h[j] == b[j - |a|];
        assert Owns(b, i - |a|, j - |a|) && b[j - |a|].callId == id;
      }
    }
    if i < |a| && AnsweredAt(a, i, id) {
      var j :| Owns(a, i, j) && a[j].callId == id;
      OwnsSplit(a, b, i, j);
      assert h[j] == a[j];
      assert Owns(h, i, j) && h[j].callId == id;
    }
    if |a| <= i && AnsweredAt(b, i - |a|, id) {
      var j :| Owns(b, i - |a|, j) && b[j].callId == id;
      OwnsSplit(a, b, i, j + |a|);
      assert h[j + |a|] == b[j];
      assert Owns(h, i, j + |a|) && h[j + |a|].callId == id;
    }
  }

  lemma EveryCallAnsweredSplit(a: seq<Item>, b: seq<Item>)
    requires StartsRunFree(b)
    ensures EveryCallAnswered(a + b) <==> EveryCallAnswered(a) && EveryCallAnswered(b)
  {
    var h := a + b;
    forall i, id | 0 <= i < |h| && id in CallIds(h[i])
      ensures AnsweredAt(h, i, id) <==>
              if i < |a| then AnsweredAt(a, i, id) else AnsweredAt(b, i - |a|, id)
    {
      AnsweredAtSplit(a, b, i, id);
    }
    assert forall i :: 0 <= i < |a| ==> h[i] == a[i];
    if EveryCallAnswered(h) {
      forall i, id | 0 <= i < |b| && id in CallIds(b[i]) ensures AnsweredAt(b, i, id) {
        assert h[i + |a|] == b[i];
        assert AnsweredAt(h, i + |a|, id);
      }
    }
  }

  lemma NoDoubleAnswerSplit(a: seq<Item>, b: seq<Item>)
    requires StartsRunFree(b)
    ensures NoDoubleAnswer(a + b) <==> NoDoubleAnswer(a) && NoDoubleAnswer(b)
  {
    var h := a + b;
    if NoDoubleAnswer(h) {
      forall i, j, k | Owns(a, i, j) && Owns(a, i, k) && a[j].callId == a[k].callId ensures j == k {
        OwnsSplit(a, b, i, j);
        OwnsSplit(a, b, i, k);
        assert h[j] == a[j] && h[k] == a[k];
      }
      forall i, j, k | Owns(b, i, j) && Owns(b, i, k) && b[j].callId == b[k].callId ensures j == k {
        OwnsSplit(a, b, i + |a|, j + |a|);
        OwnsSplit(a, b, i + |a|, k + |a|);
        assert h[j + |a|] == b[j] && h[k + |a|] == b[k];
        assert j + |a| == k + |a|;
      }
    }
    if NoDoubleAnswer(a) && NoDoubleAnswer(b) {
      forall i, j, k | Owns(h, i, j) && Owns(h, i, k) && h[j].callId == h[k].callId ensures j == k {
        OwnsSplit(a, b, i, j);
        OwnsSplit(a, b, i, k);
        if j < |a| {
          assert h[j] == a[j] && h[k] == a[k];
        } else {
          assert h[j] == b[j - |a|] && h[k] == b[k - |a|];
          assert j - |a| == k - |a|;
        }
      }
    }
  }

  lemma WellPairedSplit(a: seq<Item>, b: seq<Item>)
    requires StartsRunFree(b)
    ensures WellPaired(a + b) <==> WellPaired(a) && WellPaired(b)
  {
    ContiguousSplit(a, b);
    EveryCallAnsweredSplit(a, b);
    NoDoubleAnswerSplit(a, b);
  }

  // ----- one block: an item followed by its run of results

  ghost predicate DistinctIds(run: seq<Item>) {
    forall j, k :: 0 <= j < k < |run| && run[j].ToolResult? && run[k].ToolResult? ==>
                   run[j].callId != run[k].callId
  }

  lemma BlockOwns(head: Item, run: seq<Item>, j: int)
    requires !head.ToolResult? && AllResults(run) && 0 <= j < |run|
    ensures Owns([head] + run, 0, j + 1) <==> run[j].callId in CallIds(head)
  {
    assert ([head] + run)[j + 1] == run[j];
  }

  lemma BlockOwner(head: Item, run: seq<Item>, i: int, j: int)
    requires !head.ToolResult? && AllResults(run)
    requires Owns([head] + run, i, j)
    ensures i == 0
  {
    assert forall k :: 0 < k < |[head] + run| ==> ([head] + run)[k] == run[k - 1];
  }

  lemma BlockContiguous(head: Item, run: seq<Item>)
    requires !head.ToolResult? && AllResults(run)
    ensures ContiguousRuns([head] + run) <==> ResultIds(run) <= CallIds(head)
  {
    var h := [head] + run;
    if ContiguousRuns(h) {
      forall j | 0 <= j < |run| ensures run[j].callId in CallIds(head) {
        assert h[j + 1] == run[j];
        assert HasOwner(h, j + 1);
        var i :| Owns(h, i, j + 1);
        BlockOwner(head, run, i, j + 1);
      }
    }
    if ResultIds(run) <= CallIds(head) {
      forall j | 0 <= j < |h| && h[j].ToolResult? ensures HasOwner(h, j) {
        BlockOwns(head, run, j - 1);
        assert run[j - 1].callId in ResultIds(run);
        assert Owns(h, 0, j);
      }
    }
  }

  lemma BlockAnsweredAt(head: Item, run: seq<Item>, id: string)
    requires !head.ToolResult? && AllResults(run)
    ensures AnsweredAt([head] + run, 0, id) <==> id in CallIds(head) && id in ResultIds(run)
  {
    var h := [head] + run;
    if AnsweredAt(h, 0, id) {
      var j :| Owns(h, 0, j) && h[j].callId == id;
      assert h[j] == run[j - 1];
    }
    if id in CallIds(head) && id in ResultIds(run) {
      var j :| 0 <= j < |run| && run[j].ToolResult? && run[j].callId == id;
      BlockOwns(head, run, j);
      assert h[j + 1] == run[j];
      assert Owns(h, 0, j + 1) && h[j + 1].callId == id;
    }
  }

  lemma BlockAnswered(head: Item, run: seq<Item>)
    requires !head.ToolResult? && AllResults(run)
    ensures EveryCallAnswered([head] + run) <==> CallIds(head) <= ResultIds(run)
  {
    var h := [head] + run;
    if EveryCallAnswered(h) {
      forall id | id in CallIds(head) ensures id in ResultIds(run) {
        assert h[0] == head;
        assert AnsweredAt(h, 0, id);
        BlockAnsweredAt(head, run, id);
      }
    }
    if CallIds(head) <= ResultIds(run) {
      forall i, id | 0 <= i < |h| && id in CallIds(h[i]) ensures AnsweredAt(h, i, id) {
        assert forall k :: 0 < k < |h| ==> h[k] == run[k - 1];
        BlockAnsweredAt(head, run, id);
      }
    }
  }

  lemma BlockDouble(head: Item, run: seq<Item>)
    requires !head.ToolResult? && AllResults(run) && ResultIds(run) <= CallIds(head)
    ensures NoDoubleAnswer([head] + run) <==> DistinctIds(run)
  {
    var h := [head] + run;
    if NoDoubleAnswer(h) {
      forall j, k | 0 <= j < k < |run| ensures run[j].callId != run[k].callId {
        BlockOwns(head, run, j);
        BlockOwns(head, run, k);
        assert run[j].callId in ResultIds(run) && run[k].callId in ResultIds(run);
        assert h[j + 1] == run[j] && h[k + 1] == run[k];
      }
    }
    if DistinctIds(run) {
      forall i, j, k | Owns(h, i, j) && Owns(h, i, k) && h[j].callId == h[k].callId ensures j == k {
        BlockOwner(head, run, i, j);
        assert h[j] == run[j - 1] && h[k] == run[k - 1];
      }
    }
  }

  // ----- the "matching id anywhere before" checks

  /** Ids of the results whose call has not been declared yet, given the ids in
      `seen` declared before `items`. */
  function Orphans(items: seq<Item>, seen: set<string>): (ids: seq<string>) {
    if items == [] then []
    else
      var rest := Orphans(items[1..], seen + CallIds(items[0]));
      if items[0].ToolResult? && items[0].callId !in seen then [items[0].callId] + rest else rest
  }

  /** `items` without those results. */
  function WithoutOrphans(items: seq<Item>, seen: set<string>): (kept: seq<Item>) {
    if items == [] then []
    else
      var rest := WithoutOrphans(items[1..], seen + CallIds(items[0]));
      if items[0].ToolResult? && items[0].callId !in seen then rest else [items[0]] + rest
  }

  /** Every id some item of `items` declares. */
  function Declared(items: seq<Item>): set<string> {
    set i, id | 0 <= i < |items| && id in CallIds(items[i]) :: id
  }

  lemma DeclaredCons(items: seq<Item>)
    requires items != []
    ensures Declared(items) == CallIds(items[0]) + Declared(items[1..])
  {
    forall id | id in Declared(items) ensures id in CallIds(items[0]) + Declared(items[1..]) {
      var i :| 0 <= i < |items| && id in CallIds(items[i]);
      if 0 < i {
        assert items[1..][i - 1] == items[i];
      }
    }
    forall id | id in Declared(items[1..]) ensures id in Declared(items) {
      var i :| 0 <= i < |items[1..]| && id in CallIds(items[1..][i]);
      assert items[i + 1] == items[1..][i];
    }
  }

  /** A result whose id nothing before it declares. */
  ghost predicate OrphanAt(h: seq<Item>, j: int) {
    0 <= j < |h| && h[j].ToolResult? && forall i :: 0 <= i < j ==> h[j].callId !in CallIds(h[i])
  }

  /** The ids of the orphaned results from position `i` on, in order. */
  ghost function OrphanIdsFrom(h: seq<Item>, i: nat): seq<string>
    requires i <= |h|
    decreases |h| - i
  {
    if i == |h| then []
    else (if OrphanAt(h, i) then [h[i].callId] else []) + OrphanIdsFrom(h, i + 1)
  }

  /** The other items from position `i` on, in order. */
  ghost function NonOrphansFrom(h: seq<Item>, i: nat): seq<Item>
    requires i <= |h|
    decreases |h| - i
  {
    if i == |h| then []
    else (if OrphanAt(h, i) then [] else [h[i]]) + NonOrphansFrom(h, i + 1)
  }

  lemma DeclaredSnoc(h: seq<Item>, i: nat)
    requires i < |h|
    ensures Declared(h[..i + 1]) == Declared(h[..i]) + CallIds(h[i])
  {
    var more := h[..i + 1];
    forall id | id in Declared(more) ensures id in Declared(h[..i]) + CallIds(h[i]) {
      var k :| 0 <= k < |more| && id in CallIds(more[k]);
      assert k < i ==> h[..i][k] == more[k];
    }
    forall id | id in Declared(h[..i]) ensures id in Declared(more) {
      var k :| 0 <= k < i && id in CallIds(h[..i][k]);
      assert more[k] == h[..i][k];
    }
    assert more[i] == h[i];
  }

  lemma OrphanIsUndeclared(h: seq<Item>, j: nat)
    requires j < |h| && h[j].ToolResult?
    ensures OrphanAt(h, j) <==> h[j].callId !in Declared(h[..j])
  {
    assert forall i :: 0 <= i < j ==> h[..j][i] == h[i];
    if h[j].callId in Declared(h[..j]) {
      var i :| 0 <= i < j && h[j].callId in CallIds(h[..j][i]);
      assert h[j].callId in CallIds(h[i]);
    }
  }

  /** Both checks by position: exactly the orphaned results are reported and removed. */
  lemma {:induction false} OrphansByPosition(h: seq<Item>, i: nat)
    requires i <= |h|
    ensures Orphans(h[i..], Declared(h[..i])) == OrphanIdsFrom(h, i)
    ensures WithoutOrphans(h[i..], Declared(h[..i])) == NonOrphansFrom(h, i)
    decreases |h| - i
  {
    if i < |h| {
      DeclaredSnoc(h, i);
      OrphansByPosition(h, i + 1);
      assert h[i..][1..] == h[i + 1..];
      if h[i].ToolResult? {
        OrphanIsUndeclared(h, i);
      }
    }
  }

  lemma OrphansFromStart(h: seq<Item>)
    ensures Orphans(h, {}) == OrphanIdsFrom(h, 0) && WithoutOrphans(h, {}) == NonOrphansFrom(h, 0)
  {
    OrphansByPosition(h, 0);
    assert h[0..] == h && Declared(h[..0]) == {};
  }

  /** The left-to-right scan both checks run, with what it has kept and
      reported so far. */
  function Scan(items: seq<Item>, seen: set<string>, kept: seq<Item>, orphans: seq<string>): (seq<Item>, seq<string>)
    decreases |items|
  {
    if items == [] then (kept, orphans)
    else if items[0].ToolResult? && items[0].callId !in seen then
      Scan(items[1..], seen, kept, orphans + [items[0].callId])
    else
      Scan(items[1..], seen + CallIds(items[0]), kept + [items[0]], orphans)
  }

  lemma {:induction false} ScanSpec(items: seq<Item>, seen: set<string>, kept: seq<Item>, orphans: seq<string>)
    ensures Scan(items, seen, kept, orphans) == (kept + WithoutOrphans(items, seen), orphans + Orphans(items, seen))
    decreases |items|
  {
    if items == [] {
      assert kept + [] == kept && orphans + [] == orphans;
    } else {
      var x, rest, seen' := items[0], items[1..], seen + CallIds(items[0]);
      SilentItem(x, seen);
      if x.ToolResult? && x.callId !in seen {
        ScanSpec(rest, seen, kept, orphans + [x.callId]);
        Reassociate(orphans, [x.callId], Orphans(rest, seen));
      } else {
        ScanSpec(rest, seen', kept + [x], orphans);
        Reassociate(kept, [x], WithoutOrphans(rest, seen'));
      }
    }
  }

  lemma SilentItem(x: Item, seen: set<string>)
    ensures !x.Assistant? ==> seen + CallIds(x) == seen
  {
    if !x.Assistant? {
      assert CallIds(x) == {};
    }
  }

  /** The read-only check of a compacted history. */
  method ValidateCompactedHistory(items: seq<Item>) returns (invalid: seq<string>)
    ensures invalid == Orphans(items, {}) == OrphanIdsFrom(items, 0)
    ensures invalid == [] <==> EveryResultDeclared(items)
  {
    var seen: set<string> := {};
    invalid := [];
    ghost var kept := [];
    for n := 0 to |items|
      invariant Scan(items[n..], seen, kept, invalid) == Scan(items, {}, [], [])
    {
      assert items[n..][1..] == items[n + 1..];
      SilentItem(items[n], seen);
      match items[n] {
        case Assistant(_, _) =>
          seen := seen + CallIds(items[n]);
          kept := kept + [items[n]];
        case ToolResult(id, _, _) =>
          if id !in seen {
            invalid := invalid + [id];
          } else {
            kept := kept + [items[n]];
          }
        case _ =>
          kept := kept + [items[n]];
      }
    }
    ScanSpec(items, {}, [], []);
    OrphansAreExact(items);
    OrphansFromStart(items);
  }

  /** Remove orphaned results, reporting their ids. */
  method SanitizeCompactedHistory(items: seq<Item>) returns (kept: seq<Item>, stripped: seq<string>)
    ensures kept == WithoutOrphans(items, {}) == NonOrphansFrom(items, 0)
    ensures stripped == Orphans(items, {}) == OrphanIdsFrom(items, 0)
  {
    var seen: set<string> := {};
    kept, stripped := [], [];
    for n := 0 to |items|
      invariant Scan(items[n..], seen, kept, stripped) == Scan(items, {}, [], [])
    {
      assert items[n..][1..] == items[n + 1..];
      SilentItem(items[n], seen);
      match items[n] {
        case Assistant(_, _) =>
          seen := seen + CallIds(items[n]);
          kept := kept + [items[n]];
        case ToolResult(id, _, _) =>
          if id in seen {
            kept := kept + [items[n]];
          } else {
            stripped := stripped + [id];
          }
        case _ =>
          kept := kept + [items[n]];
      }
    }
    ScanSpec(items, {}, [], []);
    OrphansFromStart(items);
  }

  /** What is left after sanitizing satisfies the provider invariant, and what
      was stripped is exactly what the check reports. */
  lemma SanitizedIsValid(items: seq<Item>)
    ensures EveryResultDeclared(WithoutOrphans(items, {}))
    ensures Orphans(WithoutOrphans(items, {}), {}) == []
    ensures |WithoutOrphans(items, {})| + |Orphans(items, {})| == |items|
  {
    SanitizeIsIdentityIffClean(items, {});
    SanitizedHasNoOrphans(items, {});
    OrphansAreExact(WithoutOrphans(items, {}));
  }

  /** The provider invariant: every result follows an assistant declaring its id. */
  ghost predicate EveryResultDeclared(h: seq<Item>) {
    forall j :: 0 <= j < |h| && h[j].ToolResult? ==> h[j].callId in Declared(h[..j])
  }

  lemma {:induction false} SanitizedHasNoOrphans(items: seq<Item>, seen: set<string>)
    ensures Orphans(WithoutOrphans(items, seen), seen) == []
  {
    if items != [] {
      SanitizedHasNoOrphans(items[1..], seen + CallIds(items[0]));
      var rest := WithoutOrphans(items[1..], seen + CallIds(items[0]));
      if items[0].ToolResult? {
        assert CallIds(items[0]) == {};
        assert seen + CallIds(items[0]) == seen;
      }
      assert ([items[0]] + rest)[1..] == rest;
    }
  }

  /** Sanitizing leaves a history alone exactly when there is nothing to report. */
  lemma {:induction false} SanitizeIsIdentityIffClean(items: seq<Item>, seen: set<string>)
    ensures WithoutOrphans(items, seen) == items <==> Orphans(items, seen) == []
    ensures |WithoutOrphans(items, seen)| + |Orphans(items, seen)| == |items|
  {
    if items != [] {
      SanitizeIsIdentityIffClean(items[1..], seen + CallIds(items[0]));
      var rest := WithoutOrphans(items[1..], seen + CallIds(items[0]));
      assert items == [items[0]] + items[1..];
      assert ([items[0]] + rest)[1..] == rest;
    }
  }

  lemma {:induction false} OrphansAreExact(items: seq<Item>)
    ensures Orphans(items, {}) == [] <==> EveryResultDeclared(items)
  {
    OrphansFrom(items, {});
    assert forall j :: 0 <= j < |items| ==> {} + Declared(items[..j]) == Declared(items[..j]);
  }

  lemma {:induction false} OrphansFrom(items: seq<Item>, seen: set<string>)
    ensures Orphans(items, seen) == [] <==>
            forall j :: 0 <= j < |items| && items[j].ToolResult? ==>
                        items[j].callId in seen + Declared(items[..j])
  {
    if items != [] {
      var rest := items[1..];
      var seen' := seen + CallIds(items[0]);
      OrphansFrom(rest, seen');
      forall j | 0 <= j < |rest|
        ensures seen + Declared(items[..j + 1]) == seen' + Declared(rest[..j])
      {
        assert items[..j + 1][1..] == rest[..j];
        DeclaredCons(items[..j + 1]);
      }
      assert forall j :: 0 <= j < |rest| ==> rest[j] == items[j + 1];
      assert Declared(items[..0]) == {};
      forall j | 0 <= j < |items| && items[j].ToolResult?
        ensures Orphans(items, seen) == [] ==> items[j].callId in seen + Declared(items[..j])
      {
        if 0 < j {
          assert rest[j - 1] == items[j];
        }
      }
      forall j | 0 <= j < |rest| && rest[j].ToolResult?
        ensures items[j + 1].callId in seen + Declared(items[..j + 1]) ==>
                rest[j].callId in seen' + Declared(rest[..j])
      {
      }
    }
  }

  /** The contiguous-run rule implies the weaker provider invariant, so
      sanitizing such a history strips nothing. */
  lemma ContiguousImpliesClean(h: seq<Item>)
    requires ContiguousRuns(h)
    ensures Orphans(h, {}) == []
    ensures WithoutOrphans(h, {}) == h
  {
    forall j | 0 <= j < |h| && h[j].ToolResult? ensures h[j].callId in Declared(h[..j]) {
      assert HasOwner(h, j);
      var i :| Owns(h, i, j);
      assert h[..j][i] == h[i];
    }
    OrphansAreExact(h);
    SanitizeIsIdentityIffClean(h, {});
  }
}
