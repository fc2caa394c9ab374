/** The three repair passes as loops over the conversation, and the whole repair with
    its report. */
module RepairPasses {
  import opened Prelude
  import opened Conversation
  import opened Pairing
  import opened Repair
  import opened RepairPositions

  /** Positions of the results of `run` that a later result of the same id
      supersedes; the run starts at `start` of the conversation. */
  method FindDuplicates(conversation: seq<Item>, start: nat, end: nat) returns (toRemove: set<nat>)
    requires start <= end <= |conversation| && AllResults(conversation[start..end])
    ensures forall x: nat :: x in toRemove <==> start <= x < end && SupersededBy(conversation, x, end)
  {
    var seen: map<string, nat> := map[];
    toRemove := {};
    for n := start to end
      invariant LastSeen(conversation, start, n, seen)
      invariant Marked(conversation, start, n, toRemove)
    {
      assert conversation[start..end][n - start] == conversation[n];
      var id := conversation[n].callId;
      MarkStep(conversation, start, n, seen, toRemove);
      SeenStep(conversation, start, n, seen);
      if id in seen {
        toRemove := toRemove + {seen[id]};
      }
      seen := seen[id := n];
    }
  }

  /** `seen` holds the last position of every id in the run so far. */
  ghost predicate LastSeen(conversation: seq<Item>, start: nat, n: nat, seen: map<string, nat>) {
    && start <= n <= |conversation|
    && (forall id :: id in seen ==>
          && start <= seen[id] < n && conversation[seen[id]].ToolResult? && conversation[seen[id]].callId == id
          && !SupersededBy(conversation, seen[id], n))
    && (forall x: nat :: start <= x < n ==> conversation[x].ToolResult? && conversation[x].callId in seen)
  }

  ghost predicate Marked(conversation: seq<Item>, start: nat, n: nat, marks: set<nat>) {
    forall x: nat :: x in marks <==> start <= x < n && SupersededBy(conversation, x, n)
  }

  lemma SeenStep(conversation: seq<Item>, start: nat, n: nat, seen: map<string, nat>)
    requires LastSeen(conversation, start, n, seen) && n < |conversation| && conversation[n].ToolResult?
    ensures LastSeen(conversation, start, n + 1, seen[conversation[n].callId := n])
  {
    forall id | id in seen && id != conversation[n].callId ensures !SupersededBy(conversation, seen[id], n + 1) {
      SupersededStep(conversation, seen[id], n);
    }
  }

  lemma MarkStep(conversation: seq<Item>, start: nat, n: nat, seen: map<string, nat>, marks: set<nat>)
    requires LastSeen(conversation, start, n, seen) && n < |conversation| && conversation[n].ToolResult?
    requires Marked(conversation, start, n, marks)
    ensures var id := conversation[n].callId;
            Marked(conversation, start, n + 1, if id in seen then marks + {seen[id]} else marks)
  {
    var id := conversation[n].callId;
    var more := if id in seen then marks + {seen[id]} else marks;
    forall x: nat ensures x in more <==> start <= x < n + 1 && SupersededBy(conversation, x, n + 1) {
      if start <= x < n {
        SupersededStep(conversation, x, n);
        if conversation[x].callId == id && x != seen[id] {
          SupersededByOther(conversation, x, seen[id], n);
        }
      }
    }
  }

  lemma SupersededStep(conversation: seq<Item>, x: nat, n: nat)
    requires x < n < |conversation| && conversation[x].ToolResult? && conversation[n].ToolResult?
    ensures SupersededBy(conversation, x, n + 1) <==>
            SupersededBy(conversation, x, n) || conversation[x].callId == conversation[n].callId
  {
    if SupersededBy(conversation, x, n) {
      var y: nat :| x < y < n && conversation[y].ToolResult? && conversation[y].callId == conversation[x].callId;
      assert x < y < n + 1;
    }
    if conversation[x].callId == conversation[n].callId {
      assert x < n < n + 1;
    }
  }

  /** Of two results with one id, the earlier is superseded. */
  lemma SupersededByOther(conversation: seq<Item>, x: nat, last: nat, n: nat)
    requires x < n <= |conversation| && last < n && x != last
    requires conversation[x].ToolResult? && conversation[last].ToolResult?
    requires conversation[x].callId == conversation[last].callId && !SupersededBy(conversation, last, n)
    ensures SupersededBy(conversation, x, n)
  {
  }

  ghost predicate SupersededBy(conversation: seq<Item>, x: nat, end: nat) {
    && x < end <= |conversation| && conversation[x].ToolResult?
    && exists y: nat :: x < y < end && conversation[y].ToolResult? && conversation[y].callId == conversation[x].callId
  }

  /** `run` without the positions in `gone`, counted from `base`. */
  ghost function Without(run: seq<Item>, base: nat, gone: set<nat>): seq<Item> {
    if run == [] then []
    else if base in gone then Without(run[1..], base + 1, gone)
    else [run[0]] + Without(run[1..], base + 1, gone)
  }

  lemma {:induction false} WithoutSuperseded(conversation: seq<Item>, start: nat, end: nat, gone: set<nat>)
    requires start <= end <= |conversation| && AllResults(conversation[start..end])
    requires forall x: nat :: start <= x < end ==> (x in gone <==> SupersededBy(conversation, x, end))
    ensures Without(conversation[start..end], start, gone) == KeepLast(conversation[start..end])
    decreases end - start
  {
    var run := conversation[start..end];
    if start < end {
      assert run[1..] == conversation[start + 1..end];
      WithoutSuperseded(conversation, start + 1, end, gone);
      assert run[0] == conversation[start];
      assert forall y :: start < y < end ==> conversation[y] == run[1..][y - start - 1];
      if run[0].callId in ResultIds(run[1..]) {
        var k :| 0 <= k < |run[1..]| && run[1..][k].callId == run[0].callId;
        assert conversation[start + 1 + k] == run[1..][k];
        assert SupersededBy(conversation, start, end);
      }
      if SupersededBy(conversation, start, end) {
        var y: nat :| start < y < end && conversation[y].ToolResult? && conversation[y].callId == run[0].callId;
        assert run[1..][y - start - 1].callId in ResultIds(run[1..]);
      }
    }
  }

  /** Remove the marked positions from the back, so earlier ones stay valid. */
  method RemoveMarked(conversation: seq<Item>, start: nat, end: nat, gone: set<nat>) returns (out: seq<Item>)
    requires start <= end <= |conversation|
    ensures out == conversation[..start] + Without(conversation[start..end], start, gone) + conversation[end..]
  {
    out := conversation;
    for n := end downto start
      invariant out == conversation[..n] + (Without(conversation[n..end], n, gone) + conversation[end..])
    {
      ghost var tail := Without(conversation[n + 1..end], n + 1, gone) + conversation[end..];
      assert conversation[n..end][1..] == conversation[n + 1..end];
      assert conversation[..n + 1] == conversation[..n] + [conversation[n]];
      assert out == conversation[..n + 1] + tail;
      if n in gone {
        out := out[..n] + out[n + 1..];
        assert out == conversation[..n] + tail;
      } else {
        Reassociate([conversation[n]], Without(conversation[n + 1..end], n + 1, gone), conversation[end..]);
        Reassociate(conversation[..n], [conversation[n]], tail);
      }
    }
    Reassociate(conversation[..start], Without(conversation[start..end], start, gone), conversation[end..]);
  }

  lemma {:induction false} KeepLastLength(run: seq<Item>)
    ensures |KeepLast(run)| <= |run|
    ensures |KeepLast(run)| == |run| ==> KeepLast(run) == run
  {
    if run != [] {
      KeepLastLength(run[1..]);
    }
  }

  method RunEnd(conversation: seq<Item>, start: nat) returns (end: nat)
    requires start <= |conversation|
    ensures start <= end <= |conversation|
    ensures AllResults(conversation[start..end]) && StartsRunFree(conversation[end..])
  {
    end := start;
    while end < |conversation| && conversation[end].ToolResult?
      invariant start <= end <= |conversation|
      invariant AllResults(conversation[start..end])
    {
      assert conversation[start..end + 1] == conversation[start..end] + [conversation[end]];
      end := end + 1;
    }
  }

  /** What the scan will end up with when it stands at `i`. */
  ghost function Outlook(out: seq<Item>, i: nat): seq<Item>
    requires i <= |out|
  {
    out[..i] + Dedup(out[i..])
  }

  lemma OutlookSkip(out: seq<Item>, i: nat)
    requires i < |out| && Calls(out[i]) == []
    ensures Outlook(out, i + 1) == Outlook(out, i)
  {
    assert out[i..] == [out[i]] + out[i + 1..];
    DedupSkips(out[i], out[i + 1..]);
    assert out[..i + 1] == out[..i] + [out[i]];
    Reassociate(out[..i], [out[i]], Dedup(out[i + 1..]));
  }

  lemma DedupSettled(before: seq<Item>, head: Item, run: seq<Item>, rest: seq<Item>)
    requires AllResults(run) && StartsRunFree(rest) && Calls(head) != [] && KeepLast(run) == run
    ensures before + Dedup([head] + (run + rest)) == before + ([head] + run) + Dedup(rest)
  {
    DedupCaller(head, run, rest);
    Reassociate(before, [head] + run, Dedup(rest));
  }

  lemma OutlookRun(out: seq<Item>, i: nat, end: nat)
    requires i < end <= |out| && Calls(out[i]) != []
    requires AllResults(out[i + 1..end]) && StartsRunFree(out[end..])
    requires KeepLast(out[i + 1..end]) == out[i + 1..end]
    ensures Outlook(out, end) == Outlook(out, i)
  {
    DedupSettled(out[..i], out[i], out[i + 1..end], out[end..]);
    SliceBlock(out, i, end);
  }

  /** Pass 1: after a removal the same window is scanned again. */
  method DedupDuplicateToolResults(items: seq<Item>) returns (out: seq<Item>, removed: nat)
    ensures out == Dedup(items) == Picked(items, Negated(SupersededMarks(items)), 0)
    ensures removed == Count(SupersededMarks(items), 0) && |out| + removed == |items|
  {
    out, removed := items, 0;
    var i := 0;
    while i < |out|
      invariant 0 <= i <= |out|
      invariant Outlook(out, i) == Outlook(items, 0)
      invariant |out| + removed == |items|
      decreases |out|, |out| - i
    {
      if Calls(out[i]) != [] {
        var end := RunEnd(out, i + 1);
        var gone := FindDuplicates(out, i + 1, end);
        WithoutSuperseded(out, i + 1, end, gone);
        if gone != {} {
          var before := out;
          out := RemoveMarked(out, i + 1, end, gone);
          DedupShrinks(before, i, end, out, gone);
          removed := removed + (|before| - |out|);
          continue;
        }
        WithoutNone(out[i + 1..end], i + 1);
        OutlookRun(out, i, end);
        i := end;
      } else {
        OutlookSkip(out, i);
        i := i + 1;
      }
    }
    assert out[..i] + [] == out && out[i..] == [];
    assert items[0..] == items && [] + Dedup(items) == Dedup(items);
    ReportByPosition(items);
  }

  lemma {:induction false} WithoutNone(run: seq<Item>, base: nat)
    ensures Without(run, base, {}) == run
  {
    if run != [] {
      WithoutNone(run[1..], base + 1);
    }
  }

  lemma {:induction false} WithoutShorter(run: seq<Item>, base: nat, gone: set<nat>)
    ensures |Without(run, base, gone)| <= |run|
    ensures (exists x :: x in gone && base <= x < base + |run|) ==> |Without(run, base, gone)| < |run|
  {
    if run != [] {
      WithoutShorter(run[1..], base + 1, gone);
    }
  }

  lemma DedupTwice(head: Item, run: seq<Item>, rest: seq<Item>)
    requires AllResults(run) && StartsRunFree(rest) && Calls(head) != []
    ensures Dedup([head] + (KeepLast(run) + rest)) == Dedup([head] + (run + rest))
  {
    KeepLastSpec(run);
    KeepLastOfDistinct(KeepLast(run));
    DedupCaller(head, run, rest);
    DedupCaller(head, KeepLast(run), rest);
  }

  /** Removing superseded results shortens the list and leaves its
      deduplication unchanged. */
  lemma DedupShrinks(before: seq<Item>, i: nat, end: nat, after: seq<Item>, gone: set<nat>)
    requires i < end <= |before| && Calls(before[i]) != []
    requires AllResults(before[i + 1..end]) && StartsRunFree(before[end..])
    requires gone != {} && forall x :: x in gone ==> i + 1 <= x < end
    requires Without(before[i + 1..end], i + 1, gone) == KeepLast(before[i + 1..end])
    requires after == before[..i + 1] + KeepLast(before[i + 1..end]) + before[end..]
    ensures |after| < |before|
    ensures i < |after| && Outlook(after, i) == Outlook(before, i)
  {
    var run, rest := before[i + 1..end], before[end..];
    WithoutShorter(run, i + 1, gone);
    var x :| x in gone;
    DedupTwice(before[i], run, rest);
    SliceBlock(before, i, end);
    SliceReplaced(before, i, end, KeepLast(run));
  }

  function StripScan(items: seq<Item>, ids: set<string>, out: seq<Item>, stripped: seq<string>): (seq<Item>, seq<string>)
    decreases |items|
  {
    if items == [] then (out, stripped)
    else if items[0].ToolResult? then
      if items[0].callId in ids then StripScan(items[1..], ids, out + [items[0]], stripped)
      else StripScan(items[1..], ids, out, stripped + [items[0].callId])
    else StripScan(items[1..], CallIds(items[0]), out + [items[0]], stripped)
  }

  lemma {:induction false} StripScanSpec(items: seq<Item>, ids: set<string>, out: seq<Item>, stripped: seq<string>)
    ensures StripScan(items, ids, out, stripped) == (out + Strip(items, ids), stripped + StrippedIds(items, ids))
    ensures |Strip(items, ids)| + |StrippedIds(items, ids)| == |items|
    decreases |items|
  {
    if items == [] {
      assert out + [] == out && stripped + [] == stripped;
    } else {
      var x, rest := items[0], items[1..];
      if x.ToolResult? && x.callId !in ids {
        StripScanSpec(rest, ids, out, stripped + [x.callId]);
        Reassociate(stripped, [x.callId], StrippedIds(rest, ids));
      } else {
        var ids' := if x.ToolResult? then ids else CallIds(x);
        StripScanSpec(rest, ids', out + [x], stripped);
        Reassociate(out, [x], Strip(rest, ids'));
      }
    }
  }

  /** Pass 2. */
  method StripDisplacedToolResults(items: seq<Item>) returns (out: seq<Item>, stripped: seq<string>)
    ensures out == Strip(items, {}) == OwnedFrom(items, 0)
    ensures stripped == StrippedIds(items, {}) == UnownedIdsFrom(items, 0)
    ensures |out| + |stripped| == |items|
  {
    var runIds: set<string> := {};
    out, stripped := [], [];
    for n := 0 to |items|
      invariant StripScan(items[n..], runIds, out, stripped) == StripScan(items, {}, [], [])
    {
      assert items[n..][1..] == items[n + 1..];
      match items[n] {
        case Assistant(_, _) =>
          runIds := CallIds(items[n]);
          out := out + [items[n]];
        case ToolResult(id, _, _) =>
          if id in runIds {
            out := out + [items[n]];
          } else {
            stripped := stripped + [id];
          }
        case _ =>
          assert CallIds(items[n]) == {};
          runIds := {};
          out := out + [items[n]];
      }
    }
    StripScanSpec(items, {}, [], []);
    StripByPosition(items);
  }

  // ----- pass 3 in two phases: find the repair sites, then splice from the back

  datatype Site = Site(at: nat, synthetic: seq<Item>)

  function Splice(conversation: seq<Item>, site: Site): seq<Item>
    requires site.at <= |conversation|
  {
    conversation[..site.at] + site.synthetic + conversation[site.at..]
  }

  ghost predicate SitesWithin(sites: seq<Site>, bound: nat) {
    forall s :: 0 <= s < |sites| ==> sites[s].at <= bound
  }

  ghost function SpliceAll(conversation: seq<Item>, sites: seq<Site>): seq<Item>
    requires SitesWithin(sites, |conversation|)
    decreases |sites|
  {
    if sites == [] then conversation
    else
      var last := sites[|sites| - 1];
      SpliceAll(Splice(conversation, last), sites[..|sites| - 1])
  }

  lemma {:induction false} SpliceAllPrefix(a: seq<Item>, b: seq<Item>, sites: seq<Site>)
    requires SitesWithin(sites, |a|)
    ensures SpliceAll(a + b, sites) == SpliceAll(a, sites) + b
    decreases |sites|
  {
    if sites != [] {
      var last := sites[|sites| - 1];
      SplicePrefix(a, b, last);
      SpliceAllPrefix(Splice(a, last), b, sites[..|sites| - 1]);
    }
  }

  lemma SplicePrefix(a: seq<Item>, b: seq<Item>, site: Site)
    requires site.at <= |a|
    ensures Splice(a + b, site) == Splice(a, site) + b
  {
    assert (a + b)[..site.at] == a[..site.at];
    assert (a + b)[site.at..] == a[site.at..] + b;
    Reassociate(a[..site.at] + site.synthetic, a[site.at..], b);
  }

  /** What the first phase stands for when it has looked at `items[..i]`. */
  ghost function Planned(items: seq<Item>, i: nat, sites: seq<Site>, reason: DanglingReason): seq<Item>
    requires i <= |items| && SitesWithin(sites, i)
  {
    SpliceAll(items[..i], sites) + Backfill(items[i..], reason)
  }

  lemma PlannedSkip(items: seq<Item>, i: nat, sites: seq<Site>, reason: DanglingReason)
    requires i < |items| && SitesWithin(sites, i) && Calls(items[i]) == []
    ensures Planned(items, i + 1, sites, reason) == Planned(items, i, sites, reason)
  {
    assert items[i..][1..] == items[i + 1..];
    assert items[..i + 1] == items[..i] + [items[i]];
    SpliceAllPrefix(items[..i], [items[i]], sites);
    Reassociate(SpliceAll(items[..i], sites), [items[i]], Backfill(items[i + 1..], reason));
  }

  /** Planning a site for one block, in terms of the pieces of the list. */
  lemma SiteParts(before: seq<Item>, head: Item, run: seq<Item>, rest: seq<Item>, reason: DanglingReason)
    requires head.Assistant? && Calls(head) != [] && AllResults(run) && StartsRunFree(rest)
    ensures
      var miss := Missing(head.calls, ResultIds(run), reason);
      before + Backfill([head] + (run + rest), reason) == before + (([head] + run) + miss) + Backfill(rest, reason)
  {
    var miss := Missing(head.calls, ResultIds(run), reason);
    BackfillBlock(head, run, rest, reason);
    Reassociate([head], run, miss);
    Reassociate(before, ([head] + run) + miss, Backfill(rest, reason));
  }

  lemma SpliceLast(a: seq<Item>, b: seq<Item>, sites: seq<Site>, miss: seq<Item>)
    requires SitesWithin(sites, |a|)
    ensures SpliceAll(a + b, sites + [Site(|a + b|, miss)]) == SpliceAll(a, sites) + (b + miss)
  {
    var ab, sites' := a + b, sites + [Site(|a + b|, miss)];
    assert sites'[..|sites|] == sites;
    assert ab[..|ab|] == ab && ab[|ab|..] == [];
    assert Splice(ab, Site(|ab|, miss)) == a + (b + miss);
    SpliceAllPrefix(a, b + miss, sites);
  }

  lemma PlannedBlock(before: seq<Item>, head: Item, run: seq<Item>, rest: seq<Item>, sites: seq<Site>, sites': seq<Site>,
                     reason: DanglingReason)
    requires head.Assistant? && Calls(head) != [] && AllResults(run) && StartsRunFree(rest) && SitesWithin(sites, |before|)
    requires var miss := Missing(head.calls, ResultIds(run), reason);
             sites' == if miss == [] then sites else sites + [Site(|before + ([head] + run)|, miss)]
    ensures SitesWithin(sites', |before + ([head] + run)|)
    ensures SpliceAll(before + ([head] + run), sites') + Backfill(rest, reason) ==
            SpliceAll(before, sites) + Backfill([head] + (run + rest), reason)
  {
    var miss := Missing(head.calls, ResultIds(run), reason);
    var block := [head] + run;
    if miss == [] {
      SpliceAllPrefix(before, block, sites);
      assert block + miss == block;
    } else {
      SpliceLast(before, block, sites, miss);
    }
    SiteParts(SpliceAll(before, sites), head, run, rest, reason);
  }

  lemma PlannedSite(items: seq<Item>, i: nat, j: nat, sites: seq<Site>, sites': seq<Site>, reason: DanglingReason)
    requires i < j <= |items| && items[i].Assistant? && Calls(items[i]) != [] && SitesWithin(sites, i)
    requires AllResults(items[i + 1..j]) && StartsRunFree(items[j..])
    requires var miss := Missing(items[i].calls, ResultIds(items[i + 1..j]), reason);
             sites' == if miss == [] then sites else sites + [Site(j, miss)]
    ensures SitesWithin(sites', j)
    ensures Planned(items, j, sites', reason) == Planned(items, i, sites, reason)
  {
    SliceBlock(items, i, j);
    PlannedBlock(items[..i], items[i], items[i + 1..j], items[j..], sites, sites', reason);
  }

  method AnsweredIds(items: seq<Item>, start: nat, end: nat) returns (answered: set<string>)
    requires start <= end <= |items| && AllResults(items[start..end])
    ensures answered == ResultIds(items[start..end])
  {
    answered := {};
    for n := start to end
      invariant answered == ResultIds(items[start..n])
    {
      assert items[start..end][n - start] == items[n];
      assert items[start..n + 1] == items[start..n] + [items[n]];
      ResultIdsConcat(items[start..n], [items[n]]);
      ResultIdsCons([items[n]]);
      answered := answered + {items[n].callId};
    }
  }

  function SyntheticCount(sites: seq<Site>): nat {
    if sites == [] then 0 else SyntheticCount(sites[..|sites| - 1]) + |sites[|sites| - 1].synthetic|
  }

  lemma {:induction false} SpliceAllLength(conversation: seq<Item>, sites: seq<Site>)
    requires SitesWithin(sites, |conversation|)
    ensures |SpliceAll(conversation, sites)| == |conversation| + SyntheticCount(sites)
    decreases |sites|
  {
    if sites != [] {
      SpliceAllLength(Splice(conversation, sites[|sites| - 1]), sites[..|sites| - 1]);
    }
  }

  method SpliceFromBack(items: seq<Item>, sites: seq<Site>) returns (out: seq<Item>)
    requires SitesWithin(sites, |items|)
    ensures out == SpliceAll(items, sites)
  {
    out := items;
    assert sites[..|sites|] == sites;
    for n := |sites| downto 0
      invariant SitesWithin(sites[..n], |out|)
      invariant SpliceAll(out, sites[..n]) == SpliceAll(items, sites)
    {
      assert sites[..n + 1][..n] == sites[..n];
      out := Splice(out, sites[n]);
    }
  }

  /** Pass 3. */
  method RepairDanglingToolCalls(items: seq<Item>, reason: DanglingReason) returns (out: seq<Item>, total: nat)
    ensures out == Backfill(items, reason) == Output(items, All(|items|), Extras(items, reason), 0)
    ensures total == Total(Extras(items, reason), 0) && |out| == |items| + total
  {
    var sites: seq<Site> := [];
    var i := 0;
    while i < |items|
      invariant 0 <= i <= |items|
      invariant SitesWithin(sites, i)
      invariant Planned(items, i, sites, reason) == Planned(items, 0, [], reason)
    {
      if items[i].Assistant? && items[i].calls != [] {
        var j := RunEnd(items, i + 1);
        var answered := AnsweredIds(items, i + 1, j);
        var synthetic := Missing(items[i].calls, answered, reason);
        ghost var before := sites;
        if synthetic != [] {
          sites := sites + [Site(j, synthetic)];
        }
        PlannedSite(items, i, j, before, sites, reason);
        i := j;
      } else {
        PlannedSkip(items, i, sites, reason);
        i := i + 1;
      }
    }
    assert items[..i] == items && items[i..] == [] && items[0..] == items;
    assert SpliceAll(items, sites) + [] == SpliceAll(items, sites);
    assert [] + Backfill(items, reason) == Backfill(items, reason);
    total := SyntheticCount(sites);
    SpliceAllLength(items, sites);
    out := SpliceFromBack(items, sites);
    BackfillIsOutput(items, reason);
  }

  /** The whole repair, by position: what comes out, how many results were superseded,
      which were displaced and how many were put in. The report says "changed" exactly
      when the history was not well paired already. */
  method RepairHistory(items: seq<Item>) returns (out: seq<Item>, report: Report)
    ensures out == Repaired(items) == Output(items, KeptMarks(items), Extras(items, REPAIR_REASON), 0)
    ensures report.duplicatesRemoved == Count(SupersededMarks(items), 0)
    ensures report.strippedIds == IdsAt(items, DisplacedMarks(items), 0)
    ensures report.syntheticInserted == Total(Extras(items, REPAIR_REASON), 0)
    ensures report.Changed() <==> !WellPaired(items)
    ensures report.Changed() <==> out != items
  {
    var deduped, duplicates := DedupDuplicateToolResults(items);
    var stripped, ids := StripDisplacedToolResults(deduped);
    var backfilled, inserted := RepairDanglingToolCalls(stripped, REPAIR_REASON);
    out := backfilled;
    report := Report(duplicates, ids, inserted);
    PassesReport(items, deduped, stripped, ids, inserted);
    RepairIsOutput(items);
    ChangedIff(items, report, deduped, stripped);
  }

  /** The numbers of the single passes, in terms of the history they started from. */
  lemma PassesReport(items: seq<Item>, deduped: seq<Item>, stripped: seq<Item>, ids: seq<string>, inserted: nat)
    requires deduped == Dedup(items) && stripped == Strip(deduped, {}) && ids == StrippedIds(deduped, {})
    requires inserted == Total(Extras(stripped, REPAIR_REASON), 0)
    ensures Backfill(stripped, REPAIR_REASON) == Repaired(items)
    ensures ids == IdsAt(items, DisplacedMarks(items), 0) && inserted == Total(Extras(items, REPAIR_REASON), 0)
  {
    ThreePassesRepair(items);
    ReportByPosition(items);
    StripScanSpec(deduped, {}, [], []);
    BackfillIsOutput(stripped, REPAIR_REASON);
  }

  lemma ChangedIff(items: seq<Item>, report: Report, deduped: seq<Item>, stripped: seq<Item>)
    requires deduped == Dedup(items) && |deduped| + report.duplicatesRemoved == |items|
    requires stripped == Strip(deduped, {}) && |stripped| + |report.strippedIds| == |deduped|
    requires Backfill(stripped, REPAIR_REASON) == Repaired(items)
    requires |Repaired(items)| == |stripped| + report.syntheticInserted
    ensures report.Changed() <==> !WellPaired(items)
    ensures report.Changed() <==> Repaired(items) != items
  {
    RepairFixedIff(items);
    DedupLength(items);
    StripLength(deduped, {});
    BackfillLength(stripped, REPAIR_REASON);
    if WellPaired(items) {
      WellPairedIsQuiet(items);
    }
  }

  lemma {:induction false} DedupLength(items: seq<Item>)
    ensures |Dedup(items)| <= |items|
    ensures |Dedup(items)| == |items| ==> Dedup(items) == items
    decreases |items|
  {
    if items != [] {
      if Calls(items[0]) != [] {
        var k := RunLength(items[1..]);
        KeepLastLength(items[1..][..k]);
        DedupLength(items[1..][k..]);
        SliceHead(items, k);
      } else {
        DedupLength(items[1..]);
      }
    }
  }

  lemma {:induction false} StripLength(items: seq<Item>, ids: set<string>)
    ensures |Strip(items, ids)| <= |items|
    ensures |Strip(items, ids)| == |items| ==> Strip(items, ids) == items
  {
    if items != [] {
      StripLength(items[1..], if items[0].ToolResult? then ids else CallIds(items[0]));
    }
  }

  lemma {:induction false} BackfillLength(items: seq<Item>, reason: DanglingReason)
    ensures |items| <= |Backfill(items, reason)|
    ensures |Backfill(items, reason)| == |items| ==> Backfill(items, reason) == items
    decreases |items|
  {
    if items != [] {
      if Calls(items[0]) != [] {
        var k := RunLength(items[1..]);
        var run, rest := items[1..][..k], items[1..][k..];
        var miss := Missing(items[0].calls, ResultIds(run), reason);
        BackfillLength(rest, reason);
        SliceHead(items, k);
        BlockLength(items[0], run, miss, rest, Backfill(rest, reason));
      } else {
        BackfillLength(items[1..], reason);
      }
    }
  }

  lemma BlockLength(head: Item, run: seq<Item>, miss: seq<Item>, rest: seq<Item>, rest': seq<Item>)
    requires |rest| <= |rest'| && (|rest| == |rest'| ==> rest == rest')
    ensures |[head] + run + rest| <= |[head] + (run + miss) + rest'|
    ensures |[head] + run + rest| == |[head] + (run + miss) + rest'| ==>
            [head] + run + rest == [head] + (run + miss) + rest'
  {
    if |miss| == 0 {
      assert run + miss == run;
    }
  }

  /** On a well-paired history no pass finds anything to do. */
  lemma {:induction false} WellPairedIsQuiet(items: seq<Item>)
    requires WellPaired(items)
    ensures Dedup(items) == items && Strip(items, {}) == items
    decreases |items|
  {
    if items != [] {
      assert !HasOwner(items, 0);
      assert !items[0].ToolResult?;
      var k := RunLength(items[1..]);
      RunLengthSpec(items[1..]);
      var head, run, rest := items[0], items[1..][..k], items[1..][k..];
      SliceHead(items, k);
      WellPairedSplit([head] + run, rest);
      WellPairedIsQuiet(rest);
      BlockContiguous(head, run);
      BlockDouble(head, run);
      KeepLastOfDistinct(run);
      StripOfOwn(run, CallIds(head));
      DedupBlock(head, run, rest);
      StripBlock(head, run, rest);
    }
  }
}
