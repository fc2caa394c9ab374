/** Billing ledgers under saturating arithmetic: the totals of a ledger against
    its per-model entries, over every series of recordings. */
module Ledger {
  import opened Prelude

  const I64_MAX: int := 0x7FFF_FFFF_FFFF_FFFF
  const I64_MIN: int := -0x8000_0000_0000_0000

  function Saturated(n: nat): nat {
    if n < U64_MAX then n else U64_MAX
  }

  function SatAdd(a: nat, b: nat): nat {
    Saturated(a + b)
  }

  /** Signed 64-bit saturating addition. */
  function SatAddSigned(a: int, b: int): int {
    if a + b < I64_MIN then I64_MIN else if I64_MAX < a + b then I64_MAX else a + b
  }

  datatype Totals = Totals(
    input: nat, output: nat, cachedRead: nat, reasoning: nat,
    calls: nat, durationMs: nat, cost: Option<int>, missing: nat)

  const ZERO := Totals(0, 0, 0, 0, 0, 0, None, 0)

  datatype Counter = Input | Output | CachedRead | ReasoningTokens | ModelCalls | Duration | CostMissing

  function Get(t: Totals, c: Counter): nat {
    match c
    case Input => t.input
    case Output => t.output
    case CachedRead => t.cachedRead
    case ReasoningTokens => t.reasoning
    case ModelCalls => t.calls
    case Duration => t.durationMs
    case CostMissing => t.missing
  }

  function MergeCost(a: Option<int>, b: Option<int>): Option<int> {
    if a.None? && b.None? then None
    else Some(SatAddSigned(if a.Some? then a.value else 0, if b.Some? then b.value else 0))
  }

  function Fold(t: Totals, u: Totals): Totals {
    Totals(
      SatAdd(t.input, u.input), SatAdd(t.output, u.output), SatAdd(t.cachedRead, u.cachedRead),
      SatAdd(t.reasoning, u.reasoning), SatAdd(t.calls, u.calls), SatAdd(t.durationMs, u.durationMs),
      MergeCost(t.cost, u.cost), SatAdd(t.missing, u.missing))
  }

  /** What 64-bit totals can hold, with no negative cost. */
  predicate Billable(t: Totals) {
    && t.input <= U64_MAX && t.output <= U64_MAX && t.cachedRead <= U64_MAX && t.reasoning <= U64_MAX
    && t.calls <= U64_MAX && t.durationMs <= U64_MAX && t.missing <= U64_MAX
    && (t.cost.Some? ==> 0 <= t.cost.value <= I64_MAX)
  }

  datatype Usage = Usage(prompt: nat, completion: nat, cachedPrompt: nat, reasoning: nat)

  /** Only a positive cost counts as reported. */
  function ReportedCost(raw: Option<int>): Option<int> {
    if raw.Some? && 0 < raw.value then raw else None
  }

  function FromCall(usage: Usage, durationMs: Option<nat>, cost: Option<int>): Totals {
    var reported := ReportedCost(cost);
    Totals(usage.prompt, usage.completion, usage.cachedPrompt, usage.reasoning, 1,
           if durationMs.Some? then durationMs.value else 0,
           reported, if reported.None? then 1 else 0)
  }

  // ----- the ledger

  datatype Entry = Entry(model: string, totals: Totals)

  datatype Ledger = Ledger(
    totals: Totals, models: seq<string>, byModel: map<string, Totals>, mainCalls: nat, incomplete: bool)

  const EMPTY := Ledger(ZERO, [], map[], 0, false)

  function FoldEntry(l: Ledger, e: Entry): Ledger {
    var known := e.model in l.byModel;
    l.(totals := Fold(l.totals, e.totals),
       models := if known then l.models else l.models + [e.model],
       byModel := l.byModel[e.model := Fold(if known then l.byModel[e.model] else ZERO, e.totals)])
  }

  function FoldEntries(l: Ledger, entries: seq<Entry>): Ledger {
    if entries == [] then l
    else FoldEntry(FoldEntries(l, entries[..|entries| - 1]), entries[|entries| - 1])
  }

  datatype Event =
    | MainCall(model: string, usage: Usage, durationMs: Option<nat>, cost: Option<int>)
    | Subagent(entries: seq<Entry>, partial: bool)
    | Incomplete

  function Record(l: Ledger, e: Event): Ledger {
    match e
    case MainCall(model, usage, durationMs, cost) =>
      FoldEntry(l.(mainCalls := SatAdd(l.mainCalls, 1)), Entry(model, FromCall(usage, durationMs, cost)))
    case Subagent(entries, partial) =>
      var l' := FoldEntries(l, entries);
      if partial then l'.(incomplete := true) else l'
    case Incomplete => l.(incomplete := true)
  }

  function RecordAll(events: seq<Event>): Ledger {
    if events == [] then EMPTY else Record(RecordAll(events[..|events| - 1]), events[|events| - 1])
  }

  /** The ledger object of the source. */
  class UsageLedger {
    var totals: Totals
    var models: seq<string>
    var byModel: map<string, Totals>
    var mainCalls: nat
    var incomplete: bool

    ghost function View(): Ledger
      reads this
    {
      Ledger(totals, models, byModel, mainCalls, incomplete)
    }

    constructor ()
      ensures View() == EMPTY
    {
      totals, models, byModel, mainCalls, incomplete := ZERO, [], map[], 0, false;
    }

    method AddEntry(e: Entry)
      modifies this
      ensures View() == FoldEntry(old(View()), e)
    {
      totals := Fold(totals, e.totals);
      if e.model !in byModel {
        models := models + [e.model];
        byModel := byModel[e.model := ZERO];
      }
      byModel := byModel[e.model := Fold(byModel[e.model], e.totals)];
    }

    method RecordMainLoopCall(model: string, usage: Usage, durationMs: Option<nat>, cost: Option<int>)
      modifies this
      ensures View() == Record(old(View()), MainCall(model, usage, durationMs, cost))
    {
      var call := FromCall(usage, durationMs, cost);
      mainCalls := SatAdd(mainCalls, 1);
      AddEntry(Entry(model, call));
    }

    method RecordSubagent(entries: seq<Entry>, partial: bool)
      modifies this
      ensures View() == Record(old(View()), Subagent(entries, partial))
    {
      for n := 0 to |entries|
        invariant View() == FoldEntries(old(View()), entries[..n])
      {
        assert entries[..n + 1][..n] == entries[..n];
        AddEntry(entries[n]);
      }
      assert entries[..|entries|] == entries;
      if partial {
        incomplete := true;
      }
    }

    method MarkIncomplete()
      modifies this
      ensures View() == Record(old(View()), Incomplete)
    {
      incomplete := true;
    }
  }

  // ----- every recording is a series of entries

  function EntriesOf(e: Event): seq<Entry> {
    match e
    case MainCall(model, usage, durationMs, cost) => [Entry(model, FromCall(usage, durationMs, cost))]
    case Subagent(entries, _) => entries
    case Incomplete => []
  }

  function AllEntries(events: seq<Event>): seq<Entry> {
    if events == [] then [] else AllEntries(events[..|events| - 1]) + EntriesOf(events[|events| - 1])
  }

  lemma {:induction false} FoldEntriesConcat(l: Ledger, a: seq<Entry>, b: seq<Entry>)
    ensures FoldEntries(l, a + b) == FoldEntries(FoldEntries(l, a), b)
    decreases |b|
  {
    if b == [] {
      assert a + b == a;
    } else {
      assert (a + b)[..|a + b| - 1] == a + b[..|b| - 1];
      FoldEntriesConcat(l, a, b[..|b| - 1]);
    }
  }

  lemma {:induction false} FoldEntriesIgnores(l: Ledger, l': Ledger, entries: seq<Entry>)
    requires l.totals == l'.totals && l.models == l'.models && l.byModel == l'.byModel
    ensures var f, f' := FoldEntries(l, entries), FoldEntries(l', entries);
            && f.totals == f'.totals && f.models == f'.models && f.byModel == f'.byModel
            && f.mainCalls == l.mainCalls && f.incomplete == l.incomplete
    decreases |entries|
  {
    if entries != [] {
      FoldEntriesIgnores(l, l', entries[..|entries| - 1]);
    }
  }

  /** Apart from the two flags, a ledger is the fold of its entries. */
  lemma {:induction false} LedgerIsFold(events: seq<Event>)
    ensures var l, f := RecordAll(events), FoldEntries(EMPTY, AllEntries(events));
            l.totals == f.totals && l.models == f.models && l.byModel == f.byModel
    decreases |events|
  {
    if events != [] {
      var front, e := events[..|events| - 1], events[|events| - 1];
      LedgerIsFold(front);
      var l := RecordAll(front);
      FoldEntriesConcat(EMPTY, AllEntries(front), EntriesOf(e));
      FoldEntriesIgnores(l, FoldEntries(EMPTY, AllEntries(front)), EntriesOf(e));
      if e.MainCall? {
        assert EntriesOf(e)[..0] == [];
        assert FoldEntries(l, EntriesOf(e)) == FoldEntry(l, EntriesOf(e)[0]);
      }
    }
  }

  // ----- closed forms: saturating sums are capped exact sums

  /** What can be summed over entries: a counter, the cost, or whether there is one. */
  datatype Measure = Count(counter: Counter) | Cost | Costed

  function Of(t: Totals, m: Measure): nat
    requires Billable(t)
  {
    match m
    case Count(c) => Get(t, c)
    case Cost => if t.cost.Some? then t.cost.value else 0
    case Costed => if t.cost.Some? then 1 else 0
  }

  function Limit(m: Measure): nat {
    match m
    case Count(_) => U64_MAX
    case Cost => I64_MAX
    case Costed => 1
  }

  function Capped(m: Measure, n: nat): nat {
    if n < Limit(m) then n else Limit(m)
  }

  /** Totals are determined by their measures. */
  lemma SameMeasures(t: Totals, u: Totals)
    requires Billable(t) && Billable(u) && forall m :: Of(t, m) == Of(u, m)
    ensures t == u
  {
    assert Of(t, Count(Input)) == Of(u, Count(Input)) && Of(t, Count(Output)) == Of(u, Count(Output));
    assert Of(t, Count(CachedRead)) == Of(u, Count(CachedRead));
    assert Of(t, Count(ReasoningTokens)) == Of(u, Count(ReasoningTokens));
    assert Of(t, Count(ModelCalls)) == Of(u, Count(ModelCalls)) && Of(t, Count(Duration)) == Of(u, Count(Duration));
    assert Of(t, Count(CostMissing)) == Of(u, Count(CostMissing));
    assert Of(t, Cost) == Of(u, Cost) && Of(t, Costed) == Of(u, Costed);
  }

  lemma FoldMeasure(t: Totals, u: Totals, m: Measure)
    requires Billable(t) && Billable(u)
    ensures Billable(Fold(t, u)) && Of(Fold(t, u), m) == Capped(m, Of(t, m) + Of(u, m))
  {
  }

  lemma ZeroMeasure(m: Measure)
    ensures Billable(ZERO) && Of(ZERO, m) == 0
  {
  }

  /** All entries, or those of one model. */
  datatype Selector = Every | Only(model: string) {
    predicate Selects(e: Entry) {
      Every? || e.model == model
    }
  }

  ghost predicate AllBillable(entries: seq<Entry>) {
    forall i :: 0 <= i < |entries| ==> Billable(entries[i].totals)
  }

  function Part(e: Entry, s: Selector, m: Measure): nat {
    if s.Selects(e) && Billable(e.totals) then Of(e.totals, m) else 0
  }

  /** The exact sum over the selected entries. */
  function Sum(entries: seq<Entry>, s: Selector, m: Measure): nat {
    if entries == [] then 0 else Sum(entries[..|entries| - 1], s, m) + Part(entries[|entries| - 1], s, m)
  }

  /** The saturating fold over the selected entries. */
  function Folded(entries: seq<Entry>, s: Selector): Totals {
    if entries == [] then ZERO
    else
      var front, e := Folded(entries[..|entries| - 1], s), entries[|entries| - 1];
      if s.Selects(e) then Fold(front, e.totals) else front
  }

  lemma {:induction false} FoldedIsCappedSum(entries: seq<Entry>, s: Selector, m: Measure)
    requires AllBillable(entries)
    ensures Billable(Folded(entries, s)) && Of(Folded(entries, s), m) == Capped(m, Sum(entries, s, m))
    decreases |entries|
  {
    if entries == [] {
      ZeroMeasure(m);
    } else {
      var front, e := entries[..|entries| - 1], entries[|entries| - 1];
      FoldedIsCappedSum(front, s, m);
      FoldMeasure(Folded(front, s), e.totals, m);
    }
  }

  function ModelsOf(entries: seq<Entry>): set<string> {
    set i | 0 <= i < |entries| :: entries[i].model
  }

  lemma ModelsOfSnoc(front: seq<Entry>, e: Entry)
    ensures ModelsOf(front + [e]) == ModelsOf(front) + {e.model}
  {
    var all := front + [e];
    forall k | k in ModelsOf(front) ensures k in ModelsOf(all) {
      var i :| 0 <= i < |front| && front[i].model == k;
      assert all[i] == front[i];
    }
    assert all[|front|] == e;
  }

  ghost predicate NoRepeats(models: seq<string>) {
    forall i, j :: 0 <= i < j < |models| ==> models[i] != models[j]
  }

  lemma {:induction false} LedgerTotals(entries: seq<Entry>)
    ensures FoldEntries(EMPTY, entries).totals == Folded(entries, Every)
    decreases |entries|
  {
    if entries != [] {
      LedgerTotals(entries[..|entries| - 1]);
    }
  }

  lemma {:induction false} LedgerModels(entries: seq<Entry>)
    ensures var l := FoldEntries(EMPTY, entries);
            && l.byModel.Keys == ModelsOf(entries)
            && (forall k :: k in l.models <==> k in l.byModel)
            && NoRepeats(l.models)
    decreases |entries|
  {
    if entries != [] {
      var front, e := entries[..|entries| - 1], entries[|entries| - 1];
      LedgerModels(front);
      assert entries == front + [e];
      ModelsOfSnoc(front, e);
    }
  }

  lemma {:induction false} LedgerParts(entries: seq<Entry>, k: string)
    requires k in FoldEntries(EMPTY, entries).byModel
    ensures FoldEntries(EMPTY, entries).byModel[k] == Folded(entries, Only(k))
    decreases |entries|
  {
    if entries != [] {
      var front, e := entries[..|entries| - 1], entries[|entries| - 1];
      LedgerModels(front);
      if k in FoldEntries(EMPTY, front).byModel {
        LedgerParts(front, k);
      } else {
        UnseenIsZero(front, k);
      }
    }
  }

  /** A ledger's totals and per-model entries are folds of the recorded entries. */
  lemma LedgerShape(entries: seq<Entry>)
    ensures var l := FoldEntries(EMPTY, entries);
            && l.totals == Folded(entries, Every)
            && l.byModel.Keys == ModelsOf(entries)
            && (forall k :: k in l.models <==> k in l.byModel)
            && (forall k :: k in l.byModel ==> l.byModel[k] == Folded(entries, Only(k)))
            && NoRepeats(l.models)
  {
    LedgerTotals(entries);
    LedgerModels(entries);
    forall k | k in FoldEntries(EMPTY, entries).byModel
      ensures FoldEntries(EMPTY, entries).byModel[k] == Folded(entries, Only(k))
    {
      LedgerParts(entries, k);
    }
  }

  lemma {:induction false} UnseenIsZero(entries: seq<Entry>, k: string)
    requires k !in ModelsOf(entries)
    ensures Folded(entries, Only(k)) == ZERO
    decreases |entries|
  {
    if entries != [] {
      var front, e := entries[..|entries| - 1], entries[|entries| - 1];
      assert entries == front + [e];
      ModelsOfSnoc(front, e);
      UnseenIsZero(front, k);
    }
  }

  // ----- order of recording

  lemma {:induction false} SumConcat(a: seq<Entry>, b: seq<Entry>, s: Selector, m: Measure)
    ensures Sum(a + b, s, m) == Sum(a, s, m) + Sum(b, s, m)
    decreases |b|
  {
    if b == [] {
      assert a + b == a;
    } else {
      assert (a + b)[..|a + b| - 1] == a + b[..|b| - 1];
      SumConcat(a, b[..|b| - 1], s, m);
    }
  }

  lemma SumOne(e: Entry, s: Selector, m: Measure)
    ensures Sum([e], s, m) == Part(e, s, m)
  {
    assert [e][..0] == [];
  }

  lemma SplitAt<T>(s: seq<T>, i: nat)
    requires i < |s|
    ensures s == s[..i] + ([s[i]] + s[i + 1..])
  {
  }

  lemma SumRemove(entries: seq<Entry>, i: nat, s: Selector, m: Measure)
    requires i < |entries|
    ensures Sum(entries, s, m) == Sum(entries[..i] + entries[i + 1..], s, m) + Part(entries[i], s, m)
  {
    var a, e, b := entries[..i], entries[i], entries[i + 1..];
    SplitAt(entries, i);
    SumConcat(a, [e] + b, s, m);
    SumConcat([e], b, s, m);
    SumConcat(a, b, s, m);
    SumOne(e, s, m);
  }

  /** A permutation holds the first element somewhere; without it, both sides are
      permutations again. */
  lemma MatchFirst<T>(a: seq<T>, b: seq<T>) returns (i: nat)
    requires multiset(a) == multiset(b) && a != []
    ensures i < |b| && b[i] == a[0] && multiset(a[..0] + a[1..]) == multiset(b[..i] + b[i + 1..])
  {
    assert a[0] in multiset(b);
    i :| 0 <= i < |b| && b[i] == a[0];
    RemoveOne(a, 0);
    RemoveOne(b, i);
  }

  lemma {:induction false} SumPermuted(a: seq<Entry>, b: seq<Entry>, s: Selector, m: Measure)
    requires multiset(a) == multiset(b)
    ensures Sum(a, s, m) == Sum(b, s, m)
    decreases |a|
  {
    if a == [] {
      assert |b| == |multiset(b)| == 0;
    } else {
      var i := MatchFirst(a, b);
      SumPermuted(a[..0] + a[1..], b[..i] + b[i + 1..], s, m);
      SumRemove(a, 0, s, m);
      SumRemove(b, i, s, m);
    }
  }

  lemma RemoveOne<T>(s: seq<T>, i: nat)
    requires i < |s|
    ensures multiset(s[..i] + s[i + 1..]) == multiset(s) - multiset{s[i]}
  {
    SplitAt(s, i);
  }

  lemma ModelsPermuted(a: seq<Entry>, b: seq<Entry>)
    requires multiset(a) == multiset(b)
    ensures ModelsOf(a) <= ModelsOf(b)
  {
    forall k | k in ModelsOf(a) ensures k in ModelsOf(b) {
      var i :| 0 <= i < |a| && a[i].model == k;
      assert a[i] in multiset(b);
      var j :| 0 <= j < |b| && b[j] == a[i];
    }
  }

  lemma FoldedPermuted(a: seq<Entry>, b: seq<Entry>, s: Selector)
    requires multiset(a) == multiset(b) && AllBillable(a) && AllBillable(b)
    ensures Folded(a, s) == Folded(b, s)
  {
    forall m ensures Billable(Folded(a, s)) && Billable(Folded(b, s)) && Of(Folded(a, s), m) == Of(Folded(b, s), m) {
      FoldedIsCappedSum(a, s, m);
      FoldedIsCappedSum(b, s, m);
      SumPermuted(a, b, s, m);
    }
    FoldedIsCappedSum(a, s, Cost);
    SameMeasures(Folded(a, s), Folded(b, s));
  }

  /** The bill does not depend on the order of recording, up to key order. */
  lemma BillIgnoresOrder(a: seq<Event>, b: seq<Event>)
    requires multiset(AllEntries(a)) == multiset(AllEntries(b))
    requires AllBillable(AllEntries(a))
    ensures RecordAll(a).totals == RecordAll(b).totals
    ensures RecordAll(a).byModel == RecordAll(b).byModel
  {
    var x, y := AllEntries(a), AllEntries(b);
    forall i | 0 <= i < |y| ensures Billable(y[i].totals) {
      assert y[i] in multiset(x);
    }
    LedgerIsFold(a);
    LedgerIsFold(b);
    FoldIgnoresOrder(x, y);
  }

  lemma FoldIgnoresOrder(x: seq<Entry>, y: seq<Entry>)
    requires multiset(x) == multiset(y) && AllBillable(x) && AllBillable(y)
    ensures FoldEntries(EMPTY, x).totals == FoldEntries(EMPTY, y).totals
    ensures FoldEntries(EMPTY, x).byModel == FoldEntries(EMPTY, y).byModel
  {
    LedgerShape(x);
    LedgerShape(y);
    FoldedPermuted(x, y, Every);
    ModelFoldsPermuted(x, y);
    assert FoldEntries(EMPTY, x).byModel.Keys == FoldEntries(EMPTY, y).byModel.Keys;
  }

  lemma ModelFoldsPermuted(x: seq<Entry>, y: seq<Entry>)
    requires multiset(x) == multiset(y) && AllBillable(x) && AllBillable(y)
    ensures ModelsOf(x) == ModelsOf(y)
    ensures forall k :: k in ModelsOf(x) ==> Folded(x, Only(k)) == Folded(y, Only(k))
  {
    ModelsPermuted(x, y);
    ModelsPermuted(y, x);
    forall k | k in ModelsOf(x) ensures Folded(x, Only(k)) == Folded(y, Only(k)) {
      FoldedPermuted(x, y, Only(k));
    }
  }

  // ----- conservation

  /** One entry per model, in key order. */
  function PerModel(l: Ledger, n: nat): seq<Entry>
    requires n <= |l.models| && forall i :: 0 <= i < |l.models| ==> l.models[i] in l.byModel
  {
    if n == 0 then [] else PerModel(l, n - 1) + [Entry(l.models[n - 1], l.byModel[l.models[n - 1]])]
  }

  /** The exact sum over the first `n` models. */
  function SumOver(entries: seq<Entry>, models: seq<string>, m: Measure): nat {
    if models == [] then 0
    else SumOver(entries, models[..|models| - 1], m) + Sum(entries, Only(models[|models| - 1]), m)
  }

  lemma SumSnoc(front: seq<Entry>, e: Entry, s: Selector, m: Measure)
    ensures Sum(front + [e], s, m) == Sum(front, s, m) + Part(e, s, m)
  {
    SumConcat(front, [e], s, m);
    SumOne(e, s, m);
  }

  lemma LastIsFresh(models: seq<string>, k: string)
    requires NoRepeats(models) && models != []
    ensures var n := |models| - 1;
            && NoRepeats(models[..n])
            && (k in models <==> k in models[..n] || k == models[n])
            && models[n] !in models[..n]
  {
    var n := |models| - 1;
    assert models == models[..n] + [models[n]];
  }

  lemma {:induction false} SumOverSnoc(front: seq<Entry>, e: Entry, models: seq<string>, m: Measure)
    requires NoRepeats(models)
    ensures SumOver(front + [e], models, m) ==
            SumOver(front, models, m) + if e.model in models then Part(e, Every, m) else 0
    decreases |models|
  {
    if models != [] {
      var n := |models| - 1;
      LastIsFresh(models, e.model);
      SumOverSnoc(front, e, models[..n], m);
      SumSnoc(front, e, Only(models[n]), m);
    }
  }

  lemma {:induction false} SumOverModels(entries: seq<Entry>, models: seq<string>, m: Measure)
    requires NoRepeats(models) && forall k :: k in ModelsOf(entries) ==> k in models
    ensures SumOver(entries, models, m) == Sum(entries, Every, m)
    decreases |entries|
  {
    if entries == [] {
      SumOverNothing(models, m);
    } else {
      var front, e := entries[..|entries| - 1], entries[|entries| - 1];
      assert entries == front + [e];
      ModelsOfSnoc(front, e);
      SumOverModels(front, models, m);
      SumOverSnoc(front, e, models, m);
    }
  }

  lemma {:induction false} SumOverNothing(models: seq<string>, m: Measure)
    ensures SumOver([], models, m) == 0
    decreases |models|
  {
    if models != [] {
      SumOverNothing(models[..|models| - 1], m);
    }
  }

  lemma CappedAdd(m: Measure, a: nat, b: nat, x: nat)
    requires Capped(m, a) == Capped(m, b)
    ensures Capped(m, a + Capped(m, x)) == Capped(m, b + x)
  {
  }

  lemma PerModelStep(parts: seq<Entry>, part: Entry, entries: seq<Entry>, models: seq<string>, k: string, m: Measure)
    requires AllBillable(parts) && Billable(part.totals)
    requires Capped(m, Sum(parts, Every, m)) == Capped(m, SumOver(entries, models, m))
    requires Of(part.totals, m) == Capped(m, Sum(entries, Only(k), m))
    ensures AllBillable(parts + [part])
    ensures Capped(m, Sum(parts + [part], Every, m)) == Capped(m, SumOver(entries, models + [k], m))
  {
    SumSnoc(parts, part, Every, m);
    assert (models + [k])[..|models|] == models;
    CappedAdd(m, Sum(parts, Every, m), SumOver(entries, models, m), Sum(entries, Only(k), m));
  }

  /** Summing capped parts and capping again is capping the exact sum. */
  lemma {:induction false} PerModelSum(l: Ledger, entries: seq<Entry>, n: nat, m: Measure)
    requires AllBillable(entries) && n <= |l.models|
    requires forall i :: 0 <= i < |l.models| ==> l.models[i] in l.byModel
    requires forall k :: k in l.byModel ==> l.byModel[k] == Folded(entries, Only(k))
    ensures AllBillable(PerModel(l, n))
    ensures Capped(m, Sum(PerModel(l, n), Every, m)) == Capped(m, SumOver(entries, l.models[..n], m))
  {
    if n != 0 {
      var k := l.models[n - 1];
      PerModelSum(l, entries, n - 1, m);
      FoldedIsCappedSum(entries, Only(k), m);
      PerModelStep(PerModel(l, n - 1), Entry(k, l.byModel[k]), entries, l.models[..n - 1], k, m);
      assert l.models[..n] == l.models[..n - 1] + [k];
    }
  }

  /** After any recordings with non-negative costs, the totals are the saturating
      fold of the per-model entries. */
  lemma TotalsAreModelSums(events: seq<Event>)
    requires AllBillable(AllEntries(events))
    ensures var l := RecordAll(events);
            && (forall i :: 0 <= i < |l.models| ==> l.models[i] in l.byModel)
            && l.totals == Folded(PerModel(l, |l.models|), Every)
  {
    var entries := AllEntries(events);
    LedgerIsFold(events);
    LedgerShape(entries);
    var l := RecordAll(events);
    var parts := PerModel(l, |l.models|);
    assert l.models[..|l.models|] == l.models;
    forall m ensures AllBillable(parts) && Billable(l.totals) && Billable(Folded(parts, Every)) && Of(l.totals, m) == Of(Folded(parts, Every), m) {
      FoldedIsCappedSum(entries, Every, m);
      PerModelSum(l, entries, |l.models|, m);
      FoldedIsCappedSum(parts, Every, m);
      SumOverModels(entries, l.models, m);
    }
    FoldedIsCappedSum(entries, Every, Cost);
    PerModelSum(l, entries, |l.models|, Cost);
    FoldedIsCappedSum(parts, Every, Cost);
    SameMeasures(l.totals, Folded(parts, Every));
  }

  // ----- main-loop calls and completeness

  lemma {:induction false} CallsOnlyGrow(l: Ledger, entries: seq<Entry>)
    requires l.totals.calls <= U64_MAX
    ensures l.totals.calls <= FoldEntries(l, entries).totals.calls <= U64_MAX
    decreases |entries|
  {
    if entries != [] {
      CallsOnlyGrow(l, entries[..|entries| - 1]);
    }
  }

  /** Main-loop calls never exceed the model calls billed, whatever is recorded. */
  lemma {:induction false} MainCallsWithinTotal(events: seq<Event>)
    ensures RecordAll(events).mainCalls <= RecordAll(events).totals.calls <= U64_MAX
    decreases |events|
  {
    if events != [] {
      var front, e := events[..|events| - 1], events[|events| - 1];
      MainCallsWithinTotal(front);
      CallsOnlyGrow(RecordAll(front), EntriesOf(e));
      FoldEntriesIgnores(RecordAll(front), RecordAll(front), EntriesOf(e));
    }
  }

  /** The flag is set exactly when some recording set it, so it never reverts. */
  lemma {:induction false} IncompleteIsSticky(events: seq<Event>)
    ensures RecordAll(events).incomplete <==>
            exists i :: 0 <= i < |events| && (events[i].Incomplete? || (events[i].Subagent? && events[i].partial))
    decreases |events|
  {
    if events != [] {
      var n := |events| - 1;
      IncompleteIsSticky(events[..n]);
      assert events == events[..n] + [events[n]];
      FoldEntriesIgnores(RecordAll(events[..n]), RecordAll(events[..n]), EntriesOf(events[n]));
    }
  }

  // ----- the bill, read off the recordings

  /** What a main-loop call adds to a measure: its own tokens, one call, its duration,
      and either its positive cost or one missing cost. */
  function CallCharge(usage: Usage, durationMs: Option<nat>, cost: Option<int>, m: Measure): nat {
    match m
    case Count(Input) => usage.prompt
    case Count(Output) => usage.completion
    case Count(CachedRead) => usage.cachedPrompt
    case Count(ReasoningTokens) => usage.reasoning
    case Count(ModelCalls) => 1
    case Count(Duration) => if durationMs.Some? then durationMs.value else 0
    case Count(CostMissing) => if cost.Some? && 0 < cost.value then 0 else 1
    case Cost => if cost.Some? && 0 < cost.value then cost.value else 0
    case Costed => if cost.Some? && 0 < cost.value then 1 else 0
  }

  function Charge(e: Event, s: Selector, m: Measure): nat {
    match e
    case MainCall(model, usage, durationMs, cost) =>
      if s.Every? || s.model == model then CallCharge(usage, durationMs, cost, m) else 0
    case Subagent(entries, _) => Sum(entries, s, m)
    case Incomplete => 0
  }

  /** The exact sum over the recordings, of every model or of one. */
  function Charged(events: seq<Event>, s: Selector, m: Measure): nat {
    if events == [] then 0 else Charged(events[..|events| - 1], s, m) + Charge(events[|events| - 1], s, m)
  }

  /** What a recording can carry in 64-bit fields, with no negative cost in a subagent's
      entries. */
  ghost predicate InRange(e: Event) {
    match e
    case MainCall(_, usage, durationMs, cost) =>
      && usage.prompt <= U64_MAX && usage.completion <= U64_MAX && usage.cachedPrompt <= U64_MAX
      && usage.reasoning <= U64_MAX && (durationMs.Some? ==> durationMs.value <= U64_MAX)
      && (cost.Some? ==> cost.value <= I64_MAX)
    case Subagent(entries, _) => AllBillable(entries)
    case Incomplete => true
  }

  lemma EventCharge(e: Event, s: Selector, m: Measure)
    requires InRange(e)
    ensures AllBillable(EntriesOf(e)) && Sum(EntriesOf(e), s, m) == Charge(e, s, m)
  {
    if e.MainCall? {
      SumOne(EntriesOf(e)[0], s, m);
    }
  }

  lemma {:induction false} EntriesCharge(events: seq<Event>, s: Selector, m: Measure)
    requires forall i :: 0 <= i < |events| ==> InRange(events[i])
    ensures AllBillable(AllEntries(events)) && Sum(AllEntries(events), s, m) == Charged(events, s, m)
    decreases |events|
  {
    if events != [] {
      var n := |events| - 1;
      EntriesCharge(events[..n], s, m);
      EventCharge(events[n], s, m);
      SumConcat(AllEntries(events[..n]), EntriesOf(events[n]), s, m);
    }
  }

  /** After any recordings, every figure of the bill, in total and for one model, is the
      capped sum of what the calls and subagents reported. */
  lemma BillSumsRecordings(events: seq<Event>, m: Measure)
    requires forall i :: 0 <= i < |events| ==> InRange(events[i])
    ensures var l := RecordAll(events);
            && Billable(l.totals) && Of(l.totals, m) == Capped(m, Charged(events, Every, m))
            && forall k :: k in l.byModel ==>
                 Billable(l.byModel[k]) && Of(l.byModel[k], m) == Capped(m, Charged(events, Only(k), m))
  {
    var entries := AllEntries(events);
    LedgerIsFold(events);
    LedgerShape(entries);
    EntriesCharge(events, Every, m);
    FoldedIsCappedSum(entries, Every, m);
    forall k | k in RecordAll(events).byModel
      ensures var t := Folded(entries, Only(k)); Billable(t) && Of(t, m) == Capped(m, Charged(events, Only(k), m))
    {
      EntriesCharge(events, Only(k), m);
      FoldedIsCappedSum(entries, Only(k), m);
    }
  }

  function MainCalls(events: seq<Event>): nat {
    if events == [] then 0
    else MainCalls(events[..|events| - 1]) + if events[|events| - 1].MainCall? then 1 else 0
  }

  lemma {:induction false} MainCallsCounted(events: seq<Event>)
    ensures RecordAll(events).mainCalls == Saturated(MainCalls(events))
    decreases |events|
  {
    if events != [] {
      var front, e := events[..|events| - 1], events[|events| - 1];
      MainCallsCounted(front);
      FoldEntriesIgnores(RecordAll(front), RecordAll(front), EntriesOf(e));
    }
  }

  // ----- signed costs: when the order of recording matters

  /** The cost after folding `costs` in order. */
  function FoldCosts(start: int, costs: seq<int>): int {
    if costs == [] then start else SatAddSigned(FoldCosts(start, costs[..|costs| - 1]), costs[|costs| - 1])
  }

  function Gains(costs: seq<int>): nat {
    if costs == [] then 0
    else Gains(costs[..|costs| - 1]) + if 0 < costs[|costs| - 1] then costs[|costs| - 1] else 0
  }

  function Losses(costs: seq<int>): nat {
    if costs == [] then 0
    else Losses(costs[..|costs| - 1]) + if costs[|costs| - 1] < 0 then -costs[|costs| - 1] else 0
  }

  ghost predicate OrderIrrelevant(costs: seq<int>) {
    forall p: seq<int> :: multiset(p) == multiset(costs) ==> FoldCosts(0, p) == FoldCosts(0, costs)
  }

  lemma {:induction false} FoldCostsConcat(start: int, a: seq<int>, b: seq<int>)
    ensures FoldCosts(start, a + b) == FoldCosts(FoldCosts(start, a), b)
    ensures Gains(a + b) == Gains(a) + Gains(b) && Losses(a + b) == Losses(a) + Losses(b)
    decreases |b|
  {
    if b == [] {
      assert a + b == a;
    } else {
      assert (a + b)[..|a + b| - 1] == a + b[..|b| - 1];
      FoldCostsConcat(start, a, b[..|b| - 1]);
    }
  }

  lemma {:induction false} FoldGains(start: int, costs: seq<int>)
    requires I64_MIN <= start <= I64_MAX && Losses(costs) == 0
    ensures FoldCosts(start, costs) == if start + Gains(costs) < I64_MAX then start + Gains(costs) else I64_MAX
    decreases |costs|
  {
    if costs != [] {
      FoldGains(start, costs[..|costs| - 1]);
    }
  }

  lemma {:induction false} FoldLosses(start: int, costs: seq<int>)
    requires I64_MIN <= start <= I64_MAX && Gains(costs) == 0
    ensures FoldCosts(start, costs) == if I64_MIN < start - Losses(costs) then start - Losses(costs) else I64_MIN
    decreases |costs|
  {
    if costs != [] {
      FoldLosses(start, costs[..|costs| - 1]);
    }
  }

  lemma {:induction false} FoldExact(costs: seq<int>)
    requires Gains(costs) <= I64_MAX && Losses(costs) <= -I64_MIN
    ensures FoldCosts(0, costs) == Gains(costs) - Losses(costs)
    decreases |costs|
  {
    if costs != [] {
      FoldExact(costs[..|costs| - 1]);
    }
  }

  lemma {:induction false} GainsPermuted(a: seq<int>, b: seq<int>)
    requires multiset(a) == multiset(b)
    ensures Gains(a) == Gains(b) && Losses(a) == Losses(b)
    decreases |a|
  {
    if a == [] {
      assert |b| == |multiset(b)| == 0;
    } else {
      var i := MatchFirst(a, b);
      GainsPermuted(a[..0] + a[1..], b[..i] + b[i + 1..]);
      GainsRemove(a, 0);
      GainsRemove(b, i);
    }
  }

  lemma GainsRemove(costs: seq<int>, i: nat)
    requires i < |costs|
    ensures Gains(costs) == Gains(costs[..i] + costs[i + 1..]) + if 0 < costs[i] then costs[i] else 0
    ensures Losses(costs) == Losses(costs[..i] + costs[i + 1..]) + if costs[i] < 0 then -costs[i] else 0
  {
    var a, c, b := costs[..i], costs[i], costs[i + 1..];
    SplitAt(costs, i);
    FoldCostsConcat(0, a, [c] + b);
    FoldCostsConcat(0, [c], b);
    FoldCostsConcat(0, a, b);
    assert [c][..0] == [];
  }

  /** The positive costs and the others, each in order. */
  function Positive(costs: seq<int>): seq<int> {
    if costs == [] then []
    else Positive(costs[..|costs| - 1]) + if 0 < costs[|costs| - 1] then [costs[|costs| - 1]] else []
  }

  function Others(costs: seq<int>): seq<int> {
    if costs == [] then []
    else Others(costs[..|costs| - 1]) + if 0 < costs[|costs| - 1] then [] else [costs[|costs| - 1]]
  }

  lemma GainsSnoc(a: seq<int>, c: int)
    ensures Gains(a + [c]) == Gains(a) + if 0 < c then c else 0
    ensures Losses(a + [c]) == Losses(a) + if c < 0 then -c else 0
  {
    assert (a + [c])[..|a|] == a;
  }

  lemma {:induction false} SplitKeepsSums(costs: seq<int>)
    ensures Losses(Positive(costs)) == 0 && Gains(Others(costs)) == 0
    ensures Gains(Positive(costs)) == Gains(costs) && Losses(Others(costs)) == Losses(costs)
    decreases |costs|
  {
    if costs != [] {
      var front, c := costs[..|costs| - 1], costs[|costs| - 1];
      SplitKeepsSums(front);
      GainsSnoc(Positive(front), c);
      GainsSnoc(Others(front), c);
      assert Positive(front) + [] == Positive(front) && Others(front) + [] == Others(front);
    }
  }

  lemma {:induction false} SplitBySign(costs: seq<int>)
    ensures multiset(Positive(costs)) + multiset(Others(costs)) == multiset(costs)
    decreases |costs|
  {
    if costs != [] {
      var front, c := costs[..|costs| - 1], costs[|costs| - 1];
      SplitBySign(front);
      AddedToOne(Positive(front), Others(front), front, c);
      assert costs == front + [c];
      if 0 < c {
        assert Positive(costs) == Positive(front) + [c];
        assert Others(costs) == Others(front);
      } else {
        assert Positive(costs) == Positive(front);
        assert Others(costs) == Others(front) + [c];
      }
    }
  }

  lemma AddedToOne(a: seq<int>, b: seq<int>, all: seq<int>, c: int)
    requires multiset(a) + multiset(b) == multiset(all)
    ensures multiset(a + [c]) + multiset(b) == multiset(all + [c])
    ensures multiset(a) + multiset(b + [c]) == multiset(all + [c])
  {
  }

  /** The total cost is independent of the order of recording if and only if the
      costs have one sign, or neither their gains nor their losses can saturate. */
  lemma CostOrderIrrelevantIff(costs: seq<int>)
    ensures OrderIrrelevant(costs) <==>
            || Losses(costs) == 0
            || Gains(costs) == 0
            || (Gains(costs) <= I64_MAX && Losses(costs) <= -I64_MIN)
  {
    var gains, losses := Gains(costs), Losses(costs);
    if losses == 0 || gains == 0 || (gains <= I64_MAX && losses <= -I64_MIN) {
      forall p: seq<int> | multiset(p) == multiset(costs) ensures FoldCosts(0, p) == FoldCosts(0, costs) {
        GainsPermuted(p, costs);
        SameFold(p, costs);
      }
    } else {
      GainsFirstOrLast(costs);
    }
  }

  lemma SameFold(a: seq<int>, b: seq<int>)
    requires Gains(a) == Gains(b) && Losses(a) == Losses(b)
    requires Losses(a) == 0 || Gains(a) == 0 || (Gains(a) <= I64_MAX && Losses(a) <= -I64_MIN)
    ensures FoldCosts(0, a) == FoldCosts(0, b)
  {
    if Losses(a) == 0 {
      FoldGains(0, a);
      FoldGains(0, b);
    } else if Gains(a) == 0 {
      FoldLosses(0, a);
      FoldLosses(0, b);
    } else {
      FoldExact(a);
      FoldExact(b);
    }
  }

  lemma GainsFirstOrLast(costs: seq<int>)
    requires Gains(costs) != 0 && Losses(costs) != 0
    requires I64_MAX < Gains(costs) || -I64_MIN < Losses(costs)
    ensures !OrderIrrelevant(costs)
  {
    var up, down := Positive(costs), Others(costs);
    SplitBySign(costs);
    SplitKeepsSums(costs);
    FoldCostsConcat(0, up, down);
    FoldCostsConcat(0, down, up);
    FoldGains(0, up);
    FoldLosses(0, down);
    FoldLosses(FoldCosts(0, up), down);
    FoldGains(FoldCosts(0, down), up);
    assert FoldCosts(0, up + down) != FoldCosts(0, down + up);
    assert multiset(up + down) == multiset(costs) && multiset(down + up) == multiset(costs);
  }

  /** The reported costs of a series of entries. */
  function CostsOf(entries: seq<Entry>): seq<int> {
    if entries == [] then []
    else
      var e := entries[|entries| - 1];
      CostsOf(entries[..|entries| - 1]) + if e.totals.cost.Some? then [e.totals.cost.value] else []
  }

  /** A ledger's total cost is that fold over the reported costs, or absent. */
  lemma {:induction false} TotalCostIsFold(entries: seq<Entry>)
    requires forall i :: 0 <= i < |entries| && entries[i].totals.cost.Some? ==>
               I64_MIN <= entries[i].totals.cost.value <= I64_MAX
    ensures FoldEntries(EMPTY, entries).totals.cost ==
            if CostsOf(entries) == [] then None else Some(FoldCosts(0, CostsOf(entries)))
    decreases |entries|
  {
    if entries != [] {
      var front, e := entries[..|entries| - 1], entries[|entries| - 1];
      TotalCostIsFold(front);
      var costs := CostsOf(front);
      assert costs + [] == costs;
      if e.totals.cost.Some? {
        assert (costs + [e.totals.cost.value])[..|costs|] == costs;
      } else if costs != [] {
        FoldStaysInRange(costs);
      }
    }
  }

  lemma FoldStaysInRange(costs: seq<int>)
    requires costs != []
    ensures I64_MIN <= FoldCosts(0, costs) <= I64_MAX
  {
  }
}
