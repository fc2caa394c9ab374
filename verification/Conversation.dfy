/** The items a conversation is made of, and the small vocabulary about tool
    calls and their results that every other chat-state module shares. */
module Conversation {
  import opened Prelude

  datatype ContentPart = Text(text: string) | Image(url: string)

  datatype SyntheticReason =
    | CompactionMeta
    | SystemReminder
    | ProjectInstructions
    | AutoContinue
    | OtherReason(name: string)

  datatype ToolCall = ToolCall(id: string, name: string, arguments: string)

  datatype Item =
    | System(content: string)
    | User(parts: seq<ContentPart>, synthetic: Option<SyntheticReason>)
    | Assistant(content: string, calls: seq<ToolCall>)
    | ToolResult(callId: string, content: string, images: seq<ContentPart>)
    | BackendToolCall(summary: string)
    | Reasoning(text: string)

  /** The calls an item declares; only assistants declare any. */
  function Calls(item: Item): seq<ToolCall> {
    if item.Assistant? then item.calls else []
  }

  function CallIds(item: Item): set<string> {
    set i | 0 <= i < |Calls(item)| :: Calls(item)[i].id
  }

  /** A sequence made of tool results only. */
  ghost predicate AllResults(items: seq<Item>) {
    forall i :: 0 <= i < |items| ==> items[i].ToolResult?
  }

  ghost predicate StartsRunFree(items: seq<Item>) {
    items == [] || !items[0].ToolResult?
  }

  /** Length of the leading run of tool results. */
  function RunLength(items: seq<Item>): (n: nat)
    ensures n <= |items|
  {
    if items == [] || !items[0].ToolResult? then 0 else 1 + RunLength(items[1..])
  }

  lemma {:induction false} RunLengthSpec(items: seq<Item>)
    ensures AllResults(items[..RunLength(items)])
    ensures StartsRunFree(items[RunLength(items)..])
  {
    if items != [] && items[0].ToolResult? {
      RunLengthSpec(items[1..]);
      var n := RunLength(items);
      assert items[..n] == [items[0]] + items[1..][..n - 1];
      assert items[n..] == items[1..][n - 1..];
    }
  }

  lemma {:induction false} RunLengthUnique(run: seq<Item>, rest: seq<Item>)
    requires AllResults(run) && StartsRunFree(rest)
    ensures RunLength(run + rest) == |run|
  {
    if run == [] {
      assert run + rest == rest;
    } else {
      assert (run + rest)[1..] == run[1..] + rest;
      RunLengthUnique(run[1..], rest);
    }
  }

  /** The ids a run of results answers. */
  function ResultIds(run: seq<Item>): set<string> {
    set i | 0 <= i < |run| && run[i].ToolResult? :: run[i].callId
  }

  lemma ResultIdsCons(run: seq<Item>)
    requires run != [] && AllResults(run)
    ensures ResultIds(run) == {run[0].callId} + ResultIds(run[1..])
  {
    forall id | id in ResultIds(run) ensures id in {run[0].callId} + ResultIds(run[1..]) {
      var i :| 0 <= i < |run| && run[i].ToolResult? && run[i].callId == id;
      if 0 < i {
        assert run[1..][i - 1] == run[i];
      }
    }
    forall id | id in ResultIds(run[1..]) ensures id in ResultIds(run) {
      var i :| 0 <= i < |run[1..]| && run[1..][i].ToolResult? && run[1..][i].callId == id;
      assert run[i + 1] == run[1..][i];
    }
  }

  lemma ResultIdsConcat(a: seq<Item>, b: seq<Item>)
    ensures ResultIds(a + b) == ResultIds(a) + ResultIds(b)
  {
    var h := a + b;
    forall id | id in ResultIds(h) ensures id in ResultIds(a) + ResultIds(b) {
      var i :| 0 <= i < |h| && h[i].ToolResult? && h[i].callId == id;
      if i < |a| {
        assert a[i] == h[i];
      } else {
        assert b[i - |a|] == h[i];
      }
    }
    forall id | id in ResultIds(a) ensures id in ResultIds(h) {
      var i :| 0 <= i < |a| && a[i].ToolResult? && a[i].callId == id;
      assert h[i] == a[i];
    }
    forall id | id in ResultIds(b) ensures id in ResultIds(h) {
      var i :| 0 <= i < |b| && b[i].ToolResult? && b[i].callId == id;
      assert h[i + |a|] == b[i];
    }
  }

  lemma RunIdsEmpty(run: seq<Item>)
    requires AllResults(run)
    ensures ResultIds(run) == {} <==> run == []
  {
    if run != [] {
      assert run[0].callId in ResultIds(run);
    }
  }

  /** All items that are not tool results, in order. */
  function NonResults(items: seq<Item>): (kept: seq<Item>) {
    if items == [] then []
    else if items[0].ToolResult? then NonResults(items[1..])
    else [items[0]] + NonResults(items[1..])
  }

  lemma {:induction false} NonResultsConcat(a: seq<Item>, b: seq<Item>)
    ensures NonResults(a + b) == NonResults(a) + NonResults(b)
  {
    if a == [] {
      assert a + b == b;
    } else {
      assert (a + b)[1..] == a[1..] + b;
      NonResultsConcat(a[1..], b);
    }
  }

  lemma {:induction false} NonResultsOfRun(run: seq<Item>)
    requires AllResults(run)
    ensures NonResults(run) == []
  {
    if run != [] {
      NonResultsOfRun(run[1..]);
    }
  }

  /** The texts among content parts, in order. */
  function TextsOf(parts: seq<ContentPart>): seq<string> {
    if parts == [] then []
    else (if parts[0].Text? then [parts[0].text] else []) + TextsOf(parts[1..])
  }
}
