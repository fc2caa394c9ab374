/** Replaying the cached handshake and sessions to a new leader: each request is
    sent and the leader's lines are pumped to the client until its answer, which
    alone is swallowed. */
module Replay {
  import opened Prelude
  import opened Rpc
  import opened SessionCache

  /** What one wait on the leader yields: a line, and whether the client's stdout
      would take it, or nothing in time. The end of the stream is a closed leader. */
  datatype Signal = Message(line: Line, writable: bool) | Silence

  // ----- one exchange

  /** A line that is not the answer, and that stdout takes. */
  predicate PassesOn(s: Signal, id: Json) {
    s.Message? && ReplyTo(s.line, id).None? && s.writable
  }

  /** The first signal from `from` on that is not passed on, or the end. */
  function Stop(incoming: seq<Signal>, from: nat, id: Json): (k: nat)
    requires from <= |incoming|
    ensures from <= k <= |incoming|
    ensures forall j :: from <= j < k ==> PassesOn(incoming[j], id)
    ensures k < |incoming| ==> !PassesOn(incoming[k], id)
    decreases |incoming| - from
  {
    if from < |incoming| && PassesOn(incoming[from], id) then Stop(incoming, from + 1, id) else from
  }

  /** One request, the signals [from, end) it consumed, and how it ended. */
  datatype Exchange = Exchange(request: Line, from: nat, end: nat, outcome: Outcome)

  function RequestId(e: Exchange): Option<Json> {
    Field(e.request, "id")
  }

  /** A request without an id is not waited for. One with an id consumes signals up
      to the first that is not passed on, and reports what that one says. */
  ghost predicate Exchanged(incoming: seq<Signal>, e: Exchange) {
    && e.from <= e.end <= |incoming|
    && match RequestId(e)
       case None => e.end == e.from && e.outcome == Succeeded
       case Some(id) =>
         var k := Stop(incoming, e.from, id);
         if k < |incoming| && incoming[k].Message? && ReplyTo(incoming[k].line, id).Some?
         then e.end == k + 1 && Some(e.outcome) == ReplyTo(incoming[k].line, id)
         else e.end == (if k < |incoming| then k + 1 else k) && e.outcome == Failed
  }

  /** The lines among signals [from, end). */
  function LinesOf(incoming: seq<Signal>, from: nat, end: nat): seq<Line>
    requires from <= end <= |incoming|
  {
    if from == end then []
    else
      var front := LinesOf(incoming, from, end - 1);
      if incoming[end - 1].Message? then front + [incoming[end - 1].line] else front
  }

  /** What the client saw of an exchange. */
  ghost function Forwarded(incoming: seq<Signal>, e: Exchange): seq<Line>
    requires Exchanged(incoming, e)
  {
    match RequestId(e)
    case None => []
    case Some(id) => LinesOf(incoming, e.from, Stop(incoming, e.from, id))
  }

  /** The new leader's channel and the client's stdout. `accepts` is how many sends
      go through before the leader's receiving end is gone. */
  class Link {
    const incoming: seq<Signal>
    const accepts: nat
    var next: nat
    var sent: seq<Line>
    var stdout: seq<Line>

    constructor (incoming: seq<Signal>, accepts: nat, stdout: seq<Line>)
      ensures Valid() && this.incoming == incoming && this.accepts == accepts
      ensures next == 0 && sent == [] && this.stdout == stdout
    {
      this.incoming, this.accepts, this.stdout := incoming, accepts, stdout;
      next, sent := 0, [];
    }

    ghost predicate Valid()
      reads this
    {
      next <= |incoming|
    }

    method Send(l: Line) returns (ok: bool)
      requires Valid()
      modifies this`sent
      ensures ok == (|old(sent)| < accepts)
      ensures sent == if ok then old(sent) + [l] else old(sent)
    {
      ok := |sent| < accepts;
      if ok {
        sent := sent + [l];
      }
    }

    /** Passes lines on until one is the answer, stdout refuses one, nothing comes in
        time, or the leader is gone. */
    method Pump(request: Line, id: Json) returns (outcome: Outcome, ghost e: Exchange)
      requires Valid() && Field(request, "id") == Some(id)
      modifies this`next, this`stdout
      ensures Valid()
      ensures e == Exchange(request, old(next), next, outcome) && Exchanged(incoming, e)
      ensures stdout == old(stdout) + Forwarded(incoming, e)
    {
      ghost var k := Stop(incoming, next, id);
      outcome := Failed;
      while next < |incoming|
        invariant old(next) <= next <= |incoming| && outcome == Failed
        invariant Stop(incoming, next, id) == k
        invariant stdout == old(stdout) + LinesOf(incoming, old(next), next)
      {
        var s := incoming[next];
        if s.Message? && ReplyTo(s.line, id).None? && s.writable {
          stdout := stdout + [s.line];
          next := next + 1;
        } else {
          next := next + 1;
          if s.Message? && ReplyTo(s.line, id).Some? {
            outcome := ReplyTo(s.line, id).value;
          }
          break;
        }
      }
      e := Exchange(request, old(next), next, outcome);
    }

    /** Sends one request and waits for its answer. A failed send changes nothing. */
    method RequestUntilResponse(request: Line) returns (outcome: Outcome, ghost e: Exchange)
      requires Valid()
      modifies this
      ensures Valid()
      ensures |old(sent)| < accepts ==>
                && sent == old(sent) + [request]
                && e == Exchange(request, old(next), next, outcome) && Exchanged(incoming, e)
                && stdout == old(stdout) + Forwarded(incoming, e)
      ensures |old(sent)| >= accepts ==> outcome == Failed && unchanged(this)
    {
      var ok := Send(request);
      e := Exchange(request, next, next, Succeeded);
      if !ok {
        return Failed, e;
      }
      var expected := Field(request, "id");
      if expected.None? {
        assert stdout + [] == stdout;
        return Succeeded, e;
      }
      outcome, e := Pump(request, expected.value);
    }

    /** After the exchanges of `trace`, counting from `from` and from what had been
        sent and written before. */
    ghost predicate Replayed(script: seq<Line>, trace: seq<Exchange>, from: nat, sent0: seq<Line>, stdout0: seq<Line>)
      reads this
    {
      && Valid() && Follows(incoming, script, trace, from, next) && Unbroken(trace)
      && sent == sent0 + script[..|trace|]
      && stdout == stdout0 + AllForwarded(incoming, trace)
    }

    method ReplayNext(request: Line, ghost script: seq<Line>, ghost trace: seq<Exchange>, ghost from: nat,
                      ghost sent0: seq<Line>, ghost stdout0: seq<Line>)
      returns (outcome: Outcome, ghost longer: seq<Exchange>)
      requires Replayed(script, trace, from, sent0, stdout0) && !Halts(trace)
      requires |trace| < |script| && request == script[|trace|]
      modifies this
      ensures Replayed(script, longer, from, sent0, stdout0)
      ensures longer == trace ==> outcome == Failed && |sent| >= accepts
      ensures longer != trace ==> |longer| == |trace| + 1 && longer[..|trace|] == trace && longer[|trace|].outcome == outcome
    {
      ghost var open := |sent| < accepts;
      ghost var e;
      outcome, e := RequestUntilResponse(request);
      longer := trace;
      if open {
        longer := trace + [e];
        NextExchange(incoming, script, trace, e, from, sent0, stdout0);
      }
    }

    /** Replays the handshake, then every restorable session in order, one exchange at
        a time. It is cut short only when the handshake is not accepted, an exchange
        fails or a send fails. */
    method ReplayState(cache: Cache) returns (primary: Option<string>, ghost trace: seq<Exchange>)
      requires Valid()
      modifies this
      ensures Replayed(Script(cache), trace, old(next), old(sent), old(stdout))
      ensures |trace| < |Script(cache)| ==> |sent| >= accepts || Halts(trace)
      ensures primary == Choose(cache.last, Restored(Restorable(cache.sessions), trace))
    {
      trace := [];
      assert sent + [] == sent && stdout + [] == stdout;
      if cache.initialize.None? {
        return None, trace;
      }
      ghost var script := Script(cache);
      var outcome;
      outcome, trace := ReplayNext(cache.initialize.value, script, trace, next, sent, stdout);
      if outcome != Succeeded {
        return None, trace;
      }
      primary, trace := ReplaySessions(cache, trace, old(next), old(sent), old(stdout));
    }

    /** The main case in one statement. After any history with a handshake and requests
        answered in turn, a leader that takes and answers every request with a result
        receives the client's last handshake and then exactly the open sessions' loads,
        one each, in first-seen order, without those created without a working directory,
        and all of them are restored; the last active one is reported, else the last. */
    method ReplayHistory(cache: Cache, ghost h: seq<Traffic>)
      returns (primary: Option<string>, ghost shake: Line, ghost loads: seq<Line>, ghost firstSeen: seq<int>, ghost sids: seq<string>)
      requires Valid() && cache == After(h, |h|) && InTurn(h) && Shaken(h, |h|)
      requires |sent| + |Script(cache)| <= accepts && AnswersAll(incoming, next, Script(cache))
      modifies this
      ensures sent == old(sent) + ([shake] + loads) && LastShake(h, |h|, shake)
      ensures Restores(h, |h|, loads, firstSeen, sids)
      ensures forall sid :: sid in sids && LastActive(h, |h|, sid) ==> primary == Some(sid)
      ensures (forall sid :: sid in sids ==> !LastActive(h, |h|, sid)) ==>
                primary == if sids == [] then None else Some(sids[|sids| - 1])
    {
      ScriptOpensWithHandshake(h, |h|);
      shake := cache.initialize.value;
      loads, sids := LoadLines(cache.sessions), Sids(Restorable(cache.sessions));
      firstSeen := ScriptRestoresOpenSessions(h, |h|);
      primary := ReplayAnswered(cache);
      ChosenByHistory(h, sids, primary);
    }

    /** A leader that takes and answers every request with a result gets the whole script. */
    method ReplayAnswered(cache: Cache) returns (primary: Option<string>)
      requires Valid() && cache.initialize.Some?
      requires |sent| + |Script(cache)| <= accepts && AnswersAll(incoming, next, Script(cache))
      modifies this
      ensures sent == old(sent) + Script(cache)
      ensures primary == Choose(cache.last, Sids(Restorable(cache.sessions)))
    {
      ghost var script, sids := Script(cache), Sids(Restorable(cache.sessions));
      ghost var trace;
      primary, trace := ReplayState(cache);
      AllSucceed(incoming, script, trace, old(next), next);
      RestoredInOrder(Restorable(cache.sessions), trace);
      assert script[..|script|] == script && sids[..|sids|] == sids;
    }

    method ReplaySessions(cache: Cache, ghost begun: seq<Exchange>, ghost from: nat,
                          ghost sent0: seq<Line>, ghost stdout0: seq<Line>)
      returns (primary: Option<string>, ghost trace: seq<Exchange>)
      requires Replayed(Script(cache), begun, from, sent0, stdout0) && |begun| == 1 && !Halts(begun)
      modifies this
      ensures Replayed(Script(cache), trace, from, sent0, stdout0)
      ensures |trace| < |Script(cache)| ==> |sent| >= accepts || Halts(trace)
      ensures primary == Choose(cache.last, Restored(Restorable(cache.sessions), trace))
    {
      ghost var script, all := Script(cache), Restorable(cache.sessions);
      trace := begun;
      var restored: seq<string> := [];
      for i := 0 to |cache.sessions|
        invariant Replayed(script, trace, from, sent0, stdout0) && !Halts(trace)
        invariant |trace| == 1 + |Restorable(cache.sessions[..i])|
        invariant restored == Restored(all, trace)
      {
        var load := LoadLine(cache.sessions[i]);
        ScriptStep(cache, i);
        if load.Some? {
          var outcome;
          ghost var longer;
          outcome, longer := ReplayNext(load.value, script, trace, from, sent0, stdout0);
          if longer != trace {
            RestoredStep(all, trace, longer);
          }
          trace := longer;
          if outcome == Succeeded {
            restored := restored + [cache.sessions[i].sid];
          } else if outcome == Failed {
            return Choose(cache.last, restored), trace;
          }
        }
      }
      assert cache.sessions[..|cache.sessions|] == cache.sessions;
      primary := Choose(cache.last, restored);
    }
  }

  // ----- the script

  const REPLAY_LOAD_REQUEST_ID := "x.ai/leader-replay/session-load"

  /** The load that restores a session: the client's own, else one built from the
      captured `session/new` parameters, which needs a working directory. */
  function LoadLine(s: Session): Option<Line> {
    if s.cached.load.Some? then s.cached.load
    else if s.cached.cwd.None? then None
    else Some(SynthesizedLoad(s.sid, s.cached.cwd.value, s.cached.mcpServers))
  }

  function SynthesizedLoad(sid: string, cwd: string, mcpServers: Option<Json>): Line {
    var base := map["sessionId" := Str(sid), "cwd" := Str(cwd)];
    var params := if mcpServers.Some? then base["mcpServers" := mcpServers.value] else base;
    Parsed(Object(map["jsonrpc" := Str("2.0"), "id" := Str(REPLAY_LOAD_REQUEST_ID),
                      "method" := Str("session/load"), "params" := Object(params)]))
  }

  /** The sessions that can be restored, in cache order. */
  function Restorable(sessions: seq<Session>): seq<Session> {
    if sessions == [] then []
    else
      var front, s := Restorable(sessions[..|sessions| - 1]), sessions[|sessions| - 1];
      if LoadLine(s).Some? then front + [s] else front
  }

  function LoadLines(sessions: seq<Session>): (lines: seq<Line>)
    ensures |lines| == |Restorable(sessions)|
  {
    if sessions == [] then []
    else
      var front, s := LoadLines(sessions[..|sessions| - 1]), sessions[|sessions| - 1];
      if LoadLine(s).Some? then front + [LoadLine(s).value] else front
  }

  /** Everything a replay would send. */
  function Script(c: Cache): seq<Line> {
    if c.initialize.None? then [] else [c.initialize.value] + LoadLines(c.sessions)
  }

  // ----- the exchanges of a replay

  /** The exchanges are the script's first ones, back to back from `from` to `end`. */
  ghost predicate Follows(incoming: seq<Signal>, script: seq<Line>, trace: seq<Exchange>, from: nat, end: nat) {
    && |trace| <= |script| && Genuine(incoming, trace)
    && (forall m :: 0 <= m < |trace| ==> trace[m].request == script[m])
    && (forall m :: 0 < m < |trace| ==> trace[m].from == trace[m - 1].end)
    && (if trace == [] then from == end else trace[0].from == from && trace[|trace| - 1].end == end)
  }

  ghost predicate Genuine(incoming: seq<Signal>, trace: seq<Exchange>) {
    forall m :: 0 <= m < |trace| ==> Exchanged(incoming, trace[m])
  }

  ghost function AllForwarded(incoming: seq<Signal>, trace: seq<Exchange>): seq<Line>
    requires Genuine(incoming, trace)
  {
    if trace == [] then []
    else AllForwarded(incoming, trace[..|trace| - 1]) + Forwarded(incoming, trace[|trace| - 1])
  }

  /** The replay goes no further: a failed exchange, or a rejected handshake. */
  ghost predicate Halts(trace: seq<Exchange>) {
    && trace != []
    && (trace[|trace| - 1].outcome == Failed || (|trace| == 1 && trace[0].outcome == Rejected))
  }

  /** The sessions whose load succeeded; the first exchange is the handshake. */
  ghost function Restored(sessions: seq<Session>, trace: seq<Exchange>): seq<string>
    requires |trace| <= 1 + |sessions|
  {
    if |trace| <= 1 then []
    else
      var m := |trace| - 1;
      var front := Restored(sessions, trace[..m]);
      if trace[m].outcome == Succeeded then front + [sessions[m - 1].sid] else front
  }

  /** The last active session when it was restored, else the last restored. */
  function Choose(last: Option<string>, restored: seq<string>): Option<string> {
    if last.Some? && last.value in restored then last
    else if restored != [] then Some(restored[|restored| - 1])
    else None
  }

  ghost predicate Unbroken(trace: seq<Exchange>) {
    forall m :: 0 < m < |trace| ==> !Halts(trace[..m])
  }

  lemma NextExchange(incoming: seq<Signal>, script: seq<Line>, trace: seq<Exchange>, e: Exchange, from: nat,
                     sent0: seq<Line>, stdout0: seq<Line>)
    requires Follows(incoming, script, trace, from, e.from) && Unbroken(trace) && !Halts(trace)
    requires |trace| < |script| && Exchanged(incoming, e) && e.request == script[|trace|]
    ensures Follows(incoming, script, trace + [e], from, e.end) && Unbroken(trace + [e])
    ensures sent0 + script[..|trace|] + [e.request] == sent0 + script[..|trace| + 1]
    ensures stdout0 + AllForwarded(incoming, trace) + Forwarded(incoming, e) == stdout0 + AllForwarded(incoming, trace + [e])
  {
    FollowsNext(incoming, script, trace, e, from);
    UnbrokenNext(trace, e);
    SliceNext(sent0, script, |trace|);
    ForwardedNext(incoming, trace, e);
    Reassociate(stdout0, AllForwarded(incoming, trace), Forwarded(incoming, e));
  }

  lemma FollowsNext(incoming: seq<Signal>, script: seq<Line>, trace: seq<Exchange>, e: Exchange, from: nat)
    requires Follows(incoming, script, trace, from, e.from)
    requires |trace| < |script| && Exchanged(incoming, e) && e.request == script[|trace|]
    ensures Follows(incoming, script, trace + [e], from, e.end)
  {
  }

  lemma UnbrokenNext(trace: seq<Exchange>, e: Exchange)
    requires Unbroken(trace) && !Halts(trace)
    ensures Unbroken(trace + [e])
  {
    forall m | 0 < m < |trace + [e]| ensures !Halts((trace + [e])[..m]) {
      assert (trace + [e])[..m] == trace[..m];
      assert trace[..|trace|] == trace;
    }
  }

  lemma SliceNext(a: seq<Line>, s: seq<Line>, n: nat)
    requires n < |s|
    ensures a + s[..n] + [s[n]] == a + s[..n + 1]
  {
  }

  lemma ForwardedNext(incoming: seq<Signal>, trace: seq<Exchange>, e: Exchange)
    requires Genuine(incoming, trace) && Exchanged(incoming, e)
    ensures Genuine(incoming, trace + [e])
    ensures AllForwarded(incoming, trace + [e]) == AllForwarded(incoming, trace) + Forwarded(incoming, e)
  {
    assert (trace + [e])[..|trace|] == trace;
  }

  lemma RestoredStep(sessions: seq<Session>, trace: seq<Exchange>, longer: seq<Exchange>)
    requires 1 <= |trace| <= |sessions| && |longer| == |trace| + 1 && longer[..|trace|] == trace
    ensures Restored(sessions, longer) == Restored(sessions, trace) +
            (if longer[|trace|].outcome == Succeeded then [sessions[|trace| - 1].sid] else [])
  {
  }

  lemma ScriptStep(cache: Cache, i: nat)
    requires i < |cache.sessions| && cache.initialize.Some?
    ensures var done := |Restorable(cache.sessions[..i])|;
            if LoadLine(cache.sessions[i]).Some?
            then && |Restorable(cache.sessions[..i + 1])| == done + 1 <= |Restorable(cache.sessions)|
                 && Script(cache)[done + 1] == LoadLine(cache.sessions[i]).value
                 && Restorable(cache.sessions)[done] == cache.sessions[i]
            else |Restorable(cache.sessions[..i + 1])| == done
  {
    assert cache.sessions[..i + 1][..i] == cache.sessions[..i];
    LoadsGrow(cache.sessions, i + 1);
  }

  lemma {:induction false} LoadsGrow(sessions: seq<Session>, i: nat)
    requires i <= |sessions|
    ensures Restorable(sessions[..i]) <= Restorable(sessions)
    ensures LoadLines(sessions[..i]) <= LoadLines(sessions)
    decreases |sessions|
  {
    if i == |sessions| {
      assert sessions[..i] == sessions;
    } else {
      var m := |sessions| - 1;
      LoadsGrow(sessions[..m], i);
      assert sessions[..m][..i] == sessions[..i];
    }
  }

  // ----- what the client sees

  /** The request carries an id and was answered. */
  ghost predicate Answered(e: Exchange) {
    RequestId(e).Some? && e.outcome != Failed
  }

  /** The positions of the swallowed lines: the last signal of every answered exchange. */
  ghost function Swallowed(trace: seq<Exchange>): set<int> {
    if trace == [] then {}
    else
      var front, last := Swallowed(trace[..|trace| - 1]), trace[|trace| - 1];
      if Answered(last) then front + {last.end - 1} else front
  }

  ghost function AnsweredCount(trace: seq<Exchange>): nat {
    if trace == [] then 0
    else AnsweredCount(trace[..|trace| - 1]) + if Answered(trace[|trace| - 1]) then 1 else 0
  }

  /** The lines among signals [from, end) outside the dropped positions. */
  ghost function Kept(incoming: seq<Signal>, from: nat, end: nat, dropped: set<int>): seq<Line>
    requires from <= end <= |incoming|
  {
    if from == end then []
    else
      var front := Kept(incoming, from, end - 1, dropped);
      if incoming[end - 1].Message? && end - 1 !in dropped then front + [incoming[end - 1].line] else front
  }

  lemma {:induction false} KeptSplit(incoming: seq<Signal>, from: nat, mid: nat, end: nat, dropped: set<int>)
    requires from <= mid <= end <= |incoming|
    ensures Kept(incoming, from, end, dropped) == Kept(incoming, from, mid, dropped) + Kept(incoming, mid, end, dropped)
    decreases end
  {
    if mid < end {
      KeptSplit(incoming, from, mid, end - 1, dropped);
    }
  }

  lemma {:induction false} KeptAgrees(incoming: seq<Signal>, from: nat, end: nat, a: set<int>, b: set<int>)
    requires from <= end <= |incoming| && forall p :: from <= p < end ==> (p in a <==> p in b)
    ensures Kept(incoming, from, end, a) == Kept(incoming, from, end, b)
    decreases end
  {
    if from < end {
      KeptAgrees(incoming, from, end - 1, a, b);
    }
  }

  lemma {:induction false} KeptAll(incoming: seq<Signal>, from: nat, end: nat, dropped: set<int>)
    requires from <= end <= |incoming| && forall p :: from <= p < end ==> p !in dropped
    ensures Kept(incoming, from, end, dropped) == LinesOf(incoming, from, end)
    decreases end
  {
    if from < end {
      KeptAll(incoming, from, end - 1, dropped);
    }
  }

  ghost predicate StdoutWritable(incoming: seq<Signal>) {
    forall p :: 0 <= p < |incoming| && incoming[p].Message? ==> incoming[p].writable
  }

  /** Within one exchange, everything but the answer reaches the client. */
  lemma ExchangeKeeps(incoming: seq<Signal>, e: Exchange, dropped: set<int>)
    requires StdoutWritable(incoming) && Exchanged(incoming, e)
    requires forall p :: e.from <= p < e.end ==>
               (p in dropped <==> p == e.end - 1 && Answered(e))
    ensures Forwarded(incoming, e) == Kept(incoming, e.from, e.end, dropped)
  {
    if RequestId(e).Some? {
      var k := Stop(incoming, e.from, RequestId(e).value);
      KeptAll(incoming, e.from, k, dropped);
      assert e.end == k || (e.end == k + 1 && (incoming[k].Silence? || k in dropped));
    }
  }

  lemma FollowsFront(incoming: seq<Signal>, script: seq<Line>, trace: seq<Exchange>, from: nat, end: nat)
    requires Follows(incoming, script, trace, from, end) && trace != []
    ensures Follows(incoming, script, trace[..|trace| - 1], from, trace[|trace| - 1].from)
    ensures trace[|trace| - 1].end == end && Exchanged(incoming, trace[|trace| - 1])
  {
  }

  lemma AnsweredConsumes(incoming: seq<Signal>, e: Exchange)
    requires Exchanged(incoming, e)
    ensures Answered(e) ==> e.from < e.end
  {
  }

  lemma {:induction false} SwallowedWithin(incoming: seq<Signal>, script: seq<Line>, trace: seq<Exchange>, from: nat, end: nat)
    requires Follows(incoming, script, trace, from, end)
    ensures from <= end
    ensures forall p :: p in Swallowed(trace) ==> from <= p < end
    decreases |trace|
  {
    if trace != [] {
      var n := |trace| - 1;
      FollowsFront(incoming, script, trace, from, end);
      SwallowedWithin(incoming, script, trace[..n], from, trace[n].from);
      AnsweredConsumes(incoming, trace[n]);
    }
  }

  /** One line is swallowed for each answered request, inside the consumed prefix. */
  lemma {:induction false} OneReplyEach(incoming: seq<Signal>, script: seq<Line>, trace: seq<Exchange>, from: nat, end: nat)
    requires Follows(incoming, script, trace, from, end)
    ensures forall p :: p in Swallowed(trace) ==> from <= p < end
    ensures |Swallowed(trace)| == AnsweredCount(trace)
    decreases |trace|
  {
    SwallowedWithin(incoming, script, trace, from, end);
    if trace != [] {
      var n := |trace| - 1;
      FollowsFront(incoming, script, trace, from, end);
      OneReplyEach(incoming, script, trace[..n], from, trace[n].from);
      AnsweredConsumes(incoming, trace[n]);
    }
  }

  lemma LastExchangeKeeps(incoming: seq<Signal>, front: seq<Exchange>, last: Exchange, from: nat, gone: set<int>)
    requires StdoutWritable(incoming) && Exchanged(incoming, last) && from <= last.from
    requires forall p :: p in Swallowed(front) ==> from <= p < last.from
    requires gone == Swallowed(front) + (if Answered(last) then {last.end - 1} else {})
    ensures Kept(incoming, from, last.end, gone) ==
            Kept(incoming, from, last.from, Swallowed(front)) + Forwarded(incoming, last)
  {
    AnsweredConsumes(incoming, last);
    KeptAgrees(incoming, from, last.from, gone, Swallowed(front));
    ExchangeKeeps(incoming, last, gone);
    KeptSplit(incoming, from, last.from, last.end, gone);
  }

  lemma SeenStep(incoming: seq<Signal>, front: seq<Exchange>, last: Exchange, from: nat, trace: seq<Exchange>)
    requires StdoutWritable(incoming) && Exchanged(incoming, last) && from <= last.from && Genuine(incoming, front)
    requires forall p :: p in Swallowed(front) ==> from <= p < last.from
    requires AllForwarded(incoming, front) == Kept(incoming, from, last.from, Swallowed(front)) && trace == front + [last]
    ensures Genuine(incoming, trace) && AllForwarded(incoming, trace) == Kept(incoming, from, last.end, Swallowed(trace))
  {
    ForwardedNext(incoming, front, last);
    assert trace[..|front|] == front;
    LastExchangeKeeps(incoming, front, last, from, Swallowed(trace));
  }

  /** With stdout writable, a replay consumes a prefix of the leader's stream, and
      the client sees that prefix in order, less the swallowed lines. */
  lemma {:induction false} ClientSeesAllButReplies(incoming: seq<Signal>, script: seq<Line>, trace: seq<Exchange>, from: nat, end: nat)
    requires Follows(incoming, script, trace, from, end) && from <= end <= |incoming| && StdoutWritable(incoming)
    ensures AllForwarded(incoming, trace) == Kept(incoming, from, end, Swallowed(trace))
    decreases |trace|
  {
    if trace != [] {
      var n := |trace| - 1;
      var front, last := trace[..n], trace[n];
      FollowsFront(incoming, script, trace, from, end);
      SwallowedWithin(incoming, script, front, from, last.from);
      ClientSeesAllButReplies(incoming, script, front, from, last.from);
      SeenStep(incoming, front, last, from, trace);
    }
  }

  /** What is swallowed is the answer: the first line that replies to the request. */
  lemma SwallowedIsTheReply(incoming: seq<Signal>, e: Exchange)
    requires Exchanged(incoming, e) && Answered(e)
    ensures e.from < e.end && incoming[e.end - 1].Message?
    ensures ReplyTo(incoming[e.end - 1].line, RequestId(e).value) == Some(e.outcome)
    ensures forall p :: e.from <= p < e.end - 1 ==>
              incoming[p].Message? && ReplyTo(incoming[p].line, RequestId(e).value).None?
  {
    assert forall p :: e.from <= p < e.end - 1 ==> PassesOn(incoming[p], RequestId(e).value);
  }

  // ----- what is restored

  lemma {:induction false} RestoredSucceeded(sessions: seq<Session>, trace: seq<Exchange>, sid: string)
    requires |trace| <= 1 + |sessions|
    ensures sid in Restored(sessions, trace) <==>
            exists m :: 1 <= m < |trace| && trace[m].outcome == Succeeded && sessions[m - 1].sid == sid
    decreases |trace|
  {
    if 1 < |trace| {
      var n := |trace| - 1;
      RestoredSucceeded(sessions, trace[..n], sid);
      assert forall m :: 1 <= m < n ==> trace[..n][m] == trace[m];
      if sid in Restored(sessions, trace[..n]) {
        var m :| 1 <= m < n && trace[..n][m].outcome == Succeeded && sessions[m - 1].sid == sid;
        assert trace[m].outcome == Succeeded;
      }
    }
  }

  /** A primary session is reported exactly when some load succeeded; it is one of
      those restored, and the last active one whenever that was restored. */
  lemma PrimaryWasRestored(last: Option<string>, sessions: seq<Session>, trace: seq<Exchange>)
    requires |trace| <= 1 + |sessions|
    ensures var primary := Choose(last, Restored(sessions, trace));
            && (primary.Some? <==> exists m :: 1 <= m < |trace| && trace[m].outcome == Succeeded)
            && (primary.Some? ==> Loaded(sessions, trace, primary.value))
            && (last.Some? && Loaded(sessions, trace, last.value) ==> primary == last)
  {
    var restored := Restored(sessions, trace);
    forall sid ensures sid in restored <==> Loaded(sessions, trace, sid) {
      RestoredSucceeded(sessions, trace, sid);
    }
    if m :| 1 <= m < |trace| && trace[m].outcome == Succeeded {
      assert Loaded(sessions, trace, sessions[m - 1].sid);
    }
  }

  /** The session's load was answered with a result. */
  ghost predicate Loaded(sessions: seq<Session>, trace: seq<Exchange>, sid: string)
    requires |trace| <= 1 + |sessions|
  {
    exists m :: 1 <= m < |trace| && trace[m].outcome == Succeeded && sessions[m - 1].sid == sid
  }

  lemma SynthesizedNames(sid: string, cwd: string, mcpServers: Option<Json>)
    ensures var l := SynthesizedLoad(sid, cwd, mcpServers);
            && LoadTarget(l) == Some(sid) && AsText(Field(l, "id")) == Some(REPLAY_LOAD_REQUEST_ID)
            && AsText(Field(l, "jsonrpc")) == Some("2.0")
            && AsText(Within(Field(l, "params"), "cwd")) == Some(cwd)
            && Within(Field(l, "params"), "mcpServers") == mcpServers
  {
    var base := map["sessionId" := Str(sid), "cwd" := Str(cwd)];
    assert "sessionId" != "cwd" && |"sessionId"| != |"mcpServers"| && |"cwd"| != |"mcpServers"|;
    assert base["sessionId"] == Str(sid) && "mcpServers" !in base;
    assert "method"[0] != "params"[0] && |"id"| == 2;
  }

  /** The load to replay for a session, read off the history: the client's own line if
      that opened it last, else one under the bridge's own id with the working directory
      and MCP servers of the `session/new` whose answer did. */
  ghost predicate LoadFor(h: seq<Traffic>, n: int, sid: string, l: Line) {
    exists i :: LastOpenedAt(h, n, sid, i) && RestoresOpening(h, i, sid, l)
  }

  ghost predicate RestoresOpening(h: seq<Traffic>, i: int, sid: string, l: Line)
    requires 0 <= i < |h|
  {
    match h[i]
    case ToLeader(line) => l == line
    case FromLeader(_) => exists j :: AnswersRequest(h, j, i) && RestoresNew(h[j].line, sid, l)
  }

  ghost predicate RestoresNew(request: Line, sid: string, l: Line) {
    var asked, given := Field(request, "params"), Field(l, "params");
    && Calls(l, "session/load") && AsText(Field(l, "id")) == Some(REPLAY_LOAD_REQUEST_ID)
    && AsText(Field(l, "jsonrpc")) == Some("2.0")
    && SessionId(given) == Some(sid)
    && AsText(Within(given, "cwd")).Some? && AsText(Within(given, "cwd")) == AsText(Within(asked, "cwd"))
    && Within(given, "mcpServers") == Within(asked, "mcpServers")
  }

  /** A load names the session it restores, with the parameters it was opened with; only
      a session last opened by the answer to a `session/new` without a working directory
      has no load. */
  lemma LoadNamesSession(h: seq<Traffic>, n: int, s: Session, first: int, latest: int)
    requires EntryHolds(h, n, s, first, latest)
    ensures LoadLine(s).Some? ==> LoadTarget(LoadLine(s).value) == Some(s.sid)
    ensures LoadLine(s).Some? ==> LoadFor(h, n, s.sid, LoadLine(s).value)
    ensures LoadLine(s).None? ==> CreatedWithoutDirectory(h, n, s.sid)
    ensures LoadLine(s).Some? ==> !CreatedWithoutDirectory(h, n, s.sid)
  {
    DirectoryOf(h, n, s, latest);
    match h[latest]
    case ToLeader(l) =>
      assert RestoresOpening(h, latest, s.sid, l);
    case FromLeader(l) =>
      var j :| AnswersRequest(h, j, latest) && s.cached == CachedNew(h[j].line);
      if s.cached.cwd.Some? {
        SynthesizedNames(s.sid, s.cached.cwd.value, s.cached.mcpServers);
        assert RestoresNew(h[j].line, s.sid, LoadLine(s).value);
        assert RestoresOpening(h, latest, s.sid, LoadLine(s).value);
      } else {
        assert AnswersWithoutDirectory(h, j, latest);
      }
  }

  lemma DirectoryOf(h: seq<Traffic>, n: int, s: Session, latest: int)
    requires LastOpenedAt(h, n, s.sid, latest) && Describes(h, latest, s.cached)
    ensures CreatedWithoutDirectory(h, n, s.sid) ==> LoadLine(s).None?
  {
    forall i, j | LastOpenedAt(h, n, s.sid, i) && AnswersWithoutDirectory(h, j, i) ensures LoadLine(s).None? {
      assert i == latest;
      var k :| AnswersRequest(h, k, latest) && s.cached == CachedNew(h[k].line);
      OneRequestEach(h, i, j, k);
    }
  }

  ghost predicate AnswersWithoutDirectory(h: seq<Traffic>, j: int, i: int) {
    AnswersRequest(h, j, i) && AsText(Within(Field(h[j].line, "params"), "cwd")).None?
  }

  ghost predicate CreatedWithoutDirectory(h: seq<Traffic>, n: int, sid: string) {
    exists i, j :: LastOpenedAt(h, n, sid, i) && AnswersWithoutDirectory(h, j, i)
  }

  /** `pick` says which session each restorable one is, and misses none. */
  ghost predicate Picks(sessions: seq<Session>, restorable: seq<Session>, pick: seq<int>) {
    && |pick| == |restorable| && Increasing(pick)
    && (forall m :: 0 <= m < |pick| ==>
          0 <= pick[m] < |sessions| && restorable[m] == sessions[pick[m]] && LoadLine(restorable[m]).Some?)
    && (forall i :: 0 <= i < |sessions| && LoadLine(sessions[i]).Some? ==> i in pick)
  }

  lemma PickNext(sessions: seq<Session>, restorable: seq<Session>, pick: seq<int>, s: Session)
    requires Picks(sessions, restorable, pick)
    ensures LoadLine(s).Some? ==> Picks(sessions + [s], restorable + [s], pick + [|sessions|])
    ensures LoadLine(s).None? ==> Picks(sessions + [s], restorable, pick)
  {
  }

  lemma {:induction false} RestorableIsPicked(sessions: seq<Session>) returns (pick: seq<int>)
    ensures Picks(sessions, Restorable(sessions), pick)
    decreases |sessions|
  {
    pick := [];
    if sessions != [] {
      var n := |sessions| - 1;
      var front := RestorableIsPicked(sessions[..n]);
      PickNext(sessions[..n], Restorable(sessions[..n]), front, sessions[n]);
      assert sessions[..n] + [sessions[n]] == sessions;
      pick := if LoadLine(sessions[n]).Some? then front + [n] else front;
    }
  }

  lemma {:induction false} LoadsOfRestorable(sessions: seq<Session>)
    ensures forall m :: 0 <= m < |LoadLines(sessions)| ==> LoadLine(Restorable(sessions)[m]) == Some(LoadLines(sessions)[m])
    decreases |sessions|
  {
    if sessions != [] {
      LoadsOfRestorable(sessions[..|sessions| - 1]);
    }
  }

  function Sids(sessions: seq<Session>): (sids: seq<string>)
    ensures |sids| == |sessions|
    ensures forall m :: 0 <= m < |sids| ==> sids[m] == sessions[m].sid
  {
    seq(|sessions|, m requires 0 <= m < |sessions| => sessions[m].sid)
  }

  /** The loads are exactly those of the open sessions `sids`, one each, with the
      parameters they were opened with, in the order they were first seen; an open session is left out exactly when it was created
      without a working directory. */
  ghost predicate Restores(h: seq<Traffic>, n: int, loads: seq<Line>, firstSeen: seq<int>, sids: seq<string>) {
    && |firstSeen| == |sids| == |loads| && Increasing(firstSeen)
    && (forall m :: 0 <= m < |loads| ==>
          && LoadTarget(loads[m]) == Some(sids[m]) && LoadFor(h, n, sids[m], loads[m])
          && FirstSeenAt(h, n, sids[m], firstSeen[m]))
    && (forall a, b :: 0 <= a < b < |sids| ==> sids[a] != sids[b])
    && (forall sid :: sid in sids <==> OpenAfter(h, n, sid) && !CreatedWithoutDirectory(h, n, sid))
  }

  lemma ScriptRestoresOpenSessions(h: seq<Traffic>, n: nat) returns (firstSeen: seq<int>)
    requires n <= |h| && InTurn(h)
    ensures var sessions := After(h, n).sessions;
            Restores(h, n, LoadLines(sessions), firstSeen, Sids(Restorable(sessions)))
  {
    var sessions := After(h, n).sessions;
    var loads, restorable := LoadLines(sessions), Restorable(sessions);
    var sids := Sids(restorable);
    var first, latest := CacheIsExact(h, n);
    var pick := RestorableIsPicked(sessions);
    LoadsOfRestorable(sessions);
    firstSeen := seq(|pick|, m requires 0 <= m < |pick| => first[pick[m]]);
    forall m | 0 <= m < |loads|
      ensures LoadTarget(loads[m]) == Some(sids[m]) && LoadFor(h, n, sids[m], loads[m])
      ensures FirstSeenAt(h, n, sids[m], firstSeen[m])
    {
      LoadNamesSession(h, n, restorable[m], first[pick[m]], latest[pick[m]]);
    }
    forall sid ensures sid in sids <==> OpenAfter(h, n, sid) && !CreatedWithoutDirectory(h, n, sid) {
      PickedIff(h, n, sessions, first, latest, pick, sid);
    }
  }

  lemma PickedIff(h: seq<Traffic>, n: nat, sessions: seq<Session>, first: seq<int>, latest: seq<int>, pick: seq<int>, sid: string)
    requires EntriesHold(h, n, sessions, first, latest)
    requires Picks(sessions, Restorable(sessions), pick)
    ensures sid in Sids(Restorable(sessions)) <==> Lists(sessions, sid) && !CreatedWithoutDirectory(h, n, sid)
  {
    var sids := Sids(Restorable(sessions));
    if sid in sids {
      var m :| 0 <= m < |sids| && sids[m] == sid;
      LoadNamesSession(h, n, sessions[pick[m]], first[pick[m]], latest[pick[m]]);
    }
    if Lists(sessions, sid) {
      var a :| 0 <= a < |sessions| && sessions[a].sid == sid;
      LoadNamesSession(h, n, sessions[a], first[a], latest[a]);
      if LoadLine(sessions[a]).Some? {
        var m :| 0 <= m < |pick| && pick[m] == a;
        assert sids[m] == sid;
      }
    }
  }

  /** The script opens with the client's last handshake, and is empty without one. */
  lemma ScriptOpensWithHandshake(h: seq<Traffic>, n: nat)
    requires n <= |h|
    ensures Script(After(h, n)) == [] <==> !Shaken(h, n)
    ensures Shaken(h, n) ==> LastShake(h, n, Script(After(h, n))[0])
  {
    HandshakeIsLast(h, n);
  }

  /** The session reported, read off the history. */
  lemma ChosenByHistory(h: seq<Traffic>, sids: seq<string>, primary: Option<string>)
    requires primary == Choose(After(h, |h|).last, sids)
    ensures forall sid :: sid in sids && LastActive(h, |h|, sid) ==> primary == Some(sid)
    ensures (forall sid :: sid in sids ==> !LastActive(h, |h|, sid)) ==>
              primary == if sids == [] then None else Some(sids[|sids| - 1])
  {
    forall sid ensures After(h, |h|).last == Some(sid) <==> LastActive(h, |h|, sid) {
      LastIsLastOpened(h, |h|, sid);
    }
  }

  // ----- a leader that answers everything

  /** From `from` on, the stream answers every request of the script with a result. */
  ghost predicate AnswersAll(incoming: seq<Signal>, from: nat, script: seq<Line>)
    decreases |script|
  {
    script == [] ||
    match Field(script[0], "id")
    case None => AnswersAll(incoming, from, script[1..])
    case Some(id) =>
      && from <= |incoming|
      && var k := Stop(incoming, from, id);
         && k < |incoming| && incoming[k].Message? && ReplyTo(incoming[k].line, id) == Some(Succeeded)
         && AnswersAll(incoming, k + 1, script[1..])
  }

  lemma AnsweredFirst(incoming: seq<Signal>, script: seq<Line>, e: Exchange)
    requires script != [] && e.request == script[0] && Exchanged(incoming, e)
    requires AnswersAll(incoming, e.from, script)
    ensures e.outcome == Succeeded && AnswersAll(incoming, e.end, script[1..])
  {
  }

  lemma {:induction false} FollowsRest(incoming: seq<Signal>, script: seq<Line>, trace: seq<Exchange>, from: nat, end: nat)
    requires Follows(incoming, script, trace, from, end) && trace != []
    ensures Follows(incoming, script[1..], trace[1..], trace[0].end, end)
    ensures trace[0].from == from && trace[0].request == script[0] && Exchanged(incoming, trace[0])
  {
  }

  /** Such a leader makes every exchange succeed. */
  lemma {:induction false} AllSucceed(incoming: seq<Signal>, script: seq<Line>, trace: seq<Exchange>, from: nat, end: nat)
    requires Follows(incoming, script, trace, from, end) && AnswersAll(incoming, from, script)
    ensures forall m :: 0 <= m < |trace| ==> trace[m].outcome == Succeeded
    decreases |trace|
  {
    if trace != [] {
      FollowsRest(incoming, script, trace, from, end);
      AnsweredFirst(incoming, script, trace[0]);
      AllSucceed(incoming, script[1..], trace[1..], trace[0].end, end);
      assert forall m :: 0 < m < |trace| ==> trace[m] == trace[1..][m - 1];
    }
  }

  lemma {:induction false} RestoredInOrder(sessions: seq<Session>, trace: seq<Exchange>)
    requires 1 <= |trace| <= 1 + |sessions| && forall m :: 0 <= m < |trace| ==> trace[m].outcome == Succeeded
    ensures Restored(sessions, trace) == Sids(sessions)[..|trace| - 1]
    decreases |trace|
  {
    if 1 < |trace| {
      RestoredInOrder(sessions, trace[..|trace| - 1]);
    }
  }
}
