/** What the bridge remembers of the traffic so that a new leader can be brought
    to the state of the old one: the handshake and every open session. */
module SessionCache {
  import opened Prelude
  import opened Rpc

  datatype Cached = Cached(load: Option<Line>, cwd: Option<string>, mcpServers: Option<Json>)

  datatype Session = Session(sid: string, cached: Cached)

  datatype Cache = Cache(
    initialize: Option<Line>,
    sessions: seq<Session>,
    pending: Option<Cached>,
    last: Option<string>)

  const EMPTY := Cache(None, [], None, None)

  function CachedLoad(l: Line): Cached {
    var params := Field(l, "params");
    Cached(Some(l), AsText(Within(params, "cwd")), Within(params, "mcpServers"))
  }

  function CachedNew(l: Line): Cached {
    var params := Field(l, "params");
    Cached(None, AsText(Within(params, "cwd")), Within(params, "mcpServers"))
  }

  /** The first entry for `sid`, or the length. */
  function IndexOf(sessions: seq<Session>, sid: string): (i: nat)
    ensures i <= |sessions|
    ensures i < |sessions| ==> sessions[i].sid == sid
    ensures forall k :: 0 <= k < i ==> sessions[k].sid != sid
    decreases |sessions|
  {
    if sessions == [] then 0
    else
      var i := IndexOf(sessions[..|sessions| - 1], sid);
      if i < |sessions| - 1 || sessions[|sessions| - 1].sid == sid then i else |sessions|
  }

  function Upserted(sessions: seq<Session>, sid: string, cached: Cached): seq<Session> {
    var i := IndexOf(sessions, sid);
    if i < |sessions| then sessions[i := Session(sid, cached)] else sessions + [Session(sid, cached)]
  }

  function Without(sessions: seq<Session>, sid: string): seq<Session> {
    if sessions == [] then []
    else
      var front, s := Without(sessions[..|sessions| - 1], sid), sessions[|sessions| - 1];
      if s.sid == sid then front else front + [s]
  }

  function Removed(c: Cache, sid: string): Cache {
    c.(sessions := Without(c.sessions, sid), last := if c.last == Some(sid) then None else c.last)
  }

  function Outgoing(c: Cache, l: Line): Cache {
    if IsInitialize(l) then c.(initialize := Some(l))
    else if LoadTarget(l).Some? then
      c.(sessions := Upserted(c.sessions, LoadTarget(l).value, CachedLoad(l)), last := LoadTarget(l))
    else if IsNew(l) then c.(pending := Some(CachedNew(l)))
    else if CloseTarget(l).Some? then Removed(c, CloseTarget(l).value)
    else c
  }

  function Incoming(c: Cache, l: Line): Cache {
    var sid := AssignedId(l);
    if sid.None? then c
    else if c.pending.Some? then
      c.(sessions := Upserted(c.sessions, sid.value, c.pending.value), pending := None, last := sid)
    else c.(last := sid)
  }

  class StdioReplayState {
    var initialize: Option<Line>
    var sessions: seq<Session>
    var pending: Option<Cached>
    var last: Option<string>

    ghost function View(): Cache
      reads this
    {
      Cache(initialize, sessions, pending, last)
    }

    constructor ()
      ensures View() == EMPTY
    {
      initialize, sessions, pending, last := None, [], None, None;
    }

    method UpsertSession(sid: string, cached: Cached)
      modifies this`sessions
      ensures sessions == Upserted(old(sessions), sid, cached)
    {
      for i := 0 to |sessions|
        invariant sessions == old(sessions)
        invariant forall k :: 0 <= k < i ==> sessions[k].sid != sid
      {
        if sessions[i].sid == sid {
          sessions := sessions[i := Session(sid, cached)];
          return;
        }
      }
      sessions := sessions + [Session(sid, cached)];
    }

    method RemoveSession(sid: string)
      modifies this`sessions, this`last
      ensures View() == Removed(old(View()), sid)
    {
      var kept: seq<Session> := [];
      for i := 0 to |sessions|
        invariant sessions == old(sessions)
        invariant kept == Without(sessions[..i], sid)
      {
        assert sessions[..i + 1][..i] == sessions[..i];
        if sessions[i].sid != sid {
          kept := kept + [sessions[i]];
        }
      }
      assert sessions[..|sessions|] == sessions;
      sessions := kept;
      if last == Some(sid) {
        last := None;
      }
    }

    method CacheOutgoing(l: Line)
      modifies this
      ensures View() == Outgoing(old(View()), l)
    {
      if IsInitialize(l) {
        initialize := Some(l);
      } else if Calls(l, "session/load") {
        var sid := SessionId(Field(l, "params"));
        if sid.Some? {
          UpsertSession(sid.value, CachedLoad(l));
          last := sid;
        }
      } else if IsNew(l) {
        pending := Some(CachedNew(l));
      } else if CloseTarget(l).Some? {
        RemoveSession(CloseTarget(l).value);
      }
    }

    method CacheIncoming(l: Line)
      modifies this
      ensures View() == Incoming(old(View()), l)
    {
      var sid := AssignedId(l);
      if sid.Some? {
        if pending.Some? {
          UpsertSession(sid.value, pending.value);
          pending := None;
        }
        last := sid;
      }
    }
  }

  // ----- histories

  datatype Traffic = ToLeader(line: Line) | FromLeader(line: Line)

  function Seen(c: Cache, t: Traffic): Cache {
    match t
    case ToLeader(l) => Outgoing(c, l)
    case FromLeader(l) => Incoming(c, l)
  }

  /** The cache after the first `n` lines of a history. */
  function After(h: seq<Traffic>, n: nat): Cache
    requires n <= |h|
  {
    if n == 0 then EMPTY else Seen(After(h, n - 1), h[n - 1])
  }

  // ----- which sessions are open, read off a history without the cache

  ghost predicate AssignsAt(h: seq<Traffic>, i: int) {
    0 <= i < |h| && h[i].FromLeader? && AssignedId(h[i].line).Some?
  }

  ghost predicate RequestsAt(h: seq<Traffic>, i: int) {
    0 <= i < |h| && h[i].ToLeader? && IsNew(h[i].line)
  }

  /** Line `i` loads the session or assigns its id. */
  ghost predicate OpensAt(h: seq<Traffic>, i: int, sid: string) {
    && 0 <= i < |h|
    && match h[i]
       case ToLeader(l) => LoadTarget(l) == Some(sid)
       case FromLeader(l) => AssignedId(l) == Some(sid)
  }

  ghost predicate ClosesAt(h: seq<Traffic>, i: int, sid: string) {
    0 <= i < |h| && h[i].ToLeader? && CloseTarget(h[i].line) == Some(sid)
  }

  /** Line `i` is the leader's answer to the request in line `j`, by its id. */
  ghost predicate AnswersAt(h: seq<Traffic>, j: int, i: int) {
    && 0 <= j < i < |h| && h[j].ToLeader? && h[i].FromLeader?
    && Field(h[j].line, "id").Some?
    && ReplyTo(h[i].line, Field(h[j].line, "id").value).Some?
  }

  /** The `session/new` that line `i` answers: the latest before it with its id. */
  ghost predicate AnswersRequest(h: seq<Traffic>, j: int, i: int) {
    && RequestsAt(h, j) && AnswersAt(h, j, i)
    && forall k :: j < k < i && RequestsAt(h, k) ==> !AnswersAt(h, k, i)
  }

  /** Every line that assigns an id answers a `session/new`, with no other one sent and
      no other id assigned in between. Requests that are rejected, or whose answers the
      cache is not shown, are not restricted. */
  ghost predicate InTurn(h: seq<Traffic>) {
    forall i :: AssignsAt(h, i) ==> exists j :: AnswersRequest(h, j, i) && Unassigned(h, i, j)
  }

  /** The latest `session/new`, with no id assigned since. */
  ghost predicate Unassigned(h: seq<Traffic>, n: int, j: int) {
    && j < n && RequestsAt(h, j)
    && forall k :: j < k < n ==> !RequestsAt(h, k) && !AssignsAt(h, k)
  }

  /** What opening line `i` says of its session: the load itself, or the request
      whose answer it is. */
  ghost predicate Describes(h: seq<Traffic>, i: int, c: Cached) {
    && 0 <= i < |h|
    && match h[i]
       case ToLeader(l) => c == CachedLoad(l)
       case FromLeader(_) => exists j :: AnswersRequest(h, j, i) && c == CachedNew(h[j].line)
  }

  /** The session was opened and not closed since. */
  ghost predicate OpenAfter(h: seq<Traffic>, n: int, sid: string) {
    exists i :: i < n && OpensAt(h, i, sid) && forall k :: i < k < n ==> !ClosesAt(h, k, sid)
  }

  /** Line `i` is where the session was first seen, counting from its last close. */
  ghost predicate FirstSeenAt(h: seq<Traffic>, n: int, sid: string, i: int) {
    && i < n && OpensAt(h, i, sid)
    && (forall k :: i < k < n ==> !ClosesAt(h, k, sid))
    && (forall e :: e < i && OpensAt(h, e, sid) ==> exists k :: e < k < i && ClosesAt(h, k, sid))
  }

  ghost predicate LastOpenedAt(h: seq<Traffic>, n: int, sid: string, i: int) {
    i < n && OpensAt(h, i, sid) && forall k :: i < k < n ==> !OpensAt(h, k, sid)
  }

  ghost predicate EntryHolds(h: seq<Traffic>, n: int, s: Session, first: int, latest: int) {
    FirstSeenAt(h, n, s.sid, first) && LastOpenedAt(h, n, s.sid, latest) && Describes(h, latest, s.cached)
  }

  ghost predicate Increasing(s: seq<int>) {
    forall a, b :: 0 <= a < b < |s| ==> s[a] < s[b]
  }

  ghost predicate OneEach(sessions: seq<Session>) {
    forall a, b :: 0 <= a < b < |sessions| ==> sessions[a].sid != sessions[b].sid
  }

  ghost predicate Lists(sessions: seq<Session>, sid: string) {
    exists a :: 0 <= a < |sessions| && sessions[a].sid == sid
  }

  ghost predicate ListsOpen(h: seq<Traffic>, n: int, sessions: seq<Session>) {
    forall sid :: OpenAfter(h, n, sid) ==> Lists(sessions, sid)
  }

  ghost predicate EntriesHold(h: seq<Traffic>, n: int, sessions: seq<Session>, first: seq<int>, latest: seq<int>) {
    && |sessions| == |first| == |latest|
    && forall a :: 0 <= a < |sessions| ==> EntryHolds(h, n, sessions[a], first[a], latest[a])
  }

  /** The sessions are exactly the open ones, one entry each, in first-seen order,
      each described by its latest opening. `first` and `latest` are the lines. */
  ghost predicate Tracks(h: seq<Traffic>, n: int, sessions: seq<Session>, first: seq<int>, latest: seq<int>) {
    && EntriesHold(h, n, sessions, first, latest)
    && Increasing(first) && OneEach(sessions) && ListsOpen(h, n, sessions)
  }

  // ----- one line of traffic

  ghost predicate PendingTracks(h: seq<Traffic>, n: int, pending: Option<Cached>) {
    forall j :: Unassigned(h, n, j) ==> pending == Some(CachedNew(h[j].line))
  }

  /** The four kinds of client line are told apart by their method. */
  lemma KindsDiffer(l: Line)
    ensures LoadTarget(l).Some? ==> !IsInitialize(l) && !IsNew(l) && CloseTarget(l).None?
    ensures IsNew(l) ==> !IsInitialize(l) && CloseTarget(l).None?
    ensures CloseTarget(l).Some? ==> !IsInitialize(l)
  {
    var a, b, c, d, e := "initialize", "session/load", "session/new", "x.ai/session/close", "_x.ai/session/close";
    assert |a| == 10 && |b| == 12 && |c| == 11 && |d| == 18 && |e| == 19;
  }

  lemma OneEffect(h: seq<Traffic>, n: int, sid: string)
    requires OpensAt(h, n, sid)
    ensures forall other :: !ClosesAt(h, n, other)
    ensures forall other :: OpensAt(h, n, other) ==> other == sid
  {
    KindsDiffer(h[n].line);
  }

  lemma OneRequestEach(h: seq<Traffic>, i: int, j: int, k: int)
    requires AnswersRequest(h, j, i) && AnswersRequest(h, k, i)
    ensures j == k
  {
    assert j < k ==> k < i && RequestsAt(h, k) && AnswersAt(h, k, i);
    assert k < j ==> j < i && RequestsAt(h, j) && AnswersAt(h, j, i);
  }

  /** The request an assignment answers is the one the cache holds pending, although
      the cache never looks at ids. */
  lemma AnswerFindsPending(h: seq<Traffic>, n: int, j: int)
    requires InTurn(h) && AssignsAt(h, n) && AnswersRequest(h, j, n)
    ensures Unassigned(h, n, j)
  {
    var k :| AnswersRequest(h, k, n) && Unassigned(h, n, k);
    OneRequestEach(h, n, j, k);
  }

  // ----- one request at a time

  ghost predicate FirstAnswerAt(h: seq<Traffic>, j: int, i: int) {
    AnswersAt(h, j, i) && forall k :: j < k < i ==> !AnswersAt(h, j, k)
  }

  /** At most one `session/new` is unanswered at a time. */
  ghost predicate OneNewAtATime(h: seq<Traffic>) {
    forall j, k :: j < k && RequestsAt(h, j) && RequestsAt(h, k) ==> exists i :: i < k && AnswersAt(h, j, i)
  }

  /** Only the answer to a `session/new` carries a session id. */
  ghost predicate OnlyNewAssigns(h: seq<Traffic>) {
    forall i :: AssignsAt(h, i) ==> exists j :: RequestsAt(h, j) && FirstAnswerAt(h, j, i)
  }

  lemma EarlierAnswered(h: seq<Traffic>, j: int, k: int)
    requires OneNewAtATime(h)
    ensures j < k && RequestsAt(h, j) && RequestsAt(h, k) ==> exists i :: i < k && AnswersAt(h, j, i)
  {
  }

  /** A client that sends one `session/new` at a time, to a leader that assigns ids in
      their answers only, is in turn. */
  lemma OneAtATimeIsInTurn(h: seq<Traffic>)
    requires OneNewAtATime(h) && OnlyNewAssigns(h)
    ensures InTurn(h)
  {
    forall i | AssignsAt(h, i) ensures exists j :: AnswersRequest(h, j, i) && Unassigned(h, i, j) {
      var j :| RequestsAt(h, j) && FirstAnswerAt(h, j, i);
      forall k | j < k < i ensures !RequestsAt(h, k) {
        EarlierAnswered(h, j, k);
      }
      forall k | j < k < i ensures !AssignsAt(h, k) {
        forall e | RequestsAt(h, e) ensures !FirstAnswerAt(h, e, k) {
          EarlierAnswered(h, e, j);
        }
      }
      assert AnswersRequest(h, j, i) && Unassigned(h, i, j);
    }
  }

  lemma OpenBefore(h: seq<Traffic>, n: int, sid: string)
    ensures OpenAfter(h, n + 1, sid) && !OpensAt(h, n, sid) ==> OpenAfter(h, n, sid)
    ensures ClosesAt(h, n, sid) && !OpensAt(h, n, sid) ==> !OpenAfter(h, n + 1, sid)
  {
    if OpenAfter(h, n + 1, sid) {
      var i :| i < n + 1 && OpensAt(h, i, sid) && forall k :: i < k < n + 1 ==> !ClosesAt(h, k, sid);
      assert i < n || i == n;
    }
  }

  lemma EntryUntouched(h: seq<Traffic>, n: int, s: Session, first: int, latest: int)
    requires EntryHolds(h, n, s, first, latest)
    requires !OpensAt(h, n, s.sid) && !ClosesAt(h, n, s.sid)
    ensures EntryHolds(h, n + 1, s, first, latest)
  {
  }

  lemma TrackOther(h: seq<Traffic>, n: int, sessions: seq<Session>, first: seq<int>, latest: seq<int>)
    requires Tracks(h, n, sessions, first, latest)
    requires forall sid :: !OpensAt(h, n, sid)
    requires forall sid :: ClosesAt(h, n, sid) ==> !Lists(sessions, sid)
    ensures Tracks(h, n + 1, sessions, first, latest)
  {
    forall a | 0 <= a < |sessions| ensures EntryHolds(h, n + 1, sessions[a], first[a], latest[a]) {
      EntryUntouched(h, n, sessions[a], first[a], latest[a]);
    }
    forall sid | OpenAfter(h, n + 1, sid) ensures Lists(sessions, sid) {
      OpenBefore(h, n, sid);
    }
  }

  lemma EntryReopened(h: seq<Traffic>, n: int, s: Session, first: int, latest: int, cached: Cached)
    requires EntryHolds(h, n, s, first, latest)
    requires OpensAt(h, n, s.sid) && Describes(h, n, cached)
    ensures EntryHolds(h, n + 1, Session(s.sid, cached), first, n)
  {
    OneEffect(h, n, s.sid);
  }

  lemma ReplacedLists(sessions: seq<Session>, a: int, cached: Cached)
    requires 0 <= a < |sessions|
    ensures OneEach(sessions) ==> OneEach(sessions[a := Session(sessions[a].sid, cached)])
    ensures forall sid :: Lists(sessions, sid) ==> Lists(sessions[a := Session(sessions[a].sid, cached)], sid)
  {
    var updated := sessions[a := Session(sessions[a].sid, cached)];
    forall sid | Lists(sessions, sid) ensures Lists(updated, sid) {
      var b :| 0 <= b < |sessions| && sessions[b].sid == sid;
      assert updated[b].sid == sid;
    }
  }

  lemma TrackReopen(h: seq<Traffic>, n: int, sessions: seq<Session>, first: seq<int>, latest: seq<int>, a: int, cached: Cached)
    requires Tracks(h, n, sessions, first, latest) && 0 <= a < |sessions|
    requires OpensAt(h, n, sessions[a].sid) && Describes(h, n, cached)
    ensures Tracks(h, n + 1, sessions[a := Session(sessions[a].sid, cached)], first, latest[a := n])
  {
    var sid := sessions[a].sid;
    var updated, newest := sessions[a := Session(sid, cached)], latest[a := n];
    OneEffect(h, n, sid);
    forall b | 0 <= b < |sessions| ensures EntryHolds(h, n + 1, updated[b], first[b], newest[b]) {
      if b == a {
        EntryReopened(h, n, sessions[a], first[a], latest[a], cached);
      } else {
        EntryUntouched(h, n, sessions[b], first[b], latest[b]);
      }
    }
    ReplacedLists(sessions, a, cached);
    assert Lists(updated, sid) by { assert updated[a].sid == sid; }
    forall other | OpenAfter(h, n + 1, other) ensures Lists(updated, other) {
      OpenBefore(h, n, other);
    }
  }

  lemma EntryAppended(h: seq<Traffic>, n: int, sid: string, cached: Cached)
    requires !OpenAfter(h, n, sid) && OpensAt(h, n, sid) && Describes(h, n, cached)
    ensures EntryHolds(h, n + 1, Session(sid, cached), n, n)
  {
  }

  lemma TrackAppend(h: seq<Traffic>, n: int, sessions: seq<Session>, first: seq<int>, latest: seq<int>, sid: string, cached: Cached)
    requires Tracks(h, n, sessions, first, latest) && !Lists(sessions, sid)
    requires OpensAt(h, n, sid) && Describes(h, n, cached)
    ensures Tracks(h, n + 1, sessions + [Session(sid, cached)], first + [n], latest + [n])
  {
    OneEffect(h, n, sid);
    forall b | 0 <= b < |sessions| ensures EntryHolds(h, n + 1, sessions[b], first[b], latest[b]) {
      EntryUntouched(h, n, sessions[b], first[b], latest[b]);
    }
    EntryAppended(h, n, sid, cached);
    var updated := sessions + [Session(sid, cached)];
    forall other | OpenAfter(h, n + 1, other) ensures Lists(updated, other) {
      OpenBefore(h, n, other);
      AppendedLists(sessions, Session(sid, cached), other);
    }
  }

  lemma AppendedLists(sessions: seq<Session>, s: Session, sid: string)
    ensures Lists(sessions, sid) || s.sid == sid ==> Lists(sessions + [s], sid)
  {
    assert (sessions + [s])[|sessions|] == s;
    if Lists(sessions, sid) {
      var a :| 0 <= a < |sessions| && sessions[a].sid == sid;
      assert (sessions + [s])[a].sid == sid;
    }
  }

  /** Dropping the only entry of a session. */
  lemma {:induction false} WithoutOne(sessions: seq<Session>, sid: string, a: int)
    requires forall x, y :: 0 <= x < y < |sessions| ==> sessions[x].sid != sessions[y].sid
    requires 0 <= a < |sessions| && sessions[a].sid == sid
    ensures Without(sessions, sid) == sessions[..a] + sessions[a + 1..]
    decreases |sessions|
  {
    var m := |sessions| - 1;
    if a == m {
      WithoutNone(sessions[..m], sid);
      assert sessions[..a] + sessions[a + 1..] == sessions[..m];
    } else {
      WithoutOne(sessions[..m], sid, a);
      assert sessions[..a] + sessions[a + 1..] == sessions[..m][..a] + sessions[..m][a + 1..] + [sessions[m]];
    }
  }

  lemma {:induction false} WithoutNone(sessions: seq<Session>, sid: string)
    requires forall x :: 0 <= x < |sessions| ==> sessions[x].sid != sid
    ensures Without(sessions, sid) == sessions
    decreases |sessions|
  {
    if sessions != [] {
      WithoutNone(sessions[..|sessions| - 1], sid);
    }
  }

  lemma TrackClose(h: seq<Traffic>, n: int, sessions: seq<Session>, first: seq<int>, latest: seq<int>, a: int)
    requires Tracks(h, n, sessions, first, latest) && 0 <= a < |sessions|
    requires ClosesAt(h, n, sessions[a].sid)
    ensures Tracks(h, n + 1, sessions[..a] + sessions[a + 1..], first[..a] + first[a + 1..], latest[..a] + latest[a + 1..])
  {
    var sid := sessions[a].sid;
    KindsDiffer(h[n].line);
    forall b | 0 <= b < |sessions| && b != a ensures EntryHolds(h, n + 1, sessions[b], first[b], latest[b]) {
      assert sessions[b].sid != sid;
      EntryUntouched(h, n, sessions[b], first[b], latest[b]);
    }
    EntriesWithout(h, n + 1, sessions, first, latest, a);
    OrderWithout(sessions, first, a);
    var kept := sessions[..a] + sessions[a + 1..];
    forall other | OpenAfter(h, n + 1, other) ensures Lists(kept, other) {
      OpenBefore(h, n, other);
      WithoutLists(sessions, a, other);
    }
  }

  lemma WithoutLists(sessions: seq<Session>, a: int, sid: string)
    requires 0 <= a < |sessions| && sessions[a].sid != sid
    ensures Lists(sessions, sid) ==> Lists(sessions[..a] + sessions[a + 1..], sid)
  {
    var kept := sessions[..a] + sessions[a + 1..];
    if Lists(sessions, sid) {
      var b :| 0 <= b < |sessions| && sessions[b].sid == sid;
      assert kept[if b < a then b else b - 1].sid == sid;
    }
  }

  lemma EntriesWithout(h: seq<Traffic>, n: int, sessions: seq<Session>, first: seq<int>, latest: seq<int>, a: int)
    requires 0 <= a < |sessions| == |first| == |latest|
    requires forall b :: 0 <= b < |sessions| && b != a ==> EntryHolds(h, n, sessions[b], first[b], latest[b])
    ensures EntriesHold(h, n, sessions[..a] + sessions[a + 1..], first[..a] + first[a + 1..], latest[..a] + latest[a + 1..])
  {
  }

  lemma OrderWithout(sessions: seq<Session>, first: seq<int>, a: int)
    requires 0 <= a < |sessions| == |first| && Increasing(first) && OneEach(sessions)
    ensures Increasing(first[..a] + first[a + 1..]) && OneEach(sessions[..a] + sessions[a + 1..])
  {
  }

  // ----- whole histories

  lemma IndexLists(sessions: seq<Session>, sid: string)
    ensures Lists(sessions, sid) <==> IndexOf(sessions, sid) < |sessions|
  {
  }

  lemma TrackUpsert(h: seq<Traffic>, n: int, sessions: seq<Session>, first: seq<int>, latest: seq<int>, sid: string, cached: Cached)
    returns (newFirst: seq<int>, newLatest: seq<int>)
    requires Tracks(h, n, sessions, first, latest) && OpensAt(h, n, sid) && Describes(h, n, cached)
    ensures Tracks(h, n + 1, Upserted(sessions, sid, cached), newFirst, newLatest)
  {
    var i := IndexOf(sessions, sid);
    IndexLists(sessions, sid);
    if i < |sessions| {
      TrackReopen(h, n, sessions, first, latest, i, cached);
      return first, latest[i := n];
    }
    TrackAppend(h, n, sessions, first, latest, sid, cached);
    return first + [n], latest + [n];
  }

  lemma TrackRemove(h: seq<Traffic>, n: int, sessions: seq<Session>, first: seq<int>, latest: seq<int>, sid: string)
    returns (newFirst: seq<int>, newLatest: seq<int>)
    requires Tracks(h, n, sessions, first, latest) && ClosesAt(h, n, sid)
    ensures Tracks(h, n + 1, Without(sessions, sid), newFirst, newLatest)
  {
    var i := IndexOf(sessions, sid);
    IndexLists(sessions, sid);
    if i < |sessions| {
      WithoutOne(sessions, sid, i);
      TrackClose(h, n, sessions, first, latest, i);
      return first[..i] + first[i + 1..], latest[..i] + latest[i + 1..];
    }
    KindsDiffer(h[n].line);
    WithoutNone(sessions, sid);
    TrackOther(h, n, sessions, first, latest);
    return first, latest;
  }

  lemma PendingStep(h: seq<Traffic>, n: nat)
    requires n < |h| && PendingTracks(h, n, After(h, n).pending)
    ensures PendingTracks(h, n + 1, After(h, n + 1).pending)
  {
    KindsDiffer(h[n].line);
    forall j | Unassigned(h, n + 1, j) ensures After(h, n + 1).pending == Some(CachedNew(h[j].line)) {
      assert j < n ==> Unassigned(h, n, j) && !RequestsAt(h, n) && !AssignsAt(h, n);
    }
  }

  /** An assigned id is cached with the description of the request it answers. */
  lemma AssignedDescription(h: seq<Traffic>, n: nat)
    requires InTurn(h) && AssignsAt(h, n)
    requires PendingTracks(h, n, After(h, n).pending)
    ensures After(h, n).pending.Some? && Describes(h, n, After(h, n).pending.value)
  {
    var j :| AnswersRequest(h, j, n) && Unassigned(h, n, j);
  }

  lemma TrackStep(h: seq<Traffic>, n: nat, first: seq<int>, latest: seq<int>)
    returns (newFirst: seq<int>, newLatest: seq<int>)
    requires n < |h| && InTurn(h)
    requires Tracks(h, n, After(h, n).sessions, first, latest) && PendingTracks(h, n, After(h, n).pending)
    ensures Tracks(h, n + 1, After(h, n + 1).sessions, newFirst, newLatest)
  {
    var c, l := After(h, n), h[n].line;
    KindsDiffer(l);
    if h[n].FromLeader? && AssignedId(l).Some? {
      AssignedDescription(h, n);
      newFirst, newLatest := TrackUpsert(h, n, c.sessions, first, latest, AssignedId(l).value, c.pending.value);
    } else if h[n].ToLeader? && LoadTarget(l).Some? {
      newFirst, newLatest := TrackUpsert(h, n, c.sessions, first, latest, LoadTarget(l).value, CachedLoad(l));
    } else if h[n].ToLeader? && CloseTarget(l).Some? {
      newFirst, newLatest := TrackRemove(h, n, c.sessions, first, latest, CloseTarget(l).value);
    } else {
      TrackOther(h, n, c.sessions, first, latest);
      newFirst, newLatest := first, latest;
    }
  }

  /** The cache is exact: when requests are answered in turn it holds exactly the sessions opened and not closed since, one
      entry each, in first-seen order, each as its latest opening described it. */
  lemma {:induction false} CacheIsExact(h: seq<Traffic>, n: nat) returns (first: seq<int>, latest: seq<int>)
    requires n <= |h| && InTurn(h)
    ensures Tracks(h, n, After(h, n).sessions, first, latest)
    ensures PendingTracks(h, n, After(h, n).pending)
    ensures forall sid :: Lists(After(h, n).sessions, sid) <==> OpenAfter(h, n, sid)
  {
    if n == 0 {
      first, latest := [], [];
    } else {
      var f, l := CacheIsExact(h, n - 1);
      PendingStep(h, n - 1);
      first, latest := TrackStep(h, n - 1, f, l);
    }
  }

  // ----- the handshake

  ghost predicate ShakesAt(h: seq<Traffic>, i: int) {
    0 <= i < |h| && h[i].ToLeader? && IsInitialize(h[i].line)
  }

  /** Line `i` is the client's last `initialize` among the first `n` lines. */
  ghost predicate LastShakeAt(h: seq<Traffic>, n: int, l: Line, i: int) {
    i < n && ShakesAt(h, i) && h[i].line == l && forall k :: i < k < n ==> !ShakesAt(h, k)
  }

  ghost predicate LastShake(h: seq<Traffic>, n: int, l: Line) {
    exists i :: LastShakeAt(h, n, l, i)
  }

  ghost predicate Shaken(h: seq<Traffic>, n: int) {
    exists i :: i < n && ShakesAt(h, i)
  }

  /** In every history the cached handshake is the client's last `initialize` line, and
      there is none exactly when the client sent none. */
  lemma {:induction false} HandshakeIsLast(h: seq<Traffic>, n: nat)
    requires n <= |h|
    ensures forall l :: After(h, n).initialize == Some(l) <==> LastShake(h, n, l)
    ensures After(h, n).initialize.Some? <==> Shaken(h, n)
  {
    if n != 0 {
      var m := n - 1;
      HandshakeIsLast(h, m);
      KindsDiffer(h[m].line);
      if ShakesAt(h, m) {
        assert LastShakeAt(h, n, h[m].line, m);
        forall l | LastShake(h, n, l) ensures l == h[m].line {
          var i :| LastShakeAt(h, n, l, i);
          assert i == m;
        }
      } else {
        assert After(h, n).initialize == After(h, m).initialize;
        forall l ensures LastShake(h, n, l) <==> LastShake(h, m, l) {
          LastShakeStep(h, m, l);
        }
      }
    }
  }

  lemma LastShakeStep(h: seq<Traffic>, m: nat, l: Line)
    requires m < |h| && !ShakesAt(h, m)
    ensures LastShake(h, m + 1, l) <==> LastShake(h, m, l)
  {
    var n := m + 1;
    if i :| LastShakeAt(h, n, l, i) {
      assert LastShakeAt(h, m, l, i);
    }
    if i :| LastShakeAt(h, m, l, i) {
      assert LastShakeAt(h, n, l, i);
    }
  }

  // ----- the last active session

  ghost predicate OpensSomeAt(h: seq<Traffic>, i: int) {
    0 <= i < |h| && (if h[i].ToLeader? then LoadTarget(h[i].line).Some? else AssignedId(h[i].line).Some?)
  }

  /** Line `i` opened the session, nothing was opened since, and it was not closed. */
  ghost predicate LastActiveAt(h: seq<Traffic>, n: int, sid: string, i: int) {
    && i < n && OpensAt(h, i, sid)
    && forall k :: i < k < n ==> !OpensSomeAt(h, k) && !ClosesAt(h, k, sid)
  }

  ghost predicate LastActive(h: seq<Traffic>, n: int, sid: string) {
    exists i :: LastActiveAt(h, n, sid, i)
  }

  /** In every history, the session reported as primary is the last one opened,
      unless it was closed; closing it does not bring an earlier one back. */
  lemma {:induction false} LastIsLastOpened(h: seq<Traffic>, n: nat, sid: string)
    requires n <= |h|
    ensures After(h, n).last == Some(sid) <==> LastActive(h, n, sid)
  {
    if n != 0 {
      LastIsLastOpened(h, n - 1, sid);
      KindsDiffer(h[n - 1].line);
      if OpensAt(h, n - 1, sid) {
        assert LastActiveAt(h, n, sid, n - 1);
      } else {
        LastActiveStep(h, n - 1, sid);
      }
    }
  }

  lemma LastActiveStep(h: seq<Traffic>, n: nat, sid: string)
    requires n < |h| && !OpensAt(h, n, sid)
    ensures LastActive(h, n + 1, sid) <==> LastActive(h, n, sid) && !OpensSomeAt(h, n) && !ClosesAt(h, n, sid)
  {
    var m := n + 1;
    if i :| LastActiveAt(h, m, sid, i) {
      assert LastActiveAt(h, n, sid, i);
    }
    if i :| LastActiveAt(h, n, sid, i) && !OpensSomeAt(h, n) && !ClosesAt(h, n, sid) {
      assert LastActiveAt(h, m, sid, i);
    }
  }

  /** Under the same conditions as exactness, the primary session is a cached one. */
  lemma LastIsCached(h: seq<Traffic>, n: nat)
    requires n <= |h| && InTurn(h) && After(h, n).last.Some?
    ensures Lists(After(h, n).sessions, After(h, n).last.value)
  {
    var sid := After(h, n).last.value;
    LastIsLastOpened(h, n, sid);
    var i :| LastActiveAt(h, n, sid, i);
    assert OpenAfter(h, n, sid);
    var _, _ := CacheIsExact(h, n);
  }

  /** Why one `session/new` at a time matters: with two in flight, the first answer
      files the second request's description, and the second session is lost. */
  lemma OverlappingNewsLoseASession(a: Line, b: Line, answerA: Line, answerB: Line)
    requires IsNew(a) && IsNew(b) && AssignedId(answerA).Some? && AssignedId(answerB).Some?
    ensures var c := After([ToLeader(a), ToLeader(b), FromLeader(answerA), FromLeader(answerB)], 4);
            c.sessions == [Session(AssignedId(answerA).value, CachedNew(b))] && c.last == AssignedId(answerB)
  {
    var h := [ToLeader(a), ToLeader(b), FromLeader(answerA), FromLeader(answerB)];
    KindsDiffer(a);
    KindsDiffer(b);
    assert After(h, 1) == Cache(None, [], Some(CachedNew(a)), None);
    assert After(h, 2) == Cache(None, [], Some(CachedNew(b)), None);
    var sid := AssignedId(answerA).value;
    assert [] + [Session(sid, CachedNew(b))] == [Session(sid, CachedNew(b))];
    assert After(h, 3) == Cache(None, [Session(sid, CachedNew(b))], None, Some(sid));
  }
}
