/** The stdio bridge: one task forwards client lines through a shared sender, the
    other relays the leader's lines and, after a crash, reconnects, swaps the
    sender and replays under its lock. The tasks are steps of one state machine;
    a run is any sequence of enabled steps. */
module Bridge {
  import opened Prelude
  import opened Rpc
  import opened SessionCache
  import opened Replay

  /** What a connection's sending channel accepted: client line number `index`, or a
      replayed request. A leader that dies may not have read all of it. */
  datatype Entry = Client(index: nat) | Replayed(line: Line)

  /** What a replay works from: the cache after `seen` lines of traffic, taken when
      `heard` lines had gone by either way and `read` of them were the client's;
      `sent` counts its requests. */
  datatype Snapshot = Snapshot(script: seq<Line>, seen: nat, heard: nat, read: nat, sent: nat)

  /** A line that went by, and whether the filter let the cache see it. */
  datatype Heard = Heard(traffic: Traffic, shown: bool)

  /** A client line, and whether the filter in front of the cache passes it. */
  datatype Input = Input(line: Line, kept: bool)

  datatype Conn = Conn(log: seq<Entry>, snapshot: Option<Snapshot>)

  datatype Holder = Free | Stdin | Stdout

  datatype StdinState = Reading | Waiting | Sending | Retrying

  datatype StdoutState = Relaying | Reconnected | Locked | Swapped | Replaying

  /** `lines` are the client lines read so far, `heard` the traffic the filters looked
      at and `history` the part of it the cache was shown. `alive` are the connections
      whose channel still accepts lines; a reconnect does not wait for the old one to
      close. */
  datatype State = State(
    conns: seq<Conn>,
    alive: set<nat>,
    tx: nat,
    lock: Holder,
    stdin: StdinState,
    stdout: StdoutState,
    cache: Cache,
    lines: seq<Input>,
    heard: seq<Heard>,
    history: seq<Traffic>)
  {
    function Newest(): int {
      |conns| - 1
    }
  }

  datatype Step =
    | ReadLine(input: Input) | StdinLock | SendOk | SendFails | Retry | GiveUp
    | Relay(line: Line, noted: bool) | Reconnect | StdoutLock | Swap | TakeSnapshot | ReplaySend | ReplayEnd
    | Die(conn: nat)

  const INIT := State([Conn([], None)], {0}, 0, Free, Reading, Relaying, EMPTY, [], [], [])

  predicate Enabled(s: State, step: Step) {
    match step
    case ReadLine(_) => s.stdin.Reading?
    case StdinLock => s.stdin.Waiting? && s.lock.Free?
    case SendOk => s.stdin.Sending? && s.tx in s.alive && s.tx < |s.conns| && s.lines != []
    case SendFails => s.stdin.Sending? && s.tx !in s.alive
    case Retry => s.stdin.Retrying?
    case GiveUp => s.stdin.Retrying?
    case Relay(_, _) => s.stdout.Relaying?
    case Reconnect => s.stdout.Relaying?
    case StdoutLock => s.stdout.Reconnected? && s.lock.Free?
    case Swap => s.stdout.Locked? && 0 <= s.Newest()
    case TakeSnapshot => s.stdout.Swapped? && 0 <= s.Newest()
    case ReplaySend =>
      && s.stdout.Replaying? && 0 <= s.Newest() && s.Newest() in s.alive
      && s.conns[s.Newest()].snapshot.Some?
      && s.conns[s.Newest()].snapshot.value.sent < |s.conns[s.Newest()].snapshot.value.script|
    case ReplayEnd => s.stdout.Replaying?
    case Die(_) => true
  }

  /** A line goes by; the cache sees it if the filter says so. */
  function Hear(s: State, h: Heard): State {
    var u := s.(heard := s.heard + [h]);
    if h.shown then u.(history := s.history + [h.traffic], cache := Seen(s.cache, h.traffic)) else u
  }

  function SetConn(s: State, c: int, conn: Conn): State
    requires 0 <= c < |s.conns|
  {
    s.(conns := s.conns[c := conn])
  }

  function Append(conn: Conn, e: Entry): Conn {
    conn.(log := conn.log + [e])
  }

  function Apply(s: State, step: Step): State
    requires Enabled(s, step)
  {
    match step
    case ReadLine(input) =>
      Hear(s.(lines := s.lines + [input], stdin := Waiting), Heard(ToLeader(input.line), input.kept))
    case StdinLock => s.(stdin := Sending, lock := Stdin)
    case SendOk =>
      SetConn(s, s.tx, Append(s.conns[s.tx], Client(|s.lines| - 1))).(stdin := Reading, lock := Free)
    case SendFails => s.(stdin := Retrying, lock := Free)
    case Retry => s.(stdin := Waiting)
    case GiveUp => s.(stdin := Reading)
    case Relay(line, noted) => Hear(s, Heard(FromLeader(line), noted))
    case Reconnect =>
      s.(conns := s.conns + [Conn([], None)], alive := s.alive + {|s.conns|}, stdout := Reconnected)
    case StdoutLock => s.(stdout := Locked, lock := Stdout)
    case Swap => s.(stdout := Swapped, tx := s.Newest())
    case TakeSnapshot =>
      var snapshot := Snapshot(Script(s.cache), |s.history|, |s.heard|, |s.lines|, 0);
      SetConn(s, s.Newest(), s.conns[s.Newest()].(snapshot := Some(snapshot))).(stdout := Replaying)
    case ReplaySend =>
      var conn := s.conns[s.Newest()];
      var snapshot := conn.snapshot.value;
      var next := Append(conn, Replayed(snapshot.script[snapshot.sent]));
      SetConn(s, s.Newest(), next.(snapshot := Some(snapshot.(sent := snapshot.sent + 1))))
    case ReplayEnd => s.(stdout := Relaying, lock := Free)
    case Die(c) => s.(alive := s.alive - {c})
  }

  // ----- runs

  predicate Runs(s: State, steps: seq<Step>)
    decreases |steps|
  {
    steps == [] || (Enabled(s, steps[0]) && Runs(Apply(s, steps[0]), steps[1..]))
  }

  function Reached(s: State, steps: seq<Step>): State
    requires Runs(s, steps)
    decreases |steps|
  {
    if steps == [] then s else Reached(Apply(s, steps[0]), steps[1..])
  }

  // ----- the invariant

  /** The client lines among the traffic. */
  function FromClient(h: seq<Traffic>): seq<Line> {
    if h == [] then []
    else
      var front, t := FromClient(h[..|h| - 1]), h[|h| - 1];
      if t.ToLeader? then front + [t.line] else front
  }

  /** The traffic the filter passes. */
  function Shown(heard: seq<Heard>): seq<Traffic> {
    if heard == [] then []
    else
      var front, h := Shown(heard[..|heard| - 1]), heard[|heard| - 1];
      if h.shown then front + [h.traffic] else front
  }

  /** The client lines the filter passes. */
  function Passing(lines: seq<Input>): seq<Line> {
    if lines == [] then []
    else
      var front, input := Passing(lines[..|lines| - 1]), lines[|lines| - 1];
      if input.kept then front + [input.line] else front
  }

  /** The log is the script's first `sent` requests, then client lines only. */
  ghost predicate ReplayFirst(script: seq<Line>, sent: nat, log: seq<Entry>) {
    && sent <= |script| && sent <= |log|
    && (forall a :: 0 <= a < sent ==> log[a] == Replayed(script[a]))
    && (forall a :: sent <= a < |log| ==> log[a].Client?)
  }

  /** The snapshot is the cache's state after traffic that holds exactly the client
      lines read up to then, as far as the filter passes them. */
  ghost predicate SnapshotTrue(s: State, snapshot: Snapshot) {
    && snapshot.seen <= |s.history| && snapshot.read <= |s.lines| && snapshot.heard <= |s.heard|
    && snapshot.script == Script(After(s.history, snapshot.seen))
    && s.history[..snapshot.seen] == Shown(s.heard[..snapshot.heard])
    && FromClient(s.history[..snapshot.seen]) == Passing(s.lines[..snapshot.read])
  }

  ghost predicate ConnOk(s: State, conn: Conn) {
    match conn.snapshot
    case None => ReplayFirst([], 0, conn.log)
    case Some(snapshot) => SnapshotTrue(s, snapshot) && ReplayFirst(snapshot.script, snapshot.sent, conn.log)
  }

  /** How many client lines are no longer in the stdin task's hands. */
  function Settled(s: State): int {
    if s.stdin.Reading? then |s.lines| else |s.lines| - 1
  }

  /** Entry `a` on connection `c` is client line `i`. */
  ghost predicate ClientAt(s: State, c: int, a: int, i: int) {
    && 0 <= c < |s.conns| && 0 <= a < |s.conns[c].log|
    && s.conns[c].log[a].Client? && s.conns[c].log[a].index == i
  }

  ghost predicate ControlOk(s: State) {
    && s.conns != [] && (!s.stdin.Reading? ==> s.lines != [])
    && (s.stdin.Sending? <==> s.lock.Stdin?)
    && (s.stdout.Locked? || s.stdout.Swapped? || s.stdout.Replaying? <==> s.lock.Stdout?)
    && (if s.stdout.Reconnected? || s.stdout.Locked? then s.tx == s.Newest() - 1 else s.tx == s.Newest())
    && 0 <= s.tx
  }

  /** The newest connection is untouched until its snapshot is taken, and all of its
      entries are the replay's until that ends. */
  ghost predicate NewestOk(s: State)
    requires s.conns != []
  {
    var conn := s.conns[s.Newest()];
    && (s.stdout.Reconnected? || s.stdout.Locked? || s.stdout.Swapped? ==> conn == Conn([], None))
    && (s.stdout.Replaying? ==> conn.snapshot.Some? && conn.snapshot.value.sent == |conn.log|)
    && (s.stdout.Relaying? && 0 < s.Newest() ==> conn.snapshot.Some?)
  }

  ghost predicate CacheOk(s: State) {
    && s.cache == After(s.history, |s.history|)
    && s.history == Shown(s.heard)
    && FromClient(s.history) == Passing(s.lines)
  }

  /** Client lines arrive in the order they were read, none twice. */
  ghost predicate InOrder(s: State) {
    && (forall c, a, i :: ClientAt(s, c, a, i) ==> i < Settled(s))
    && (forall c, a, i, d, b, j :: ClientAt(s, c, a, i) && ClientAt(s, d, b, j) && (c < d || (c == d && a < b)) ==> i < j)
  }

  /** Whatever reached an earlier leader was read before the snapshot for a later one. */
  ghost predicate ReadBefore(s: State) {
    forall c, a, i, d :: ClientAt(s, c, a, i) && c < d < |s.conns| && s.conns[d].snapshot.Some? ==>
      i < s.conns[d].snapshot.value.read
  }

  ghost predicate ConnsOk(s: State) {
    && (forall c :: 0 <= c < |s.conns| ==> ConnOk(s, s.conns[c]))
    && (forall c :: 0 < c < |s.conns| - 1 ==> s.conns[c].snapshot.Some?)
  }

  ghost predicate Inv(s: State) {
    ControlOk(s) && NewestOk(s) && CacheOk(s) && ConnsOk(s) && InOrder(s) && ReadBefore(s)
  }

  lemma InitInv()
    ensures Inv(INIT)
  {
  }

  // ----- steps that show the cache a line

  lemma {:induction false} AfterExtends(h: seq<Traffic>, t: Traffic, n: nat)
    requires n <= |h|
    ensures After(h + [t], n) == After(h, n)
  {
    if n != 0 {
      AfterExtends(h, t, n - 1);
    }
  }

  lemma FromClientNext(h: seq<Traffic>, t: Traffic)
    ensures FromClient(h + [t]) == FromClient(h) + (if t.ToLeader? then [t.line] else [])
  {
    assert (h + [t])[..|h|] == h;
  }

  lemma PassingNext(lines: seq<Input>, input: Input)
    ensures Passing(lines + [input]) == Passing(lines) + (if input.kept then [input.line] else [])
  {
    assert (lines + [input])[..|lines|] == lines;
  }

  lemma ShownNext(heard: seq<Heard>, h: Heard)
    ensures Shown(heard + [h]) == Shown(heard) + (if h.shown then [h.traffic] else [])
  {
    assert (heard + [h])[..|heard|] == heard;
  }

  lemma HearKeepsCache(s: State, h: Heard)
    requires s.cache == After(s.history, |s.history|) && s.history == Shown(s.heard)
    ensures Hear(s, h).cache == After(Hear(s, h).history, |Hear(s, h).history|)
    ensures Hear(s, h).history == Shown(Hear(s, h).heard)
    ensures FromClient(Hear(s, h).history) == FromClient(s.history) + (if h.shown && h.traffic.ToLeader? then [h.traffic.line] else [])
  {
    AfterExtends(s.history, h.traffic, |s.history|);
    ShownNext(s.heard, h);
    FromClientNext(s.history, h.traffic);
  }

  /** `u` has recorded what `s` has, and at most one line more of each kind. */
  ghost predicate Grown(s: State, u: State) {
    && (u.history == s.history || exists t :: u.history == s.history + [t])
    && (u.lines == s.lines || exists l :: u.lines == s.lines + [l])
    && (u.heard == s.heard || exists h :: u.heard == s.heard + [h])
  }

  lemma SnapshotKept(s: State, u: State, snapshot: Snapshot)
    requires SnapshotTrue(s, snapshot) && Grown(s, u)
    ensures SnapshotTrue(u, snapshot)
  {
    if t :| u.history == s.history + [t] {
      AfterExtends(s.history, t, snapshot.seen);
    }
    assert u.history[..snapshot.seen] == s.history[..snapshot.seen];
    assert u.lines[..snapshot.read] == s.lines[..snapshot.read];
    assert u.heard[..snapshot.heard] == s.heard[..snapshot.heard];
  }

  /** The same connections, seen with more traffic and more lines. */
  lemma GrownKeepsInv(s: State, u: State)
    requires Inv(s) && CacheOk(u) && Grown(s, u)
    requires u.conns == s.conns && u.tx == s.tx && u.lock == s.lock && u.stdout == s.stdout
    requires ControlOk(u) && Settled(s) <= Settled(u)
    ensures Inv(u)
  {
    forall c | 0 <= c < |u.conns| ensures ConnOk(u, u.conns[c]) {
      assert ConnOk(s, s.conns[c]);
      if s.conns[c].snapshot.Some? {
        SnapshotKept(s, u, s.conns[c].snapshot.value);
      }
    }
    assert forall c, a, i :: ClientAt(u, c, a, i) <==> ClientAt(s, c, a, i);
  }

  lemma ReadLineKeepsInv(s: State, input: Input)
    requires Inv(s) && s.stdin.Reading?
    ensures Inv(Apply(s, ReadLine(input)))
  {
    PassingNext(s.lines, input);
    HearKeepsCache(s.(lines := s.lines + [input], stdin := Waiting), Heard(ToLeader(input.line), input.kept));
    GrownKeepsInv(s, Apply(s, ReadLine(input)));
  }

  lemma RelayKeepsInv(s: State, line: Line, noted: bool)
    requires Inv(s) && s.stdout.Relaying?
    ensures Inv(Apply(s, Relay(line, noted)))
  {
    HearKeepsCache(s, Heard(FromLeader(line), noted));
    GrownKeepsInv(s, Apply(s, Relay(line, noted)));
  }

  // ----- steps that touch a connection

  /** A connection stays in order when nothing is recorded, also with one more client line. */
  lemma ConnCarried(s: State, u: State, conn: Conn, i: nat)
    requires ConnOk(s, conn) && u.history == s.history && u.lines == s.lines && u.heard == s.heard
    ensures ConnOk(u, conn) && ConnOk(u, Append(conn, Client(i)))
  {
  }

  lemma SendOkAdds(s: State, c: int, a: int, i: int)
    requires Enabled(s, SendOk)
    ensures ClientAt(Apply(s, SendOk), c, a, i) <==>
            ClientAt(s, c, a, i) || (c == s.tx && a == |s.conns[s.tx].log| && i == |s.lines| - 1)
  {
  }

  /** A client line goes to the newest connection, or to the one before while the
      newest is still untouched. */
  lemma SenderIsNewest(s: State)
    requires ControlOk(s) && NewestOk(s) && s.stdin.Sending?
    ensures s.tx == s.Newest() || (s.tx == s.Newest() - 1 && s.conns[s.Newest()] == Conn([], None))
    ensures s.stdout.Relaying? || s.stdout.Reconnected?
  {
  }

  lemma SendOkOrders(s: State, c: int, a: int, i: int, d: int, b: int, j: int)
    requires ControlOk(s) && NewestOk(s) && InOrder(s) && Enabled(s, SendOk)
    requires ClientAt(Apply(s, SendOk), c, a, i) && ClientAt(Apply(s, SendOk), d, b, j)
    requires c < d || (c == d && a < b)
    ensures i < j
  {
    SenderIsNewest(s);
    SendOkAdds(s, c, a, i);
    SendOkAdds(s, d, b, j);
  }

  lemma SendOkReadBefore(s: State, c: int, a: int, i: int, d: int)
    requires ControlOk(s) && NewestOk(s) && ReadBefore(s) && Enabled(s, SendOk)
    requires ClientAt(Apply(s, SendOk), c, a, i) && c < d < |s.conns| && s.conns[d].snapshot.Some?
    ensures i < s.conns[d].snapshot.value.read
  {
    SenderIsNewest(s);
    SendOkAdds(s, c, a, i);
  }

  lemma SendOkInOrder(s: State)
    requires Inv(s) && Enabled(s, SendOk)
    ensures InOrder(Apply(s, SendOk)) && ReadBefore(Apply(s, SendOk))
  {
    var u := Apply(s, SendOk);
    forall c, a, i | ClientAt(u, c, a, i) ensures i < Settled(u) {
      SendOkAdds(s, c, a, i);
    }
    forall c, a, i, d, b, j | ClientAt(u, c, a, i) && ClientAt(u, d, b, j) && (c < d || (c == d && a < b)) ensures i < j {
      SendOkOrders(s, c, a, i, d, b, j);
    }
    forall c, a, i, d | ClientAt(u, c, a, i) && c < d < |u.conns| && u.conns[d].snapshot.Some?
      ensures i < u.conns[d].snapshot.value.read
    {
      SendOkReadBefore(s, c, a, i, d);
    }
  }

  lemma SendOkConns(s: State)
    requires ControlOk(s) && NewestOk(s) && ConnsOk(s) && Enabled(s, SendOk)
    ensures ConnsOk(Apply(s, SendOk))
  {
    var u := Apply(s, SendOk);
    ConnCarried(s, u, s.conns[s.tx], |s.lines| - 1);
    forall c | 0 <= c < |u.conns| && c != s.tx ensures ConnOk(u, u.conns[c]) {
      ConnCarried(s, u, s.conns[c], 0);
    }
  }

  lemma SendOkNewest(s: State)
    requires ControlOk(s) && NewestOk(s) && Enabled(s, SendOk)
    ensures NewestOk(Apply(s, SendOk))
  {
    SenderIsNewest(s);
  }

  lemma SendOkKeepsInv(s: State)
    requires Inv(s) && Enabled(s, SendOk)
    ensures Inv(Apply(s, SendOk))
  {
    SendOkInOrder(s);
    SendOkConns(s);
    SendOkNewest(s);
  }

  /** The delivered client lines are the same, and no snapshot's count changed. */
  lemma ClientsCarried(s: State, u: State)
    requires InOrder(s) && ReadBefore(s) && Settled(s) <= Settled(u)
    requires forall c, a, i :: ClientAt(u, c, a, i) ==> ClientAt(s, c, a, i)
    requires forall d :: 0 <= d < |u.conns| && u.conns[d].snapshot.Some? ==>
               d < |s.conns| && s.conns[d].snapshot.Some? &&
               u.conns[d].snapshot.value.read == s.conns[d].snapshot.value.read
    ensures InOrder(u) && ReadBefore(u)
  {
  }

  lemma ReconnectClients(s: State)
    requires InOrder(s) && ReadBefore(s) && Enabled(s, Reconnect)
    ensures InOrder(Apply(s, Reconnect)) && ReadBefore(Apply(s, Reconnect))
  {
    ClientsCarried(s, Apply(s, Reconnect));
  }

  lemma ReconnectConns(s: State)
    requires ConnsOk(s) && ControlOk(s) && NewestOk(s) && Enabled(s, Reconnect)
    ensures ConnsOk(Apply(s, Reconnect))
  {
    var u := Apply(s, Reconnect);
    forall c | 0 <= c < |u.conns| ensures ConnOk(u, u.conns[c]) {
      if c < |s.conns| {
        ConnCarried(s, u, s.conns[c], 0);
      }
    }
  }

  lemma ReconnectKeepsInv(s: State)
    requires Inv(s) && Enabled(s, Reconnect)
    ensures Inv(Apply(s, Reconnect))
  {
    ReconnectClients(s);
    ReconnectConns(s);
  }

  lemma TakeSnapshotReadBefore(s: State)
    requires InOrder(s) && ReadBefore(s) && Enabled(s, TakeSnapshot)
    ensures InOrder(Apply(s, TakeSnapshot)) && ReadBefore(Apply(s, TakeSnapshot))
  {
    var u := Apply(s, TakeSnapshot);
    assert forall c, a, i :: ClientAt(u, c, a, i) <==> ClientAt(s, c, a, i);
    assert Settled(s) == Settled(u) <= |s.lines|;
  }

  lemma TakeSnapshotKeepsInv(s: State)
    requires Inv(s) && Enabled(s, TakeSnapshot)
    ensures Inv(Apply(s, TakeSnapshot))
  {
    var u := Apply(s, TakeSnapshot);
    assert s.history[..|s.history|] == s.history && s.lines[..|s.lines|] == s.lines && s.heard[..|s.heard|] == s.heard;
    forall c | 0 <= c < |u.conns| ensures ConnOk(u, u.conns[c]) {
      ConnCarried(s, u, s.conns[c], 0);
    }
    TakeSnapshotReadBefore(s);
  }

  lemma ReplaySendClients(s: State)
    requires InOrder(s) && ReadBefore(s) && Enabled(s, ReplaySend)
    ensures InOrder(Apply(s, ReplaySend)) && ReadBefore(Apply(s, ReplaySend))
  {
    ClientsCarried(s, Apply(s, ReplaySend));
  }

  lemma ReplaySendConns(s: State)
    requires ConnsOk(s) && ControlOk(s) && NewestOk(s) && Enabled(s, ReplaySend)
    ensures ConnsOk(Apply(s, ReplaySend))
  {
    var u := Apply(s, ReplaySend);
    forall c | 0 <= c < |u.conns| ensures ConnOk(u, u.conns[c]) {
      ConnCarried(s, u, s.conns[c], 0);
    }
  }

  lemma ReplaySendKeepsInv(s: State)
    requires Inv(s) && Enabled(s, ReplaySend)
    ensures Inv(Apply(s, ReplaySend))
  {
    ReplaySendClients(s);
    ReplaySendConns(s);
  }

  ghost predicate OnlyControl(step: Step) {
    && !step.ReadLine? && !step.Relay? && !step.SendOk? && !step.Reconnect?
    && !step.TakeSnapshot? && !step.ReplaySend?
  }

  lemma ControlConns(s: State, step: Step)
    requires ConnsOk(s) && InOrder(s) && ReadBefore(s) && Enabled(s, step) && OnlyControl(step)
    requires ControlOk(s)
    ensures ConnsOk(Apply(s, step)) && InOrder(Apply(s, step)) && ReadBefore(Apply(s, step))
  {
    var u := Apply(s, step);
    forall c | 0 <= c < |u.conns| ensures ConnOk(u, u.conns[c]) {
      ConnCarried(s, u, s.conns[c], 0);
    }
    ClientsCarried(s, u);
  }

  lemma ControlKeepsInv(s: State, step: Step)
    requires Inv(s) && Enabled(s, step) && OnlyControl(step)
    ensures Inv(Apply(s, step))
  {
    ControlConns(s, step);
  }

  /** Every step of either task keeps the invariant. */
  lemma StepKeepsInv(s: State, step: Step)
    requires Inv(s) && Enabled(s, step)
    ensures Inv(Apply(s, step))
  {
    match step
    case ReadLine(input) => ReadLineKeepsInv(s, input);
    case Relay(line, noted) => RelayKeepsInv(s, line, noted);
    case SendOk => SendOkKeepsInv(s);
    case Reconnect => ReconnectKeepsInv(s);
    case TakeSnapshot => TakeSnapshotKeepsInv(s);
    case ReplaySend => ReplaySendKeepsInv(s);
    case _ => ControlKeepsInv(s, step);
  }

  lemma {:induction false} RunKeepsInv(s: State, steps: seq<Step>)
    requires Inv(s) && Runs(s, steps)
    ensures Inv(Reached(s, steps))
    decreases |steps|
  {
    if steps != [] {
      StepKeepsInv(s, steps[0]);
      RunKeepsInv(Apply(s, steps[0]), steps[1..]);
    }
  }

  ghost predicate Reachable(s: State) {
    exists steps :: Runs(INIT, steps) && s == Reached(INIT, steps)
  }

  lemma ReachableInv(s: State)
    requires Reachable(s)
    ensures Inv(s)
  {
    var steps :| Runs(INIT, steps) && s == Reached(INIT, steps);
    InitInv();
    RunKeepsInv(INIT, steps);
  }

  // ----- what every interleaving guarantees

  /** In every run, what a new leader received is a replay, possibly cut short, and
      then client lines only. The replay is the script of a snapshot whose traffic
      holds every line read by then, so also every line an earlier leader received. */
  lemma NewLeaderSeesReplayFirst(s: State, c: int)
    requires Reachable(s) && 0 < c < |s.conns|
    ensures var conn := s.conns[c];
            if conn.snapshot.None? then conn.log == []
            else
              var snapshot := conn.snapshot.value;
              && ReplayFirst(snapshot.script, snapshot.sent, conn.log)
              && snapshot.seen <= |s.history| && snapshot.read <= |s.lines|
              && snapshot.script == Script(After(s.history, snapshot.seen))
              && snapshot.heard <= |s.heard| && s.history[..snapshot.seen] == Shown(s.heard[..snapshot.heard])
              && FromClient(s.history[..snapshot.seen]) == Passing(s.lines[..snapshot.read])
              && forall d, a, i :: ClientAt(s, d, a, i) && d < c ==> i < snapshot.read
  {
    ReachableInv(s);
    assert ConnOk(s, s.conns[c]);
  }

  /** In every run, client lines reach leaders in the order they were read, and no
      line reaches two leaders or the same one twice. */
  lemma LinesArriveInOrder(s: State, c: int, a: int, i: int, d: int, b: int, j: int)
    requires Reachable(s) && ClientAt(s, c, a, i) && ClientAt(s, d, b, j)
    ensures i < j <==> c < d || (c == d && a < b)
  {
    ReachableInv(s);
  }

  // ----- delivered loads

  /** A load for the session that names it is cached. */
  ghost predicate HoldsLoad(sessions: seq<Session>, sid: string) {
    exists s :: s in sessions && Loads(s, sid)
  }

  ghost predicate Loads(s: Session, sid: string) {
    s.sid == sid && s.cached.load.Some? && LoadTarget(s.cached.load.value) == Some(sid)
  }

  lemma UpsertedHolds(sessions: seq<Session>, other: string, cached: Cached, sid: string)
    requires if other == sid then Loads(Session(sid, cached), sid) else HoldsLoad(sessions, sid)
    ensures HoldsLoad(Upserted(sessions, other, cached), sid)
  {
    var updated, i := Upserted(sessions, other, cached), IndexOf(sessions, other);
    if other == sid {
      assert updated[i] == Session(sid, cached);
    } else {
      var s :| s in sessions && Loads(s, sid);
      var k :| 0 <= k < |sessions| && sessions[k] == s;
      assert updated[k] == s;
    }
  }

  lemma {:induction false} WithoutHolds(sessions: seq<Session>, other: string, s: Session)
    requires s in sessions && s.sid != other
    ensures s in Without(sessions, other)
    decreases |sessions|
  {
    if s != sessions[|sessions| - 1] {
      WithoutHolds(sessions[..|sessions| - 1], other, s);
    }
  }

  ghost predicate Undisturbed(h: seq<Traffic>, k: int, sid: string) {
    !ClosesAt(h, k, sid) && !(AssignsAt(h, k) && AssignedId(h[k].line) == Some(sid))
  }

  lemma LoadSurvivesStep(h: seq<Traffic>, n: nat, sid: string)
    requires n < |h| && Undisturbed(h, n, sid)
    requires HoldsLoad(After(h, n).sessions, sid) || (h[n].ToLeader? && LoadTarget(h[n].line) == Some(sid))
    ensures HoldsLoad(After(h, n + 1).sessions, sid)
  {
    var c, l := After(h, n), h[n].line;
    KindsDiffer(l);
    if h[n].ToLeader? && LoadTarget(l).Some? {
      UpsertedHolds(c.sessions, LoadTarget(l).value, CachedLoad(l), sid);
    } else if h[n].FromLeader? && AssignedId(l).Some? && c.pending.Some? {
      UpsertedHolds(c.sessions, AssignedId(l).value, c.pending.value, sid);
    } else if h[n].ToLeader? && CloseTarget(l).Some? {
      var s :| s in c.sessions && Loads(s, sid);
      WithoutHolds(c.sessions, CloseTarget(l).value, s);
    }
  }

  lemma {:induction false} LoadStaysCached(h: seq<Traffic>, p: nat, n: nat, sid: string)
    requires p < n <= |h| && h[p].ToLeader? && LoadTarget(h[p].line) == Some(sid)
    requires forall k :: p <= k < n ==> Undisturbed(h, k, sid)
    ensures HoldsLoad(After(h, n).sessions, sid)
    decreases n
  {
    var m: nat := n - 1;
    if p < m {
      LoadStaysCached(h, p, m, sid);
    }
    assert Undisturbed(h, m, sid);
    LoadSurvivesStep(h, m, sid);
  }

  lemma HeldIsScripted(c: Cache, sid: string) returns (m: nat)
    requires HoldsLoad(c.sessions, sid) && c.initialize.Some?
    ensures m < |Script(c)| && LoadTarget(Script(c)[m]) == Some(sid)
  {
    var s :| s in c.sessions && Loads(s, sid);
    var k :| 0 <= k < |c.sessions| && c.sessions[k] == s;
    m := ScriptedAt(c, k);
  }

  lemma ScriptedAt(c: Cache, k: int) returns (m: nat)
    requires 0 <= k < |c.sessions| && LoadLine(c.sessions[k]).Some? && c.initialize.Some?
    ensures m < |Script(c)| && Script(c)[m] == LoadLine(c.sessions[k]).value
  {
    var pick := RestorableIsPicked(c.sessions);
    var n := PickOf(c.sessions, Restorable(c.sessions), pick, k);
    LoadsOfRestorable(c.sessions);
    m := n + 1;
  }

  lemma PickOf(sessions: seq<Session>, restorable: seq<Session>, pick: seq<int>, k: int) returns (n: nat)
    requires Picks(sessions, restorable, pick) && 0 <= k < |sessions| && LoadLine(sessions[k]).Some?
    ensures n < |restorable| && restorable[n] == sessions[k]
  {
    n :| 0 <= n < |pick| && pick[n] == k;
  }

  lemma {:induction false} PassingHolds(lines: seq<Input>, i: nat)
    requires i < |lines| && lines[i].kept
    ensures lines[i].line in Passing(lines)
    decreases |lines|
  {
    if i < |lines| - 1 {
      PassingHolds(lines[..|lines| - 1], i);
    }
  }

  lemma {:induction false} FromClientIsTraffic(h: seq<Traffic>, l: Line) returns (p: nat)
    requires l in FromClient(h)
    ensures p < |h| && h[p] == ToLeader(l)
    decreases |h|
  {
    if h[|h| - 1] == ToLeader(l) {
      p := |h| - 1;
    } else {
      p := FromClientIsTraffic(h[..|h| - 1], l);
    }
  }

  ghost predicate LoadsAt(h: seq<Traffic>, i: int, sid: string) {
    0 <= i < |h| && h[i].ToLeader? && LoadTarget(h[i].line) == Some(sid)
  }

  ghost predicate LastLoadAt(h: seq<Traffic>, n: int, sid: string, p: int) {
    p < n && LoadsAt(h, p, sid) && forall k :: p < k < n ==> !LoadsAt(h, k, sid)
  }

  lemma {:induction false} LastLoad(h: seq<Traffic>, n: nat, sid: string, p: nat) returns (last: nat)
    requires p < n <= |h| && LoadsAt(h, p, sid)
    ensures LastLoadAt(h, n, sid, last)
    decreases n
  {
    if LoadsAt(h, n - 1, sid) {
      last := n - 1;
    } else {
      last := LastLoad(h, n - 1, sid, p);
    }
  }

  /** Entry `m` on connection `c` is a replayed load of the session. */
  ghost predicate ReplaysLoad(s: State, c: int, m: int, sid: string) {
    && 0 <= c < |s.conns| && 0 <= m < |s.conns[c].log|
    && s.conns[c].log[m].Replayed? && LoadTarget(s.conns[c].log[m].line) == Some(sid)
  }

  /** The replay on connection `c` was not cut short, and its snapshot was taken after a
      handshake. */
  ghost predicate ReplayComplete(s: State, c: int) {
    && 0 <= c < |s.conns| && s.conns[c].snapshot.Some?
    && s.conns[c].snapshot.value.sent == |s.conns[c].snapshot.value.script|
    && s.conns[c].snapshot.value.seen <= |s.history|
    && Shaken(s.history, s.conns[c].snapshot.value.seen)
  }

  /** End to end: a load that reached an earlier leader is replayed to every later
      one whose replay was not cut short, unless the cache has been shown, since the
      last load of that session, a close of it or an answer assigning its id again. */
  lemma DeliveredLoadIsReplayed(s: State, d: int, a: int, i: int, c: int, sid: string) returns (m: nat)
    requires Reachable(s) && ClientAt(s, d, a, i) && d < c && ReplayComplete(s, c)
    requires 0 <= i < |s.lines| && s.lines[i].kept && LoadTarget(s.lines[i].line) == Some(sid)
    requires var seen := s.conns[c].snapshot.value.seen;
             forall p, k :: LastLoadAt(s.history, seen, sid, p) && p < k < seen ==> Undisturbed(s.history, k, sid)
    ensures ReplaysLoad(s, c, m, sid)
  {
    var seen := s.conns[c].snapshot.value.seen;
    var q := DeliveredIsSeen(s, d, a, i, c);
    m := LoadIsScripted(s.history, seen, sid, q);
    ScriptedIsReplayed(s, c, m, sid);
  }

  lemma LoadIsScripted(h: seq<Traffic>, n: nat, sid: string, q: nat) returns (m: nat)
    requires q < n <= |h| && LoadsAt(h, q, sid) && Shaken(h, n)
    requires forall p, k :: LastLoadAt(h, n, sid, p) && p < k < n ==> Undisturbed(h, k, sid)
    ensures m < |Script(After(h, n))| && LoadTarget(Script(After(h, n))[m]) == Some(sid)
  {
    var p := LastLoad(h, n, sid, q);
    KindsDiffer(h[p].line);
    LoadStaysCached(h, p, n, sid);
    HandshakeIsLast(h, n);
    m := HeldIsScripted(After(h, n), sid);
  }

  lemma ScriptedIsReplayed(s: State, c: int, m: nat, sid: string)
    requires Reachable(s) && ReplayComplete(s, c)
    requires var script := Script(After(s.history, s.conns[c].snapshot.value.seen));
             m < |script| && LoadTarget(script[m]) == Some(sid)
    ensures ReplaysLoad(s, c, m, sid)
  {
    ReachableInv(s);
    assert ConnOk(s, s.conns[c]);
  }

  /** A line delivered to an earlier leader was shown before the snapshot for a later
      one, if the filter passes it. */
  lemma DeliveredIsSeen(s: State, d: int, a: int, i: int, c: int) returns (q: nat)
    requires Reachable(s) && ClientAt(s, d, a, i) && d < c < |s.conns| && s.conns[c].snapshot.Some?
    requires 0 <= i < |s.lines| && s.lines[i].kept
    ensures q < s.conns[c].snapshot.value.seen <= |s.history| && s.history[q] == ToLeader(s.lines[i].line)
  {
    ReachableInv(s);
    var snapshot := s.conns[c].snapshot.value;
    assert ConnOk(s, s.conns[c]);
    assert s.lines[..snapshot.read][i] == s.lines[i];
    PassingHolds(s.lines[..snapshot.read], i);
    q := FromClientIsTraffic(s.history[..snapshot.seen], s.lines[i].line);
  }

  // ----- closed sessions

  ghost predicate Opens(t: Traffic, sid: string) {
    OpensAt([t], 0, sid)
  }

  ghost predicate Closes(t: Traffic, sid: string) {
    ClosesAt([t], 0, sid)
  }

  lemma OpenNext(h: seq<Traffic>, t: Traffic, sid: string)
    ensures OpenAfter(h + [t], |h| + 1, sid) <==> Opens(t, sid) || (OpenAfter(h, |h|, sid) && !Closes(t, sid))
  {
    var u, n := h + [t], |h| + 1;
    assert forall i :: 0 <= i < |h| ==> u[i] == h[i];
    assert u[|h|] == t == [t][0];
    assert forall k :: k < |h| ==> (ClosesAt(u, k, sid) <==> ClosesAt(h, k, sid)) && (OpensAt(u, k, sid) <==> OpensAt(h, k, sid));
    assert ClosesAt(u, |h|, sid) <==> Closes(t, sid);
    assert OpensAt(u, |h|, sid) <==> Opens(t, sid);
    if OpenAfter(h, |h|, sid) && !Closes(t, sid) {
      var i :| i < |h| && OpensAt(h, i, sid) && forall k :: i < k < |h| ==> !ClosesAt(h, k, sid);
      assert OpensAt(u, i, sid) && i < n;
    }
    if OpenAfter(u, n, sid) && !Opens(t, sid) {
      var i :| i < n && OpensAt(u, i, sid) && forall k :: i < k < n ==> !ClosesAt(u, k, sid);
      assert i < |h| && OpensAt(h, i, sid);
      assert forall k :: i < k < |h| ==> !ClosesAt(u, k, sid);
    }
  }

  /** Line `o` is the last to open the session, and the cache was shown it. */
  ghost predicate LastOpening(heard: seq<Heard>, sid: string, o: int) {
    && 0 <= o < |heard| && heard[o].shown && Opens(heard[o].traffic, sid)
    && forall k :: o < k < |heard| ==> !Opens(heard[k].traffic, sid)
  }

  /** The filter passed no close of the session since. */
  ghost predicate NoCloseShown(heard: seq<Heard>, sid: string, o: int) {
    forall q :: 0 <= q < |heard| && o < q && Closes(heard[q].traffic, sid) ==> !heard[q].shown
  }

  lemma {:induction false} ShownOpenIff(heard: seq<Heard>, sid: string, o: int)
    requires LastOpening(heard, sid, o)
    ensures OpenAfter(Shown(heard), |Shown(heard)|, sid) <==> NoCloseShown(heard, sid, o)
    decreases |heard|
  {
    var n := |heard| - 1;
    var front, h := heard[..n], heard[n];
    OpenNext(Shown(front), h.traffic, sid);
    if o < n {
      assert forall k :: 0 <= k < n ==> front[k] == heard[k];
      ShownOpenIff(front, sid, o);
      NoCloseNext(front, h, sid, o);
      assert front + [h] == heard;
    }
  }

  lemma NoCloseNext(front: seq<Heard>, h: Heard, sid: string, o: int)
    requires 0 <= o < |front|
    ensures NoCloseShown(front + [h], sid, o) <==> NoCloseShown(front, sid, o) && (Closes(h.traffic, sid) ==> !h.shown)
  {
    var heard := front + [h];
    assert heard[|front|] == h && forall k :: 0 <= k < |front| ==> heard[k] == front[k];
  }

  lemma {:induction false} AfterPrefix(h: seq<Traffic>, m: nat, n: nat)
    requires n <= m <= |h|
    ensures After(h[..m], n) == After(h, n)
    decreases n
  {
    if n != 0 {
      AfterPrefix(h, m, n - 1);
    }
  }

  /** A complete replay loads the session exactly when its script does. */
  lemma ReplaysScripted(s: State, c: int, sid: string)
    requires Inv(s) && ReplayComplete(s, c)
    ensures (exists m :: ReplaysLoad(s, c, m, sid)) <==>
            exists m :: 0 <= m < |s.conns[c].snapshot.value.script| && LoadTarget(s.conns[c].snapshot.value.script[m]) == Some(sid)
  {
    assert ConnOk(s, s.conns[c]);
    var script := s.conns[c].snapshot.value.script;
    if m :| 0 <= m < |script| && LoadTarget(script[m]) == Some(sid) {
      assert ReplaysLoad(s, c, m, sid);
    }
  }

  lemma ScriptedIff(cache: Cache, sids: seq<string>, sid: string)
    requires cache.initialize.Some? && IsInitialize(cache.initialize.value)
    requires |sids| == |LoadLines(cache.sessions)|
    requires forall m :: 0 <= m < |sids| ==> LoadTarget(LoadLines(cache.sessions)[m]) == Some(sids[m])
    ensures (exists m :: 0 <= m < |Script(cache)| && LoadTarget(Script(cache)[m]) == Some(sid)) <==> sid in sids
  {
    KindsDiffer(cache.initialize.value);
    var script, loads := Script(cache), LoadLines(cache.sessions);
    assert script[0] == cache.initialize.value && forall m :: 0 <= m < |loads| ==> script[m + 1] == loads[m];
    if sid in sids {
      var m :| 0 <= m < |sids| && sids[m] == sid;
      assert LoadTarget(script[m + 1]) == Some(sid);
    }
    if m :| 0 <= m < |script| && LoadTarget(script[m]) == Some(sid) {
      assert sids[m - 1] == sid;
    }
  }

  /** Which sessions a complete replay restores, read off all traffic and the filter's
      answers: one last opened in line `o` is loaded again if and only if it was not
      created without a working directory and the filter passed no close of it since.
      A close line the filter holds back makes no difference. */
  lemma ReplayedIffNoCloseShown(s: State, c: int, sid: string, o: int)
    requires Reachable(s) && ReplayComplete(s, c)
    requires var snapshot := s.conns[c].snapshot.value;
             && snapshot.heard <= |s.heard| && LastOpening(s.heard[..snapshot.heard], sid, o)
             && InTurn(s.history[..snapshot.seen])
    ensures var snapshot := s.conns[c].snapshot.value;
            (exists m :: ReplaysLoad(s, c, m, sid)) <==>
              && NoCloseShown(s.heard[..snapshot.heard], sid, o)
              && !CreatedWithoutDirectory(s.history[..snapshot.seen], snapshot.seen, sid)
  {
    ReachableInv(s);
    var snapshot := s.conns[c].snapshot.value;
    var h, n := s.history[..snapshot.seen], snapshot.seen;
    assert ConnOk(s, s.conns[c]);
    AfterPrefix(s.history, n, n);
    HandshakeIsLast(s.history, n);
    ShownOpenIff(s.heard[..snapshot.heard], sid, o);
    var firstSeen := ScriptRestoresOpenSessions(h, n);
    ScriptedIff(After(h, n), Sids(Restorable(After(h, n).sessions)), sid);
    ReplaysScripted(s, c, sid);
  }

  // ----- all traffic in turn

  function Traffics(heard: seq<Heard>): (all: seq<Traffic>)
    ensures |all| == |heard|
    ensures forall i :: 0 <= i < |heard| ==> all[i] == heard[i].traffic
  {
    seq(|heard|, i requires 0 <= i < |heard| => heard[i].traffic)
  }

  /** The filter passes every `session/new` and every line that assigns an id. */
  ghost predicate ShowsSessions(heard: seq<Heard>) {
    forall i :: RequestsAt(Traffics(heard), i) || AssignsAt(Traffics(heard), i) ==> heard[i].shown
  }

  /** Where line `i` stands among the shown ones. */
  function Place(heard: seq<Heard>, i: nat): nat
    requires i <= |heard|
  {
    |Shown(heard[..i])|
  }

  lemma {:induction false} ShownAt(heard: seq<Heard>, i: nat)
    requires i < |heard| && heard[i].shown
    ensures Place(heard, i) < |Shown(heard)| && Shown(heard)[Place(heard, i)] == heard[i].traffic
    decreases |heard|
  {
    var n := |heard| - 1;
    if i < n {
      ShownAt(heard[..n], i);
      assert heard[..n][..i] == heard[..i];
    }
  }

  lemma {:induction false} PlaceGrows(heard: seq<Heard>, i: nat, k: nat)
    requires i <= k <= |heard|
    ensures Place(heard, i) <= Place(heard, k)
    ensures i < k && heard[i].shown ==> Place(heard, i) < Place(heard, k)
    decreases k
  {
    if i < k {
      PlaceGrows(heard, i, k - 1);
      assert heard[..k][..k - 1] == heard[..k - 1];
    }
  }

  lemma {:induction false} ShownFrom(heard: seq<Heard>, p: nat) returns (i: nat)
    requires p < |Shown(heard)|
    ensures i < |heard| && heard[i].shown && Place(heard, i) == p && Shown(heard)[p] == heard[i].traffic
    decreases |heard|
  {
    var n := |heard| - 1;
    if p < |Shown(heard[..n])| {
      i := ShownFrom(heard[..n], p);
      assert heard[..n][..i] == heard[..i];
    } else {
      i := n;
    }
  }

  /** Nothing between two places but what stands between the two lines. */
  lemma QuietBetween(heard: seq<Heard>, j: nat, i: nat, r: nat)
    requires j < i < |heard| && heard[j].shown && Place(heard, j) < r < Place(heard, i) && r < |Shown(heard)|
    requires forall k :: j < k < i ==> !RequestsAt(Traffics(heard), k) && !AssignsAt(Traffics(heard), k)
    ensures !RequestsAt(Shown(heard), r) && !AssignsAt(Shown(heard), r)
  {
    var k := ShownFrom(heard, r);
    if k <= j {
      PlaceGrows(heard, k, j);
    } else if i <= k {
      PlaceGrows(heard, i, k);
    } else {
      assert !RequestsAt(Traffics(heard), k) && !AssignsAt(Traffics(heard), k);
    }
  }

  lemma AssignmentInTurn(heard: seq<Heard>, p: nat) returns (q: nat)
    requires InTurn(Traffics(heard)) && ShowsSessions(heard) && AssignsAt(Shown(heard), p)
    ensures AnswersRequest(Shown(heard), q, p) && Unassigned(Shown(heard), p, q)
  {
    var all, shown := Traffics(heard), Shown(heard);
    var i := ShownFrom(heard, p);
    assert AssignsAt(all, i);
    var j :| AnswersRequest(all, j, i) && Unassigned(all, i, j);
    assert heard[j].shown;
    ShownAt(heard, j);
    PlaceGrows(heard, j, i);
    q := Place(heard, j);
    forall r | q < r < p ensures !RequestsAt(shown, r) && !AssignsAt(shown, r) {
      QuietBetween(heard, j, i, r);
    }
  }

  /** When requests are answered in turn in all the traffic, they are in what the cache
      is shown: rejections, which the filter holds back, do not matter. */
  lemma ShownInTurn(heard: seq<Heard>)
    requires InTurn(Traffics(heard)) && ShowsSessions(heard)
    ensures InTurn(Shown(heard))
  {
    forall p | AssignsAt(Shown(heard), p) ensures exists q :: AnswersRequest(Shown(heard), q, p) && Unassigned(Shown(heard), p, q) {
      var q := AssignmentInTurn(heard, p);
    }
  }

  // ----- a closed session that is replayed

  lemma {:induction false} RunsConcat(s: State, a: seq<Step>, b: seq<Step>)
    requires Runs(s, a) && Runs(Reached(s, a), b)
    ensures Runs(s, a + b) && Reached(s, a + b) == Reached(Reached(s, a), b)
    decreases |a|
  {
    if a == [] {
      assert a + b == b;
    } else {
      assert (a + b)[0] == a[0] && (a + b)[1..] == a[1..] + b;
      RunsConcat(Apply(s, a[0]), a[1..], b);
    }
  }

  lemma RunsOne(s: State, step: Step, rest: seq<Step>)
    requires Enabled(s, step) && Runs(Apply(s, step), rest)
    ensures Runs(s, [step] + rest) && Reached(s, [step] + rest) == Reached(Apply(s, step), rest)
  {
    assert ([step] + rest)[1..] == rest;
  }

  /** One client line, read and delivered to the current leader. */
  lemma Deliver(s: State, input: Input) returns (steps: seq<Step>)
    requires s.stdin.Reading? && s.lock.Free? && s.tx in s.alive && s.tx < |s.conns|
    ensures Runs(s, steps)
    ensures var u := Hear(s, Heard(ToLeader(input.line), input.kept));
            Reached(s, steps) == SetConn(u, s.tx, Append(s.conns[s.tx], Client(|s.lines|))).(lines := s.lines + [input])
  {
    var a := Apply(s, ReadLine(input));
    var b := Apply(a, StdinLock);
    RunsOne(b, SendOk, []);
    RunsOne(a, StdinLock, [SendOk]);
    RunsOne(s, ReadLine(input), [StdinLock] + [SendOk]);
    steps := [ReadLine(input)] + ([StdinLock] + [SendOk]);
  }

  /** The first leader dies, and the replay to a second one begins. */
  lemma CrashAndReconnect(s: State) returns (steps: seq<Step>)
    requires |s.conns| == 1 && s.tx == 0 && s.lock.Free? && s.stdout.Relaying?
    ensures Runs(s, steps)
    ensures var u := Reached(s, steps);
            && u.conns == s.conns + [Conn([], Some(Snapshot(Script(s.cache), |s.history|, |s.heard|, |s.lines|, 0)))]
            && u.stdout.Replaying? && 1 in u.alive && u.lines == s.lines
  {
    var a := Apply(s, Die(0));
    var b := Apply(a, Reconnect);
    var d := Apply(b, StdoutLock);
    var e := Apply(d, Swap);
    RunsOne(e, TakeSnapshot, []);
    RunsOne(d, Swap, [TakeSnapshot]);
    RunsOne(b, StdoutLock, [Swap] + [TakeSnapshot]);
    RunsOne(a, Reconnect, [StdoutLock] + ([Swap] + [TakeSnapshot]));
    RunsOne(s, Die(0), [Reconnect] + ([StdoutLock] + ([Swap] + [TakeSnapshot])));
    steps := [Die(0)] + ([Reconnect] + ([StdoutLock] + ([Swap] + [TakeSnapshot])));
  }

  lemma ReplayTwo(s: State, x: Line, y: Line)
    requires |s.conns| == 2 && s.stdout.Replaying? && 1 in s.alive
    requires s.conns[1].log == [] && s.conns[1].snapshot.Some?
    requires s.conns[1].snapshot.value.script == [x, y] && s.conns[1].snapshot.value.sent == 0
    ensures Runs(s, [ReplaySend] + [ReplaySend])
    ensures var u := Reached(s, [ReplaySend] + [ReplaySend]);
            && |u.conns| == 2 && u.conns[0] == s.conns[0] && u.lines == s.lines
            && u.conns[1].log == [Replayed(x), Replayed(y)]
  {
    var t := Apply(s, ReplaySend);
    assert t.conns[1].log == [Replayed(x)];
    RunsOne(t, ReplaySend, []);
    RunsOne(s, ReplaySend, [ReplaySend]);
  }

  lemma CrashAndReplay(steps: seq<Step>, s: State, x: Line, y: Line) returns (u: State)
    requires Runs(INIT, steps) && s == Reached(INIT, steps) && Idle(s) && Script(s.cache) == [x, y]
    ensures Reachable(u) && |u.conns| == 2 && u.conns[0] == s.conns[0] && u.lines == s.lines
    ensures u.conns[1].log == [Replayed(x), Replayed(y)]
  {
    var crash := CrashAndReconnect(s);
    var t := Reached(s, crash);
    ReplayTwo(t, x, y);
    var replay := [ReplaySend] + [ReplaySend];
    RunsConcat(INIT, steps, crash);
    RunsConcat(INIT, steps + crash, replay);
    u := Reached(t, replay);
  }

  lemma LoadedScript(init: Line, load: Line, sid: string)
    requires IsInitialize(init) && LoadTarget(load) == Some(sid)
    ensures Script(Outgoing(Outgoing(EMPTY, init), load)) == [init, load]
  {
    KindsDiffer(load);
    var sessions := [Session(sid, CachedLoad(load))];
    assert Outgoing(Outgoing(EMPTY, init), load).sessions == [] + sessions == sessions;
    assert sessions[..0] == [];
    assert LoadLines(sessions) == [load];
  }

  /** Nothing is under way, and the first leader is alive and the only one. */
  ghost predicate Idle(s: State) {
    s.stdin.Reading? && s.lock.Free? && s.stdout.Relaying? && |s.conns| == 1 && s.tx == 0 && 0 in s.alive
  }

  lemma DeliverMore(steps: seq<Step>, s: State, input: Input) returns (longer: seq<Step>, u: State)
    requires Runs(INIT, steps) && s == Reached(INIT, steps) && Idle(s)
    ensures Runs(INIT, longer) && u == Reached(INIT, longer) && Idle(u)
    ensures u.conns[0] == Append(s.conns[0], Client(|s.lines|)) && u.lines == s.lines + [input]
    ensures u.cache == Hear(s, Heard(ToLeader(input.line), input.kept)).cache
  {
    var more := Deliver(s, input);
    RunsConcat(INIT, steps, more);
    longer, u := steps + more, Reached(s, more);
  }

  /** A close line that the filter holds back is delivered to the first leader, and
      still the second one is told to load the closed session: a run, for every
      handshake, load and close. */
  lemma ClosedSessionIsReplayed(init: Line, load: Line, close: Line, sid: string) returns (s: State)
    requires IsInitialize(init) && LoadTarget(load) == Some(sid) && CloseTarget(close) == Some(sid)
    ensures Reachable(s) && s.lines == [Input(init, true), Input(load, true), Input(close, false)]
    ensures |s.conns| == 2 && s.conns[0].log == [Client(0), Client(1), Client(2)]
    ensures s.conns[1].log == [Replayed(init), Replayed(load)]
  {
    var steps, t := DeliverLoad(init, load, sid);
    var longer, u := DeliverMore(steps, t, Input(close, false));
    s := CrashAndReplay(longer, u, init, load);
  }

  lemma DeliverLoad(init: Line, load: Line, sid: string) returns (steps: seq<Step>, s: State)
    requires IsInitialize(init) && LoadTarget(load) == Some(sid)
    ensures Runs(INIT, steps) && s == Reached(INIT, steps) && Idle(s) && Script(s.cache) == [init, load]
    ensures s.conns[0] == Conn([Client(0), Client(1)], None) && s.lines == [Input(init, true), Input(load, true)]
  {
    var one, t := DeliverMore([], INIT, Input(init, true));
    steps, s := DeliverMore(one, t, Input(load, true));
    LoadedScript(init, load, sid);
  }

  /** A line the old channel accepts after the reconnect and before the swap: it is on
      the old connection, and as no line is accepted twice, on no later one. */
  lemma LateLineStaysBehind(input: Input) returns (s: State)
    ensures Reachable(s) && |s.conns| == 2 && s.tx == 1 && s.lines == [input]
    ensures s.conns[0].log == [Client(0)] && s.conns[1].log == []
  {
    var a := Apply(INIT, Reconnect);
    var send := Deliver(a, input);
    var b := Reached(a, send);
    RunsOne(Apply(b, StdoutLock), Swap, []);
    RunsOne(b, StdoutLock, [Swap]);
    RunsConcat(a, send, [StdoutLock] + [Swap]);
    RunsOne(INIT, Reconnect, send + ([StdoutLock] + [Swap]));
    s := Apply(Apply(b, StdoutLock), Swap);
    assert s == Reached(INIT, [Reconnect] + (send + ([StdoutLock] + [Swap])));
  }
}
