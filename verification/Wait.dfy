/** Event-driven waits on a terminal screen: a feeder and a resizer change the
    grid and bump a generation watch, waiters mark the generation seen, test
    their condition under the grid lock and sleep until the next bump. The tasks
    are steps of one state machine; a run is any sequence of enabled steps. */
module Wait {
  import opened Prelude
  import opened Text

  datatype Condition =
    | TextShown(needle: string)
    | TextGone(needle: string)
    | Matches(matching: iset<string>)

  predicate Contains(screen: string, needle: string) {
    needle == "" || Has(screen, needle)
  }

  predicate Met(condition: Condition, screen: string) {
    match condition
    case TextShown(needle) => Contains(screen, needle)
    case TextGone(needle) => !Contains(screen, needle)
    case Matches(matching) => screen in matching
  }

  /** What the text conditions ask of a screen: an occurrence somewhere, or none anywhere. */
  lemma MetMeans(needle: string, screen: string)
    ensures Met(TextShown(needle), screen) <==> exists i :: At(needle, screen, i)
    ensures Met(TextGone(needle), screen) <==> forall i :: !At(needle, screen, i)
  {
    if needle == "" {
      assert At(needle, screen, 0);
    } else {
      HasAt(screen, needle);
    }
  }

  /** The feeder releases the grid lock before it bumps; `Fed` is that gap. */
  datatype Feeder = Reading | Fed(version: nat) | Exited

  /** The resizer keeps the grid lock from `Holding` to the end, and a strong
      reference to the sender from `Upgraded` to the end. */
  datatype Resizer = Away | Holding | Resized(version: nat) | Upgraded(version: nat) | Bumped

  datatype Outcome = Matched | Ended | TimedOut

  datatype WaiterState = Marking | Checking | Asleep | Done(outcome: Outcome)

  /** `seen` is the generation the receiver last saw, `tested` the grid version
      the condition was last tested on. */
  datatype Waiter = Waiter(condition: Condition, state: WaiterState, seen: nat, tested: nat)

  /** `grids` is every grid there has been, the current one last; `unbumped` the
      versions whose own bump has not happened, `missed` those that never get one. */
  datatype State = State(
    grids: seq<string>,
    generation: nat,
    feeder: Feeder,
    resizer: Resizer,
    unbumped: set<nat>,
    missed: set<nat>,
    waiters: seq<Waiter>)
  {
    function Current(): int {
      |grids| - 1
    }

    predicate LockFree() {
      resizer.Away?
    }

    predicate SenderAlive() {
      !feeder.Exited? || resizer.Upgraded? || resizer.Bumped?
    }

    predicate Is(w: nat, state: WaiterState) {
      w < |waiters| && waiters[w].state == state
    }
  }

  datatype Step =
    | Feed(screen: string) | FeedBump | FeederExit
    | ResizeLock | ResizeRefused | ResizeGrid(screen: string) | ResizeUpgrade | ResizeBump | ResizeDone
    | Join(condition: Condition)
    | Mark(w: nat) | Check(w: nat) | Wake(w: nat) | SenderGone(w: nat) | Deadline(w: nat)

  function Init(screen: string): State {
    State([screen], 0, Reading, Away, {}, {}, [])
  }

  predicate Enabled(s: State, step: Step) {
    match step
    case Feed(_) => s.feeder.Reading? && s.LockFree()
    case FeedBump => s.feeder.Fed?
    case FeederExit => s.feeder.Reading?
    case ResizeLock => s.LockFree()
    case ResizeRefused => s.resizer.Holding?
    case ResizeGrid(_) => s.resizer.Holding?
    case ResizeUpgrade => s.resizer.Resized?
    case ResizeBump => s.resizer.Upgraded?
    case ResizeDone => s.resizer.Bumped?
    case Join(_) => true
    case Mark(w) => s.Is(w, Marking)
    case Check(w) => s.Is(w, Checking) && s.LockFree() && s.grids != []
    case Wake(w) => s.Is(w, Asleep) && s.waiters[w].seen != s.generation
    case SenderGone(w) => s.Is(w, Asleep) && s.waiters[w].seen == s.generation && !s.SenderAlive()
    case Deadline(w) => s.Is(w, Asleep)
  }

  function SetWaiter(s: State, w: nat, waiter: Waiter): State
    requires w < |s.waiters|
  {
    s.(waiters := s.waiters[w := waiter])
  }

  function Apply(s: State, step: Step): State
    requires Enabled(s, step)
  {
    match step
    case Feed(screen) =>
      s.(grids := s.grids + [screen], feeder := Fed(|s.grids|), unbumped := s.unbumped + {|s.grids|})
    case FeedBump =>
      s.(generation := s.generation + 1, unbumped := s.unbumped - {s.feeder.version}, feeder := Reading)
    case FeederExit => s.(feeder := Exited)
    case ResizeLock => s.(resizer := Holding)
    case ResizeRefused => s.(resizer := Away)
    case ResizeGrid(screen) =>
      s.(grids := s.grids + [screen], resizer := Resized(|s.grids|), unbumped := s.unbumped + {|s.grids|})
    case ResizeUpgrade =>
      if s.SenderAlive() then s.(resizer := Upgraded(s.resizer.version))
      else s.(resizer := Away, missed := s.missed + {s.resizer.version})
    case ResizeBump =>
      s.(generation := s.generation + 1, unbumped := s.unbumped - {s.resizer.version}, resizer := Bumped)
    case ResizeDone => s.(resizer := Away)
    case Join(condition) => s.(waiters := s.waiters + [Waiter(condition, Marking, 0, 0)])
    case Mark(w) => SetWaiter(s, w, s.waiters[w].(state := Checking, seen := s.generation))
    case Check(w) =>
      var waiter := s.waiters[w].(tested := s.Current());
      SetWaiter(s, w, waiter.(state :=
        if Met(waiter.condition, s.grids[s.Current()]) then Done(Matched) else Asleep))
    case Wake(w) => SetWaiter(s, w, s.waiters[w].(state := Marking, seen := s.generation))
    case SenderGone(w) => SetWaiter(s, w, s.waiters[w].(state := Done(Ended)))
    case Deadline(w) => SetWaiter(s, w, s.waiters[w].(state := Done(TimedOut)))
  }

  // ----- runs

  predicate Runs(s: State, steps: seq<Step>)
    decreases |steps|
  {
    steps == [] || (Enabled(s, steps[0]) && Runs(Apply(s, steps[0]), steps[1..]))
  }

  function After(s: State, steps: seq<Step>): State
    requires Runs(s, steps)
    decreases |steps|
  {
    if steps == [] then s else After(Apply(s, steps[0]), steps[1..])
  }

  // ----- the invariant

  ghost predicate WaiterOk(s: State, waiter: Waiter) {
    && waiter.seen <= s.generation
    && waiter.tested < |s.grids|
    && (waiter.state.Asleep? ==> !Met(waiter.condition, s.grids[waiter.tested]))
    && (waiter.state == Done(Matched) ==> Met(waiter.condition, s.grids[waiter.tested]))
    && (waiter.state == Done(Ended) ==> !Met(waiter.condition, s.grids[waiter.tested]) && !s.SenderAlive())
    // a sleeper with nothing unseen has missed only changes that are not bumped
    && ((waiter.state.Asleep? && waiter.seen == s.generation) || waiter.state == Done(Ended) ==>
        forall v: nat :: waiter.tested < v < |s.grids| ==> v in s.unbumped)
  }

  /** Who still owes which bump. */
  ghost predicate Owed(s: State, v: nat) {
    || (s.feeder.Fed? && s.feeder.version == v)
    || ((s.resizer.Resized? || s.resizer.Upgraded?) && s.resizer.version == v)
    || v in s.missed
  }

  ghost predicate Inv(s: State) {
    && s.grids != []
    && (s.feeder.Fed? ==> s.feeder.version < |s.grids|)
    && (s.resizer.Resized? || s.resizer.Upgraded? ==> s.resizer.version < |s.grids|)
    && (forall v: nat :: v in s.missed ==> v < |s.grids|)
    && (s.missed != {} ==> !s.SenderAlive())
    && (forall v: nat :: v in s.unbumped ==> Owed(s, v))
    && (forall w :: 0 <= w < |s.waiters| ==> WaiterOk(s, s.waiters[w]))
  }

  lemma InitInv(screen: string)
    ensures Inv(Init(screen))
  {
  }

  lemma StepKeepsInv(s: State, step: Step)
    requires Inv(s) && Enabled(s, step)
    ensures Inv(Apply(s, step))
  {
    var t := Apply(s, step);
    forall v: nat | v in t.unbumped ensures Owed(t, v) {
      assert v in s.unbumped ==> Owed(s, v);
    }
    forall w | 0 <= w < |t.waiters| ensures WaiterOk(t, t.waiters[w]) {
      assert w < |s.waiters| ==> WaiterOk(s, s.waiters[w]);
    }
  }

  lemma {:induction false} RunKeepsInv(s: State, steps: seq<Step>)
    requires Inv(s) && Runs(s, steps)
    ensures Inv(After(s, steps))
    decreases |steps|
  {
    if steps != [] {
      StepKeepsInv(s, steps[0]);
      RunKeepsInv(Apply(s, steps[0]), steps[1..]);
    }
  }

  /** A sleeper with no unseen generation. */
  predicate SleepsSoundly(s: State, w: nat) {
    s.Is(w, Asleep) && s.waiters[w].seen == s.generation
  }

  /** No feed or resize lies between its grid change and its bump. */
  predicate Settled(s: State) {
    !s.feeder.Fed? && !s.resizer.Resized? && !s.resizer.Upgraded?
  }

  /** In every reachable state, a sleeper with nothing unseen, and a wait that
      reported "ended", has tested the current grid exactly when no change since
      its test still owes a bump. */
  lemma TestedCurrentIff(screen: string, steps: seq<Step>, w: nat)
    requires Runs(Init(screen), steps)
    requires var s := After(Init(screen), steps); SleepsSoundly(s, w) || s.Is(w, Done(Ended))
    ensures
      var s := After(Init(screen), steps);
      s.waiters[w].tested == s.Current() <==>
      forall v: nat :: Owed(s, v) && v <= s.Current() ==> v <= s.waiters[w].tested
  {
    var s := After(Init(screen), steps);
    InitInv(screen);
    RunKeepsInv(Init(screen), steps);
    assert WaiterOk(s, s.waiters[w]);
    if s.waiters[w].tested < s.Current() {
      var v: nat := s.Current();
      assert v in s.unbumped;
      assert Owed(s, v);
    }
  }

  /** No lost wake-up: while the sender lives, a settled state has no sleeper that
      could sleep past a grid on which its condition holds. */
  lemma NoLostWakeup(screen: string, steps: seq<Step>, w: nat)
    requires Runs(Init(screen), steps)
    requires var s := After(Init(screen), steps); SleepsSoundly(s, w) && Settled(s) && s.SenderAlive()
    ensures
      var s := After(Init(screen), steps);
      s.waiters[w].tested == s.Current() && !Met(s.waiters[w].condition, s.grids[s.Current()])
  {
    InitInv(screen);
    RunKeepsInv(Init(screen), steps);
    TestedCurrentIff(screen, steps, w);
    var s := After(Init(screen), steps);
    assert WaiterOk(s, s.waiters[w]);
  }

  /** The other side: a sleeper whose condition holds on a settled grid can be
      woken, and its own next steps report the match. */
  lemma MetSleeperMatches(screen: string, steps: seq<Step>, w: nat)
    requires Runs(Init(screen), steps)
    requires var s := After(Init(screen), steps);
             && s.Is(w, Asleep) && Settled(s) && s.LockFree() && s.SenderAlive()
             && s.grids != [] && Met(s.waiters[w].condition, s.grids[s.Current()])
    ensures
      var s := After(Init(screen), steps);
      Runs(s, [Wake(w), Mark(w), Check(w)]) &&
      After(s, [Wake(w), Mark(w), Check(w)]).Is(w, Done(Matched))
  {
    var s := After(Init(screen), steps);
    if SleepsSoundly(s, w) {
      NoLostWakeup(screen, steps, w);
    }
    var s1 := Apply(s, Wake(w));
    var s2 := Apply(s1, Mark(w));
    RunOne(s2, Check(w), []);
    RunOne(s1, Mark(w), [Check(w)] + []);
    RunOne(s, Wake(w), [Mark(w)] + ([Check(w)] + []));
    assert [Wake(w)] + ([Mark(w)] + ([Check(w)] + [])) == [Wake(w), Mark(w), Check(w)];
  }

  /** A report of "matched" was true on the grid it was tested on. */
  lemma MatchedWasTrue(screen: string, steps: seq<Step>, w: nat)
    requires Runs(Init(screen), steps) && After(Init(screen), steps).Is(w, Done(Matched))
    ensures
      var s := After(Init(screen), steps);
      s.waiters[w].tested < |s.grids| && Met(s.waiters[w].condition, s.grids[s.waiters[w].tested])
  {
    InitInv(screen);
    RunKeepsInv(Init(screen), steps);
    var s := After(Init(screen), steps);
    assert WaiterOk(s, s.waiters[w]);
  }

  // ----- "ended" reports

  /** A resize has changed the grid although the feeder is gone; a refused one does not. */
  predicate LateResize(s: State) {
    s.feeder.Exited? && s.resizer.Resized?
  }

  /** A run that never passes through a late resize. */
  predicate NoLateResize(s: State, steps: seq<Step>)
    requires Runs(s, steps)
    decreases |steps|
  {
    !LateResize(s) && (steps != [] ==> NoLateResize(Apply(s, steps[0]), steps[1..]))
  }

  lemma {:induction false} NothingMissed(s: State, steps: seq<Step>)
    requires Inv(s) && s.missed == {} && Runs(s, steps) && NoLateResize(s, steps)
    ensures After(s, steps).missed == {} && !LateResize(After(s, steps))
    decreases |steps|
  {
    if steps != [] {
      StepKeepsInv(s, steps[0]);
      NothingMissed(Apply(s, steps[0]), steps[1..]);
    }
  }

  /** Without a late resize, a wait that reports "ended" was tested false on the
      grid that is still the current one: the grid is final. */
  lemma EndedWasFalseOnFinalGrid(screen: string, steps: seq<Step>, w: nat)
    requires Runs(Init(screen), steps) && NoLateResize(Init(screen), steps)
    requires After(Init(screen), steps).Is(w, Done(Ended))
    ensures
      var s := After(Init(screen), steps);
      s.waiters[w].tested == s.Current() && !Met(s.waiters[w].condition, s.grids[s.Current()])
  {
    InitInv(screen);
    RunKeepsInv(Init(screen), steps);
    NothingMissed(Init(screen), steps);
    var s := After(Init(screen), steps);
    assert WaiterOk(s, s.waiters[w]);
    assert !Owed(s, s.Current());
    assert s.Current() !in s.unbumped;
  }

  /** With one, the claim fails for every sleeper and every screen it waits for:
      the feeder exits, a resize brings up that screen and cannot bump, and the
      wait still reports "ended". */
  lemma LateResizeFoolsSleeper(s: State, w: nat, screen: string) returns (steps: seq<Step>)
    requires SleepsSoundly(s, w) && s.feeder.Reading? && s.resizer.Away?
    requires Met(s.waiters[w].condition, screen)
    ensures Runs(s, steps)
    ensures var t := After(s, steps);
            && t.Is(w, Done(Ended)) && t.grids == s.grids + [screen]
            && t.waiters[w].condition == s.waiters[w].condition
  {
    var s1 := Apply(s, FeederExit);
    var s2 := Apply(s1, ResizeLock);
    var s3 := Apply(s2, ResizeGrid(screen));
    var s4 := Apply(s3, ResizeUpgrade);
    steps := [];
    RunOne(s4, SenderGone(w), steps);
    steps := [SenderGone(w)] + steps;
    RunOne(s3, ResizeUpgrade, steps);
    steps := [ResizeUpgrade] + steps;
    RunOne(s2, ResizeGrid(screen), steps);
    steps := [ResizeGrid(screen)] + steps;
    RunOne(s1, ResizeLock, steps);
    steps := [ResizeLock] + steps;
    RunOne(s, FeederExit, steps);
    steps := [FeederExit] + steps;
  }

  /** Such a run from the start: waiting for "b" on a screen showing "a". */
  lemma EndedCanBeWrong() returns (steps: seq<Step>)
    ensures Runs(Init("a"), steps)
    ensures var s := After(Init("a"), steps);
            && s.Is(0, Done(Ended)) && s.grids != []
            && Met(s.waiters[0].condition, s.grids[s.Current()])
  {
    assert "a"[0] != "b"[0] && "a"[1..] == "";
    assert !Has("a"[1..], "b");
    assert !Has("a", "b");
    var s0 := Init("a");
    var s1 := Apply(s0, Join(TextShown("b")));
    var s2 := Apply(s1, Mark(0));
    var s3 := Apply(s2, Check(0));
    steps := LateResizeFoolsSleeper(s3, 0, "b");
    RunOne(s2, Check(0), steps);
    steps := [Check(0)] + steps;
    RunOne(s1, Mark(0), steps);
    steps := [Mark(0)] + steps;
    RunOne(s0, Join(TextShown("b")), steps);
    steps := [Join(TextShown("b"))] + steps;
  }

  lemma RunOne(s: State, step: Step, rest: seq<Step>)
    requires Enabled(s, step) && Runs(Apply(s, step), rest)
    ensures Runs(s, [step] + rest) && After(s, [step] + rest) == After(Apply(s, step), rest)
  {
    assert ([step] + rest)[1..] == rest;
  }

  // ----- the raw-output tail kept for diagnostics

  const RAW_TAIL_CAP: nat := 2048

  function LastOf(s: seq<Byte>, n: nat): seq<Byte> {
    if |s| <= n then s else s[|s| - n..]
  }

  lemma LastOfAppend(a: seq<Byte>, b: seq<Byte>, n: nat)
    ensures LastOf(LastOf(a, n) + b, n) == LastOf(a + b, n)
  {
  }

  class RawTail {
    var bytes: seq<Byte>

    ghost predicate Valid()
      reads this
    {
      |bytes| <= RAW_TAIL_CAP
    }

    constructor ()
      ensures Valid() && bytes == []
    {
      bytes := [];
    }

    /** After any pushes the tail is the last `RAW_TAIL_CAP` bytes of all output. */
    method Push(chunk: seq<Byte>, ghost output: seq<Byte>)
      requires Valid() && bytes == LastOf(output, RAW_TAIL_CAP)
      modifies this
      ensures Valid() && bytes == LastOf(output + chunk, RAW_TAIL_CAP)
    {
      LastOfAppend(output, chunk, RAW_TAIL_CAP);
      if RAW_TAIL_CAP <= |chunk| {
        bytes := chunk[|chunk| - RAW_TAIL_CAP..];
        return;
      }
      ghost var before := bytes;
      ghost var dropped := 0;
      while |bytes| + |chunk| > RAW_TAIL_CAP
        invariant 0 <= dropped <= |before| && bytes == before[dropped..]
        invariant 0 < dropped ==> RAW_TAIL_CAP <= |bytes| + |chunk|
        decreases |bytes|
      {
        bytes := bytes[1..];
        dropped := dropped + 1;
      }
      bytes := bytes + chunk;
    }
  }
}
