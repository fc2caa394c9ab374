/** The continuation-nudge engine: tool events set flags, each event may emit one
    nudge on the most urgent lane, and anti-thrash rules limit how often. */
module Nudge {
  import opened Prelude

  datatype Lane = Interrupt | Streak | Goal | Plan | Workflow | Todo

  /** Settings are fixed for a run; a fingerprint is any function of lane and
      focus. The source clamps both maxima to at least one. */
  datatype Settings = Settings(cooldown: real, maxStreak: int, maxNudges: int, fingerprint: (Lane, string) -> int) {
    ghost predicate Valid() {
      1 <= maxStreak && 1 <= maxNudges
    }
  }

  datatype Last = Never | Nudged(lane: Lane, fingerprint: int, at: real)

  datatype State = State(
    interrupted: bool, streak: int,
    goalActive: bool, goalFocus: string,
    planOpen: bool, planFocus: string,
    workflowOpen: bool, workflowFocus: string,
    todoOpen: bool, todoFocus: string,
    nudgeCount: int, last: Last, quiet: bool)

  const DEFAULT := State(false, 0, false, "", false, "", false, "", false, "", 0, Never, false)

  // ----- events

  /** What the extractors made of the tool call. */
  datatype Tool =
    | UpdateGoal(goal: Option<bool>, focus: string)
    | TodoWrite(open: Option<bool>, focus: string, completedSome: bool)
    | PlanMode(enter: bool)
    | Agent(workflow: Option<bool>, workflowFocus: string, plan: Option<bool>, planFocus: string)
    | Other(plan: Option<bool>, planFocus: string)

  /** Flags and focuses an envelope may set outright. */
  datatype Explicit = Explicit(flag: Option<bool>, focus: string)

  datatype Event = Event(
    interrupted: bool, clearInterrupt: bool, tool: Tool,
    goal: Explicit, plan: Explicit, workflow: Explicit, todo: Explicit,
    streak: Option<int>, madeProgress: bool)

  function Or(flag: Option<bool>, was: bool): bool {
    if flag.Some? then flag.value else was
  }

  function OrText(focus: string, was: string): string {
    if focus != "" then focus else was
  }

  /** The tool-specific flag updates; the second result says whether the tool call
      itself was progress. */
  function ApplyTool(s: State, tool: Tool): (State, bool) {
    match tool
    case UpdateGoal(goal, focus) =>
      if goal.None? then (s, false)
      else
        var closed := s.goalActive && !goal.value;
        (s.(goalActive := goal.value, goalFocus := OrText(focus, s.goalFocus),
            interrupted := if closed then false else s.interrupted), closed)
    case TodoWrite(open, focus, completedSome) =>
      if open.None? then (s, false)
      else
        (s.(todoOpen := open.value, todoFocus := OrText(focus, s.todoFocus)),
         completedSome || (s.todoFocus != "" && focus != "" && s.todoFocus != focus) || !open.value)
    case PlanMode(enter) =>
      (s.(planOpen := enter, planFocus := if enter then "plan mode" else ""), s.planOpen && !enter)
    case Agent(workflow, workflowFocus, plan, planFocus) =>
      (s.(workflowOpen := Or(workflow, s.workflowOpen),
          workflowFocus := if workflow.Some? then OrText(workflowFocus, s.workflowFocus) else s.workflowFocus,
          planOpen := Or(plan, s.planOpen),
          planFocus := if plan.Some? then OrText(planFocus, s.planFocus) else s.planFocus), false)
    case Other(plan, planFocus) =>
      (s.(planOpen := Or(plan, s.planOpen),
          planFocus := if plan.Some? then OrText(planFocus, s.planFocus) else s.planFocus), false)
  }

  function ApplyExplicit(s: State, e: Event): State {
    s.(goalActive := Or(e.goal.flag, s.goalActive), planOpen := Or(e.plan.flag, s.planOpen),
       workflowOpen := Or(e.workflow.flag, s.workflowOpen), todoOpen := Or(e.todo.flag, s.todoOpen),
       goalFocus := OrText(e.goal.focus, s.goalFocus), planFocus := OrText(e.plan.focus, s.planFocus),
       workflowFocus := OrText(e.workflow.focus, s.workflowFocus), todoFocus := OrText(e.todo.focus, s.todoFocus),
       streak := if e.streak.Some? then e.streak.value else s.streak)
  }

  function ApplyToolEvent(s: State, e: Event): (State, bool) {
    var s1 := s.(interrupted := if e.clearInterrupt then false else s.interrupted || e.interrupted);
    var (s2, progress) := ApplyTool(s1, e.tool);
    (ApplyExplicit(s2, e), progress || e.madeProgress)
  }

  // ----- nudging

  predicate WorkOpen(s: State) {
    s.todoOpen || s.planOpen || s.goalActive
  }

  function SelectLane(s: State, settings: Settings): Option<Lane> {
    if s.interrupted then Some(Interrupt)
    else if s.streak >= settings.maxStreak && WorkOpen(s) then Some(Streak)
    else if s.goalActive then Some(Goal)
    else if s.planOpen then Some(Plan)
    else if s.workflowOpen then Some(Workflow)
    else if s.todoOpen then Some(Todo)
    else None
  }

  /** The streak number is part of the streak lane's focus; `number` renders it. */
  function FocusFor(s: State, lane: Lane, number: int -> string): string {
    var focus := FullFocus(s, lane, number);
    if 120 < |focus| then focus[..120] else focus
  }

  function FullFocus(s: State, lane: Lane, number: int -> string): string {
    match lane
    case Interrupt => "resume after cancel"
    case Streak => "no progress streak=" + number(s.streak)
    case Goal => OrText(s.goalFocus, "active goal")
    case Plan => OrText(s.planFocus, ".doit/plan.md")
    case Workflow => OrText(s.workflowFocus, "active workflow")
    case Todo => OrText(s.todoFocus, "open todo")
  }

  datatype Suppression = Quiet | MaxNudges | Cooldown

  function ShouldSuppress(s: State, lane: Lane, fingerprint: int, now: real, settings: Settings): Option<Suppression> {
    if s.quiet then Some(Quiet)
    else if s.nudgeCount >= settings.maxNudges then Some(MaxNudges)
    else if s.last.Nudged? && s.last.fingerprint == fingerprint && s.last.lane == lane
            && now - s.last.at < settings.cooldown then Some(Cooldown)
    else None
  }

  datatype Decision = NoLane | Suppressed(reason: Suppression) | Emit(lane: Lane, fingerprint: int)

  function Decide(s: State, now: real, settings: Settings, number: int -> string): Decision {
    match SelectLane(s, settings)
    case None => NoLane
    case Some(lane) =>
      var fp := settings.fingerprint(lane, FocusFor(s, lane, number));
      match ShouldSuppress(s, lane, fp, now, settings)
      case Some(reason) => Suppressed(reason)
      case None => Emit(lane, fp)
  }

  function Settle(s: State, progress: bool): State {
    if progress then s.(streak := 0, quiet := false) else s
  }

  function AfterEmit(s: State, progress: bool, lane: Lane, fp: int, now: real, settings: Settings): State {
    s.(last := Nudged(lane, fp, now),
       nudgeCount := s.nudgeCount + 1,
       quiet := s.quiet || s.nudgeCount + 1 >= settings.maxNudges,
       interrupted := if lane.Interrupt? then false else s.interrupted,
       streak := if !progress && !lane.Streak? && WorkOpen(s) then s.streak + 1 else s.streak)
  }

  function MaybeNudge(s: State, progress: bool, now: real, settings: Settings, number: int -> string): (State, Decision) {
    var settled := Settle(s, progress);
    var d := Decide(settled, now, settings, number);
    (if d.Emit? then AfterEmit(settled, progress, d.lane, d.fingerprint, now, settings) else settled, d)
  }

  /** The state dictionary the source updates in place. */
  class Engine {
    var state: State
    const settings: Settings
    const number: int -> string

    constructor (settings: Settings, number: int -> string)
      ensures state == DEFAULT && this.settings == settings && this.number == number
    {
      state := DEFAULT;
      this.settings := settings;
      this.number := number;
    }

    method Process(e: Event, now: real) returns (decision: Decision)
      modifies this
      ensures (state, decision) == Processed(old(state), e, now, settings, number)
    {
      var s, progress := ApplyToolEvent(state, e).0, ApplyToolEvent(state, e).1;
      state := s;
      if progress {
        state := state.(streak := 0, quiet := false);
      }
      decision := Decide(state, now, settings, number);
      if decision.Emit? {
        var open := WorkOpen(state);
        state := state.(last := Nudged(decision.lane, decision.fingerprint, now), nudgeCount := state.nudgeCount + 1);
        if state.nudgeCount >= settings.maxNudges {
          state := state.(quiet := true);
        }
        if decision.lane.Interrupt? {
          state := state.(interrupted := false);
        }
        if !progress && !decision.lane.Streak? && open {
          state := state.(streak := state.streak + 1);
        }
      }
    }
  }

  function Processed(s: State, e: Event, now: real, settings: Settings, number: int -> string): (State, Decision) {
    var (applied, progress) := ApplyToolEvent(s, e);
    MaybeNudge(applied, progress, now, settings, number)
  }

  // ----- whole runs

  datatype Timed = Timed(event: Event, now: real)

  /** A nudge that was emitted. */
  datatype Emission = Emission(lane: Lane, fingerprint: int, at: real)

  datatype Run = Run(state: State, log: seq<Emission>)

  function RunAll(inputs: seq<Timed>, settings: Settings, number: int -> string): Run {
    if inputs == [] then Run(DEFAULT, [])
    else
      var before, input := RunAll(inputs[..|inputs| - 1], settings, number), inputs[|inputs| - 1];
      var (s, d) := Processed(before.state, input.event, input.now, settings, number);
      Run(s, Logged(before.log, d, input.now))
  }

  ghost predicate NoOverrides(inputs: seq<Timed>) {
    forall i :: 0 <= i < |inputs| ==> inputs[i].event.streak.None?
  }

  function Interrupts(log: seq<Emission>): nat {
    if log == [] then 0 else Interrupts(log[..|log| - 1]) + if log[|log| - 1].lane.Interrupt? then 1 else 0
  }

  /** What the engine remembers is the log: its length and its last entry. */
  ghost predicate Remembers(s: State, log: seq<Emission>) {
    && s.nudgeCount == |log|
    && s.last == (if log == [] then Never
                  else Nudged(log[|log| - 1].lane, log[|log| - 1].fingerprint, log[|log| - 1].at))
  }

  /** The parts of the state the anti-thrash rules live on. */
  ghost predicate SameMemory(s: State, t: State) {
    s.nudgeCount == t.nudgeCount && s.last == t.last && s.quiet == t.quiet && s.streak == t.streak
  }

  lemma ToolKeepsMemory(s: State, tool: Tool)
    ensures SameMemory(ApplyTool(s, tool).0, s)
  {
    match tool
    case UpdateGoal(_, _) =>
    case TodoWrite(_, _, _) =>
    case PlanMode(_) =>
    case Agent(_, _, _, _) =>
    case Other(_, _) =>
  }

  lemma ExplicitKeepsMemory(s: State, e: Event)
    ensures SameMemory(ApplyExplicit(s, e), s.(streak := if e.streak.Some? then e.streak.value else s.streak))
  {
  }

  lemma EventKeepsMemory(s: State, e: Event)
    ensures SameMemory(ApplyToolEvent(s, e).0, s.(streak := if e.streak.Some? then e.streak.value else s.streak))
  {
    var s1 := s.(interrupted := if e.clearInterrupt then false else s.interrupted || e.interrupted);
    ToolKeepsMemory(s1, e.tool);
    ExplicitKeepsMemory(ApplyTool(s1, e.tool).0, e);
  }

  /** Consecutive repeats of a nudge are at least one cooldown apart. */
  ghost predicate CooledDown(log: seq<Emission>, cooldown: real) {
    forall i :: 0 < i < |log| && log[i].lane == log[i - 1].lane && log[i].fingerprint == log[i - 1].fingerprint ==>
                cooldown <= log[i].at - log[i - 1].at
  }

  function Logged(log: seq<Emission>, d: Decision, now: real): seq<Emission> {
    if d.Emit? then log + [Emission(d.lane, d.fingerprint, now)] else log
  }

  ghost predicate Limited(s: State, log: seq<Emission>, settings: Settings) {
    Remembers(s, log) && |log| <= settings.maxNudges && CooledDown(log, settings.cooldown)
  }

  /** One decision keeps the limits: it emits only below the maximum, and repeats
      the last nudge only after the cooldown. */
  lemma NudgeKeepsLimits(s: State, progress: bool, now: real, settings: Settings, number: int -> string, log: seq<Emission>)
    requires settings.Valid() && Limited(s, log, settings)
    ensures var (s', d) := MaybeNudge(s, progress, now, settings, number);
            Limited(s', Logged(log, d, now), settings)
  {
    var settled := Settle(s, progress);
    var d := Decide(settled, now, settings, number);
    assert Remembers(settled, log);
    if d.Emit? {
      var fp := d.fingerprint;
      assert ShouldSuppress(settled, d.lane, fp, now, settings).None?;
    }
  }

  /** Emitted nudges never exceed the maximum, even after progress ends the quiet
      period, and a repeated nudge waits out its cooldown. */
  lemma {:induction false} NudgesAreLimited(inputs: seq<Timed>, settings: Settings, number: int -> string)
    requires settings.Valid()
    ensures Limited(RunAll(inputs, settings, number).state, RunAll(inputs, settings, number).log, settings)
    decreases |inputs|
  {
    if inputs != [] {
      var front, input := inputs[..|inputs| - 1], inputs[|inputs| - 1];
      NudgesAreLimited(front, settings, number);
      var before := RunAll(front, settings, number);
      EventKeepsMemory(before.state, input.event);
      var (applied, progress) := ApplyToolEvent(before.state, input.event);
      NudgeKeepsLimits(applied, progress, input.now, settings, number, before.log);
    }
  }

  /** The streak grows only below its threshold, except on an interrupt nudge. */
  lemma NudgeBoundsStreak(s: State, progress: bool, now: real, settings: Settings, number: int -> string, log: seq<Emission>)
    requires settings.Valid() && 0 <= s.streak <= settings.maxStreak + Interrupts(log)
    ensures var (s', d) := MaybeNudge(s, progress, now, settings, number);
            0 <= s'.streak <= settings.maxStreak + Interrupts(Logged(log, d, now))
  {
    var settled := Settle(s, progress);
    var d := Decide(settled, now, settings, number);
    if d.Emit? {
      assert Logged(log, d, now)[..|log|] == log;
    }
  }

  /** Without explicit overrides the streak never exceeds its threshold plus the
      number of interrupt nudges. */
  lemma {:induction false} StreakIsBounded(inputs: seq<Timed>, settings: Settings, number: int -> string)
    requires settings.Valid() && NoOverrides(inputs)
    ensures var run := RunAll(inputs, settings, number);
            0 <= run.state.streak <= settings.maxStreak + Interrupts(run.log)
    decreases |inputs|
  {
    if inputs != [] {
      var n := |inputs| - 1;
      var front, input := inputs[..n], inputs[n];
      assert forall i :: 0 <= i < n ==> front[i] == inputs[i];
      StreakIsBounded(front, settings, number);
      var before := RunAll(front, settings, number);
      EventKeepsMemory(before.state, input.event);
      var (applied, progress) := ApplyToolEvent(before.state, input.event);
      NudgeBoundsStreak(applied, progress, input.now, settings, number, before.log);
    }
  }

  // ----- when a run nudges, and on which lane

  /** What puts a lane forward. */
  ghost predicate Calls(s: State, lane: Lane, settings: Settings) {
    match lane
    case Interrupt => s.interrupted
    case Streak => settings.maxStreak <= s.streak && (s.goalActive || s.planOpen || s.todoOpen)
    case Goal => s.goalActive
    case Plan => s.planOpen
    case Workflow => s.workflowOpen
    case Todo => s.todoOpen
  }

  /** The smaller, the more urgent. */
  function Rank(lane: Lane): nat {
    match lane
    case Interrupt => 0
    case Streak => 1
    case Goal => 2
    case Plan => 3
    case Workflow => 4
    case Todo => 5
  }

  ghost predicate MostUrgent(s: State, lane: Lane, settings: Settings) {
    Calls(s, lane, settings) && forall other: Lane :: Rank(other) < Rank(lane) ==> !Calls(s, other, settings)
  }

  lemma SelectsMostUrgent(s: State, settings: Settings, lane: Lane)
    ensures SelectLane(s, settings) == Some(lane) <==> MostUrgent(s, lane, settings)
    ensures SelectLane(s, settings) == None ==> !Calls(s, lane, settings)
  {
    assert Rank(Interrupt) < Rank(Streak) < Rank(Goal) < Rank(Plan) < Rank(Workflow) < Rank(Todo);
  }

  /** The flag a lane of open work stands on. */
  function Flag(s: State, lane: Lane): bool
    requires 2 <= Rank(lane)
  {
    match lane
    case Goal => s.goalActive
    case Plan => s.planOpen
    case Workflow => s.workflowOpen
    case Todo => s.todoOpen
  }

  /** What a tool call shows of a flag. */
  function Shows(tool: Tool, lane: Lane): Option<bool> {
    match (lane, tool)
    case (Goal, UpdateGoal(goal, _)) => goal
    case (Plan, PlanMode(enter)) => Some(enter)
    case (Plan, Agent(_, _, plan, _)) => plan
    case (Plan, Other(plan, _)) => plan
    case (Workflow, Agent(workflow, _, _, _)) => workflow
    case (Todo, TodoWrite(open, _, _)) => open
    case _ => None
  }

  function Given(e: Event, lane: Lane): Option<bool>
    requires 2 <= Rank(lane)
  {
    match lane
    case Goal => e.goal.flag
    case Plan => e.plan.flag
    case Workflow => e.workflow.flag
    case Todo => e.todo.flag
  }

  /** What an event says of a flag: its explicit value, or else what its tool call shows. */
  function Says(e: Event, lane: Lane): Option<bool>
    requires 2 <= Rank(lane)
  {
    if Given(e, lane).Some? then Given(e, lane) else Shows(e.tool, lane)
  }

  /** The last word on a flag. */
  function Latest(inputs: seq<Timed>, lane: Lane): bool
    requires 2 <= Rank(lane)
  {
    if inputs == [] then false
    else
      match Says(inputs[|inputs| - 1].event, lane)
      case Some(value) => value
      case None => Latest(inputs[..|inputs| - 1], lane)
  }

  /** The state on which the last event is decided. */
  function Faced(inputs: seq<Timed>, settings: Settings, number: int -> string): State
    requires inputs != []
  {
    var before := RunAll(inputs[..|inputs| - 1], settings, number).state;
    var (applied, progress) := ApplyToolEvent(before, inputs[|inputs| - 1].event);
    Settle(applied, progress)
  }

  lemma ToolShows(s: State, tool: Tool, lane: Lane)
    requires 2 <= Rank(lane)
    ensures Flag(ApplyTool(s, tool).0, lane) == Or(Shows(tool, lane), Flag(s, lane))
  {
    match tool
    case UpdateGoal(_, _) =>
    case TodoWrite(_, _, _) =>
    case PlanMode(_) =>
    case Agent(_, _, _, _) =>
    case Other(_, _) =>
  }

  lemma ToolSays(s: State, e: Event, lane: Lane)
    requires 2 <= Rank(lane)
    ensures Flag(ApplyToolEvent(s, e).0, lane) == Or(Says(e, lane), Flag(s, lane))
  {
    var s1 := s.(interrupted := if e.clearInterrupt then false else s.interrupted || e.interrupted);
    ToolShows(s1, e.tool, lane);
    GivenWins(ApplyTool(s1, e.tool).0, e, lane);
  }

  lemma GivenWins(s: State, e: Event, lane: Lane)
    requires 2 <= Rank(lane)
    ensures Flag(ApplyExplicit(s, e), lane) == Or(Given(e, lane), Flag(s, lane))
  {
  }

  lemma NudgeKeepsFlags(s: State, progress: bool, now: real, settings: Settings, number: int -> string, lane: Lane)
    requires 2 <= Rank(lane)
    ensures Flag(Settle(s, progress), lane) == Flag(s, lane)
    ensures Flag(MaybeNudge(s, progress, now, settings, number).0, lane) == Flag(s, lane)
  {
  }

  /** After any run, and whenever a decision is made, each flag of open work is what was
      last said of it. */
  lemma {:induction false} FlagsAreLatest(inputs: seq<Timed>, settings: Settings, number: int -> string, lane: Lane)
    requires 2 <= Rank(lane)
    ensures Flag(RunAll(inputs, settings, number).state, lane) == Latest(inputs, lane)
    ensures inputs != [] ==> Flag(Faced(inputs, settings, number), lane) == Latest(inputs, lane)
    decreases |inputs|
  {
    if inputs != [] {
      var front, input := inputs[..|inputs| - 1], inputs[|inputs| - 1];
      FlagsAreLatest(front, settings, number, lane);
      var s := RunAll(front, settings, number).state;
      ToolSays(s, input.event, lane);
      var (applied, progress) := ApplyToolEvent(s, input.event);
      NudgeKeepsFlags(applied, progress, input.now, settings, number, lane);
    }
  }

  function Focus(s: State, lane: Lane): string
    requires 2 <= Rank(lane)
  {
    match lane
    case Goal => s.goalFocus
    case Plan => s.planFocus
    case Workflow => s.workflowFocus
    case Todo => s.todoFocus
  }

  function Naming(focus: string, was: string): string {
    if focus != "" then focus else was
  }

  /** What a tool call makes of a lane's focus: a name it brings along with the flag
      replaces it, plan mode sets or clears it. */
  function Names(tool: Tool, lane: Lane, was: string): string {
    match (lane, tool)
    case (Goal, UpdateGoal(goal, focus)) => if goal.Some? then Naming(focus, was) else was
    case (Plan, PlanMode(enter)) => if enter then "plan mode" else ""
    case (Plan, Agent(_, _, plan, focus)) => if plan.Some? then Naming(focus, was) else was
    case (Plan, Other(plan, focus)) => if plan.Some? then Naming(focus, was) else was
    case (Workflow, Agent(workflow, focus, _, _)) => if workflow.Some? then Naming(focus, was) else was
    case (Todo, TodoWrite(open, focus, _)) => if open.Some? then Naming(focus, was) else was
    case _ => was
  }

  function GivenFocus(e: Event, lane: Lane): string
    requires 2 <= Rank(lane)
  {
    match lane
    case Goal => e.goal.focus
    case Plan => e.plan.focus
    case Workflow => e.workflow.focus
    case Todo => e.todo.focus
  }

  /** The focus the events so far leave a lane with. */
  function LatestFocus(inputs: seq<Timed>, lane: Lane): string
    requires 2 <= Rank(lane)
  {
    if inputs == [] then ""
    else
      var e := inputs[|inputs| - 1].event;
      Naming(GivenFocus(e, lane), Names(e.tool, lane, LatestFocus(inputs[..|inputs| - 1], lane)))
  }

  lemma ToolNames(s: State, tool: Tool, lane: Lane)
    requires 2 <= Rank(lane)
    ensures Focus(ApplyTool(s, tool).0, lane) == Names(tool, lane, Focus(s, lane))
  {
    match tool
    case UpdateGoal(_, _) =>
    case TodoWrite(_, _, _) =>
    case PlanMode(_) =>
    case Agent(_, _, _, _) =>
    case Other(_, _) =>
  }

  lemma GivenFocusWins(s: State, e: Event, lane: Lane)
    requires 2 <= Rank(lane)
    ensures Focus(ApplyExplicit(s, e), lane) == Naming(GivenFocus(e, lane), Focus(s, lane))
  {
  }

  lemma EventNames(s: State, e: Event, lane: Lane)
    requires 2 <= Rank(lane)
    ensures Focus(ApplyToolEvent(s, e).0, lane) == Naming(GivenFocus(e, lane), Names(e.tool, lane, Focus(s, lane)))
  {
    var s1 := s.(interrupted := if e.clearInterrupt then false else s.interrupted || e.interrupted);
    ToolNames(s1, e.tool, lane);
    GivenFocusWins(ApplyTool(s1, e.tool).0, e, lane);
  }

  lemma NudgeKeepsFocus(s: State, progress: bool, now: real, settings: Settings, number: int -> string, lane: Lane)
    requires 2 <= Rank(lane)
    ensures Focus(Settle(s, progress), lane) == Focus(s, lane)
    ensures Focus(MaybeNudge(s, progress, now, settings, number).0, lane) == Focus(s, lane)
  {
  }

  /** Whenever a decision is made, a lane of open work is described by its latest focus,
      or by its default when it has none, up to 120 characters. */
  lemma {:induction false} FocusIsLatest(inputs: seq<Timed>, settings: Settings, number: int -> string, lane: Lane)
    requires 2 <= Rank(lane)
    ensures Focus(RunAll(inputs, settings, number).state, lane) == LatestFocus(inputs, lane)
    ensures inputs != [] ==>
              FocusFor(Faced(inputs, settings, number), lane, number) ==
              UpTo(Naming(LatestFocus(inputs, lane), DefaultFocus(lane)), 120)
    decreases |inputs|
  {
    if inputs != [] {
      var front, input := inputs[..|inputs| - 1], inputs[|inputs| - 1];
      FocusIsLatest(front, settings, number, lane);
      var s := RunAll(front, settings, number).state;
      EventNames(s, input.event, lane);
      var (applied, progress) := ApplyToolEvent(s, input.event);
      NudgeKeepsFocus(applied, progress, input.now, settings, number, lane);
      ShownFocus(Faced(inputs, settings, number), lane, number);
    }
  }

  function UpTo(s: string, n: nat): string {
    if n < |s| then s[..n] else s
  }

  function DefaultFocus(lane: Lane): string {
    match lane
    case Goal => "active goal"
    case Plan => ".doit/plan.md"
    case Workflow => "active workflow"
    case _ => "open todo"
  }

  lemma ShownFocus(s: State, lane: Lane, number: int -> string)
    requires 2 <= Rank(lane)
    ensures FocusFor(s, lane, number) == UpTo(Naming(Focus(s, lane), DefaultFocus(lane)), 120)
  {
  }

  /** The last nudge of `log` again, within the cooldown. */
  ghost predicate Repeats(log: seq<Emission>, lane: Lane, fingerprint: int, now: real, cooldown: real) {
    log != [] && var last := log[|log| - 1];
    last.lane == lane && last.fingerprint == fingerprint && now - last.at < cooldown
  }

  ghost predicate Nudges(s: State, log: seq<Emission>, lane: Lane, fingerprint: int, now: real, settings: Settings) {
    && MostUrgent(s, lane, settings) && |log| < settings.maxNudges
    && !Repeats(log, lane, fingerprint, now, settings.cooldown)
  }

  /** The quiet period begins only when the maximum is reached. */
  ghost predicate QuietAtMax(s: State, settings: Settings) {
    s.quiet ==> settings.maxNudges <= s.nudgeCount
  }

  lemma {:induction false} QuietOnlyAtMax(inputs: seq<Timed>, settings: Settings, number: int -> string)
    ensures QuietAtMax(RunAll(inputs, settings, number).state, settings)
    ensures inputs != [] ==> QuietAtMax(Faced(inputs, settings, number), settings)
    decreases |inputs|
  {
    if inputs != [] {
      var front, input := inputs[..|inputs| - 1], inputs[|inputs| - 1];
      QuietOnlyAtMax(front, settings, number);
      EventKeepsMemory(RunAll(front, settings, number).state, input.event);
    }
  }

  lemma DecidesIff(s: State, log: seq<Emission>, now: real, settings: Settings, number: int -> string, lane: Lane)
    requires Remembers(s, log) && QuietAtMax(s, settings)
    ensures var fp := settings.fingerprint(lane, FocusFor(s, lane, number));
            Decide(s, now, settings, number) == Emit(lane, fp) <==> Nudges(s, log, lane, fp, now, settings)
  {
    SelectsMostUrgent(s, settings, lane);
  }

  /** When the last event of a run nudges, and on which lane: the most urgent lane that
      calls, unless the maximum is reached or the nudge repeats the last one too soon. */
  lemma RunNudgesIff(inputs: seq<Timed>, settings: Settings, number: int -> string, lane: Lane)
    requires settings.Valid() && inputs != []
    ensures var n := |inputs| - 1;
            var log, s, now := RunAll(inputs[..n], settings, number).log, Faced(inputs, settings, number), inputs[n].now;
            var fp := settings.fingerprint(lane, FocusFor(s, lane, number));
            && (Nudges(s, log, lane, fp, now, settings) ==>
                  RunAll(inputs, settings, number).log == log + [Emission(lane, fp, now)])
            && ((forall l: Lane :: !Nudges(s, log, l, settings.fingerprint(l, FocusFor(s, l, number)), now, settings)) ==>
                  RunAll(inputs, settings, number).log == log)
  {
    var n := |inputs| - 1;
    var before := RunAll(inputs[..n], settings, number);
    var s, now := Faced(inputs, settings, number), inputs[n].now;
    NudgesAreLimited(inputs[..n], settings, number);
    QuietOnlyAtMax(inputs, settings, number);
    EventKeepsMemory(before.state, inputs[n].event);
    DecidesIff(s, before.log, now, settings, number, lane);
    var d := Decide(s, now, settings, number);
    assert RunAll(inputs, settings, number).log == Logged(before.log, d, now);
    if d.Emit? {
      DecidesIff(s, before.log, now, settings, number, d.lane);
    }
  }

  // ----- what the streak counts

  /** Whether the last event was progress. */
  predicate Progresses(inputs: seq<Timed>, settings: Settings, number: int -> string)
    requires inputs != []
  {
    var before := RunAll(inputs[..|inputs| - 1], settings, number).state;
    ApplyToolEvent(before, inputs[|inputs| - 1].event).1
  }

  /** The lane on which the last event nudged, read off the log. */
  function NudgedOn(inputs: seq<Timed>, settings: Settings, number: int -> string): Option<Lane>
    requires inputs != []
  {
    var before, log := RunAll(inputs[..|inputs| - 1], settings, number).log, RunAll(inputs, settings, number).log;
    if |before| < |log| then Some(log[|log| - 1].lane) else None
  }

  ghost predicate OpenWork(inputs: seq<Timed>) {
    Latest(inputs, Goal) || Latest(inputs, Plan) || Latest(inputs, Todo)
  }

  /** Nudges outside the streak lane, with work open, since the last progress. */
  ghost function Fruitless(inputs: seq<Timed>, settings: Settings, number: int -> string): nat {
    if inputs == [] || Progresses(inputs, settings, number) then 0
    else
      Fruitless(inputs[..|inputs| - 1], settings, number) + if Counts(inputs, settings, number) then 1 else 0
  }

  lemma OpenWorkIsLatest(inputs: seq<Timed>, settings: Settings, number: int -> string)
    requires inputs != []
    ensures WorkOpen(Faced(inputs, settings, number)) <==> OpenWork(inputs)
  {
    FlagsAreLatest(inputs, settings, number, Goal);
    FlagsAreLatest(inputs, settings, number, Plan);
    FlagsAreLatest(inputs, settings, number, Todo);
  }

  ghost predicate Counts(inputs: seq<Timed>, settings: Settings, number: int -> string)
    requires inputs != []
  {
    var nudged := NudgedOn(inputs, settings, number);
    nudged.Some? && nudged != Some(Streak) && OpenWork(inputs)
  }

  lemma NudgeCounts(s: State, progress: bool, now: real, settings: Settings, number: int -> string)
    ensures var (s', d) := MaybeNudge(s, progress, now, settings, number);
            s'.streak == if progress then 0
                         else s.streak + if d.Emit? && d.lane != Streak && WorkOpen(s) then 1 else 0
  {
  }

  lemma StreakStep(inputs: seq<Timed>, settings: Settings, number: int -> string)
    requires inputs != [] && inputs[|inputs| - 1].event.streak.None?
    ensures RunAll(inputs, settings, number).state.streak ==
            if Progresses(inputs, settings, number) then 0
            else RunAll(inputs[..|inputs| - 1], settings, number).state.streak
                 + if Counts(inputs, settings, number) then 1 else 0
  {
    var before, input := RunAll(inputs[..|inputs| - 1], settings, number), inputs[|inputs| - 1];
    OpenWorkIsLatest(inputs, settings, number);
    EventKeepsMemory(before.state, input.event);
    var (applied, progress) := ApplyToolEvent(before.state, input.event);
    NudgeCounts(applied, progress, input.now, settings, number);
  }

  /** Without overrides the streak is exactly the number of fruitless nudges. */
  lemma {:induction false} StreakCountsFruitless(inputs: seq<Timed>, settings: Settings, number: int -> string)
    requires NoOverrides(inputs)
    ensures RunAll(inputs, settings, number).state.streak == Fruitless(inputs, settings, number)
    decreases |inputs|
  {
    if inputs != [] {
      var n := |inputs| - 1;
      assert inputs[n].event.streak.None?;
      assert forall i :: 0 <= i < n ==> inputs[..n][i] == inputs[i];
      StreakCountsFruitless(inputs[..n], settings, number);
      StreakStep(inputs, settings, number);
    }
  }

  lemma ToolInterrupts(s: State, tool: Tool)
    ensures ApplyTool(s, tool).0.interrupted <==>
            s.interrupted && !(Shows(tool, Goal) == Some(false) && s.goalActive)
  {
    match tool
    case UpdateGoal(_, _) =>
    case TodoWrite(_, _, _) =>
    case PlanMode(_) =>
    case Agent(_, _, _, _) =>
    case Other(_, _) =>
  }

  lemma EventInterrupts(s: State, e: Event)
    ensures ApplyToolEvent(s, e).0.interrupted <==>
            && (s.interrupted || e.interrupted) && !e.clearInterrupt
            && !(Shows(e.tool, Goal) == Some(false) && s.goalActive)
  {
    var s1 := s.(interrupted := if e.clearInterrupt then false else s.interrupted || e.interrupted);
    ToolInterrupts(s1, e.tool);
  }

  lemma NudgeInterrupts(s: State, progress: bool, now: real, settings: Settings, number: int -> string)
    ensures Settle(s, progress).interrupted == s.interrupted
    ensures var (s', d) := MaybeNudge(s, progress, now, settings, number);
            s'.interrupted <==> s.interrupted && !(d.Emit? && d.lane == Interrupt)
  {
  }

  /** An interrupt stands from the event that reports it until it is cleared, the goal is
      closed by a tool call, or an interrupt nudge answers it. */
  lemma InterruptStep(inputs: seq<Timed>, settings: Settings, number: int -> string)
    requires inputs != []
    ensures var front, e := inputs[..|inputs| - 1], inputs[|inputs| - 1].event;
            Faced(inputs, settings, number).interrupted <==>
            && (RunAll(front, settings, number).state.interrupted || e.interrupted) && !e.clearInterrupt
            && !(Shows(e.tool, Goal) == Some(false) && Latest(front, Goal))
    ensures RunAll(inputs, settings, number).state.interrupted <==>
            Faced(inputs, settings, number).interrupted && NudgedOn(inputs, settings, number) != Some(Interrupt)
  {
    var front, input := inputs[..|inputs| - 1], inputs[|inputs| - 1];
    var before := RunAll(front, settings, number);
    FlagsAreLatest(front, settings, number, Goal);
    EventInterrupts(before.state, input.event);
    var (applied, progress) := ApplyToolEvent(before.state, input.event);
    NudgeInterrupts(applied, progress, input.now, settings, number);
  }
}
