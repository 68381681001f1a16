/** Waiting for a condition on the terminal grid (crates/codegen/ptyctl/src/wait.rs, `wait_for`)
while a feeder and resizes change it (crates/codegen/ptyctl/src/session.rs).

One waiter, the feeder task and any number of resizes take turns. Each change of the grid
happens under the terminal lock. A resize keeps the lock from its change to the end of its
bump, so it takes several steps; every other holder touches the grid once, so acquiring,
using and releasing the lock is one step of a moment when no resize holds it. The generation
watch is its version counter: a receiver reports an unseen version before it reports that no
sender is left. */
module WaitProtocol {
  import opened Wrappers

  /** The feeder: waiting for output, between its feed and its bump, or gone with its sender. */
  datatype Feeder = Idle | Fed | Exited

  /** The resize that holds the lock: grid changed, sender upgraded, generation bumped or not to be. */
  datatype Resizer = Absent | Resized | Upgraded | Finishing

  datatype Waiter =
    | AtTop                             // about to mark the generation as seen
    | Marked                            // about to check the grid
    | Parked                            // checked, in the select
    | Reporting(ended: bool)            // about to take the snapshot of a failed wait
    | Matched
    | TimedOut(ended: bool, shown: nat) // the index of the grid in the snapshot

  /** `grids` is every grid there has been, the current one last; `bumped` indexes the one
  current at the last bump and `checked` the one last checked. `stray` indexes the last one
  written by a resize that found no sender to bump, or is 0. */
  datatype State<G> = State(
    grids: seq<G>, version: nat, bumped: nat, stray: nat,
    feeder: Feeder, resizer: Resizer,
    waiter: Waiter, seen: nat, checked: nat)
  {
    predicate HasGrid() { grids != [] }

    function Last(): nat
      requires HasGrid()
    {
      |grids| - 1
    }

    function Grid(): G
      requires HasGrid()
    {
      grids[|grids| - 1]
    }

    /** A change of the grid is still to be followed by its bump. */
    predicate AwaitsBump() {
      feeder.Fed? || resizer.Resized? || resizer.Upgraded?
    }

    /** No sender is left. */
    predicate Closed() {
      feeder.Exited? && !resizer.Upgraded?
    }

    predicate Waiting() {
      waiter.AtTop? || waiter.Marked? || waiter.Parked?
    }
  }

  datatype Action<G> =
    | Feed(grid: G) | FeederBump | FeederExit
    | Resize(grid: G) | Upgrade | ResizeBump | Unlock
    | Mark | Check | Wake | SeeClosed | Timeout | Snapshot

  function Start<G>(grid: G): State<G> {
    State([grid], 0, 0, 0, Idle, Absent, AtTop, 0, 0)
  }

  function Bump<G>(s: State<G>): State<G>
    requires s.HasGrid()
  {
    s.(version := s.version + 1, bumped := s.Last())
  }

  /** The state after an action, if the action can happen. */
  function Step<G>(s: State<G>, a: Action<G>, met: G -> bool): Option<State<G>>
    requires s.HasGrid()
  {
    match a
    case Feed(grid) =>
      if s.feeder.Idle? && s.resizer.Absent? then Some(s.(grids := s.grids + [grid], feeder := Fed)) else None
    case FeederBump =>
      if s.feeder.Fed? then Some(Bump(s).(feeder := Idle)) else None
    case FeederExit =>
      if s.feeder.Idle? then Some(s.(feeder := Exited)) else None
    case Resize(grid) =>
      if s.resizer.Absent? then Some(s.(grids := s.grids + [grid], resizer := Resized)) else None
    case Upgrade =>
      if !s.resizer.Resized? then None
      else if s.Closed() then Some(s.(resizer := Finishing, stray := s.Last()))
      else Some(s.(resizer := Upgraded))
    case ResizeBump =>
      if s.resizer.Upgraded? then Some(Bump(s).(resizer := Finishing)) else None
    case Unlock =>
      if s.resizer.Finishing? then Some(s.(resizer := Absent)) else None
    case Mark =>
      if s.waiter.AtTop? then Some(s.(waiter := Marked, seen := s.version)) else None
    case Check =>
      if s.waiter.Marked? && s.resizer.Absent?
      then Some(s.(waiter := if met(s.Grid()) then Matched else Parked, checked := s.Last()))
      else None
    case Wake =>
      if s.waiter.Parked? && s.version != s.seen then Some(s.(waiter := AtTop, seen := s.version)) else None
    case SeeClosed =>
      if s.waiter.Parked? && s.version == s.seen && s.Closed() then Some(s.(waiter := Reporting(true))) else None
    case Timeout =>
      if s.waiter.Parked? then Some(s.(waiter := Reporting(false))) else None
    case Snapshot =>
      if s.waiter.Reporting? && s.resizer.Absent?
      then Some(s.(waiter := TimedOut(s.waiter.ended, s.Last())))
      else None
  }

  /** The state after a run, if its actions can happen in this order. */
  function After<G>(s: State<G>, actions: seq<Action<G>>, met: G -> bool): (r: Option<State<G>>)
    requires s.HasGrid()
    ensures r.Some? ==> r.value.HasGrid()
    decreases |actions|
  {
    if actions == [] then Some(s)
    else
      match Step(s, actions[0], met)
      case None => None
      case Some(next) => After(next, actions[1..], met)
  }

  // ---------- what every step keeps ----------

  /** Once no bump is awaited, the current grid is that of the last bump or of a stray resize. */
  predicate BumpsCatchUp<G>(s: State<G>) {
    && s.HasGrid() && s.bumped <= s.Last() && s.checked <= s.Last() && s.stray <= s.Last()
    && (s.AwaitsBump() || s.stray == s.Last() || s.bumped == s.Last())
    && (s.stray > 0 ==> s.Closed() && s.bumped <= s.stray)
  }

  /** A waiter that has gone on from a check found it false, on a grid no older than the
  last bump it has seen. */
  predicate ChecksAreCurrent<G>(s: State<G>, met: G -> bool) {
    s.HasGrid() && s.checked < |s.grids| && s.seen <= s.version
    && (s.waiter.Parked? || s.waiter.Reporting? || s.waiter.TimedOut? ==>
          !met(s.grids[s.checked]) && (s.version == s.seen ==> s.bumped <= s.checked))
    && (s.waiter.Matched? ==> met(s.grids[s.checked]))
  }

  /** The end is reported only when no more bumps can come and none is unseen. */
  predicate EndIsFinal<G>(s: State<G>) {
    match s.waiter
    case Reporting(ended) => ended ==> s.version == s.seen && s.Closed()
    case TimedOut(ended, shown) =>
      shown < |s.grids| && s.checked <= shown
      && (ended ==> s.version == s.seen && s.Closed())
      && (ended && !s.resizer.Resized? && s.stray <= s.checked ==> shown == s.checked)
    case _ => true
  }

  predicate Inv<G>(s: State<G>, met: G -> bool) {
    BumpsCatchUp(s) && ChecksAreCurrent(s, met) && EndIsFinal(s)
  }

  lemma {:induction false} StepKeepsBumps<G>(s: State<G>, a: Action<G>, met: G -> bool)
    requires BumpsCatchUp(s) && Step(s, a, met).Some?
    ensures BumpsCatchUp(Step(s, a, met).value)
  {}

  lemma {:induction false} StepKeepsChecks<G>(s: State<G>, a: Action<G>, met: G -> bool)
    requires Inv(s, met) && Step(s, a, met).Some?
    ensures ChecksAreCurrent(Step(s, a, met).value, met)
  {}

  lemma {:induction false} StepKeepsEnd<G>(s: State<G>, a: Action<G>, met: G -> bool)
    requires Inv(s, met) && Step(s, a, met).Some?
    ensures EndIsFinal(Step(s, a, met).value)
  {}

  lemma {:induction false} RunKeepsInv<G>(s: State<G>, actions: seq<Action<G>>, met: G -> bool)
    requires Inv(s, met) && After(s, actions, met).Some?
    ensures Inv(After(s, actions, met).value, met)
    decreases |actions|
  {
    if actions != [] {
      StepKeepsBumps(s, actions[0], met);
      StepKeepsChecks(s, actions[0], met);
      StepKeepsEnd(s, actions[0], met);
      RunKeepsInv(Step(s, actions[0], met).value, actions[1..], met);
    }
  }

  // ---------- safety over every run ----------

  /** No lost wakeup: a waiter parked with no unseen bump and no bump awaited has found its
  condition false on the grid it checked, and that is the current one exactly when no resize
  without a sender came after the check; such a resize takes a feeder that is gone. */
  lemma {:induction false} NoLostWakeup<G>(grid: G, actions: seq<Action<G>>, met: G -> bool)
    requires After(Start(grid), actions, met).Some?
    ensures var s := After(Start(grid), actions, met).value;
            s.waiter.Parked? && s.version == s.seen && !s.AwaitsBump() ==>
              s.checked < |s.grids| && !met(s.grids[s.checked]) && (s.checked == s.Last() <==> s.stray <= s.checked)
    ensures var s := After(Start(grid), actions, met).value;
            s.stray > 0 ==> s.feeder.Exited?
  {
    RunKeepsInv(Start(grid), actions, met);
  }

  /** A match is of the grid that was checked; the end is reported only after a check, found
  false, of the grid of the last bump or a later one; and the snapshot then shows the very grid
  that was checked, unless a resize without a sender came after the check. */
  lemma {:induction false} OutcomeIsSound<G>(grid: G, actions: seq<Action<G>>, met: G -> bool)
    requires After(Start(grid), actions, met).Some?
    ensures var s := After(Start(grid), actions, met).value;
            && (s.waiter.Matched? ==> s.checked < |s.grids| && met(s.grids[s.checked]))
            && (s.waiter.TimedOut? && s.waiter.ended ==>
                  s.bumped <= s.checked < |s.grids| && !met(s.grids[s.checked]) && s.Closed())
            && (s.waiter.TimedOut? && s.waiter.ended && s.stray <= s.checked && !s.resizer.Resized? ==>
                  s.waiter.shown == s.checked)
  {
    RunKeepsInv(Start(grid), actions, met);
  }

  /** The snapshot of a reported end is of the current grid, which is the one that was checked
  exactly when no resize without a sender came after the check. */
  lemma {:induction false} SnapshotIsCheckedExactly<G>(grid: G, actions: seq<Action<G>>, met: G -> bool)
    requires After(Start(grid), actions, met).Some?
    ensures var s := After(Start(grid), actions, met).value;
            s.waiter == Reporting(true) && s.resizer.Absent? ==>
              && Step(s, Snapshot, met) == Some(s.(waiter := TimedOut(true, s.Last())))
              && (s.Last() == s.checked <==> s.stray <= s.checked)
  {
    RunKeepsInv(Start(grid), actions, met);
  }

  /** A resize to `grid` after the feeder is gone, then the end of the wait. */
  function StrayResize<G>(grid: G): seq<Action<G>> {
    [FeederExit] + ([Resize(grid)] + ([Upgrade] + EndOfWait()))
  }

  function EndOfWait<G>(): seq<Action<G>> {
    [Unlock] + ([SeeClosed] + ([Snapshot] + []))
  }

  lemma {:induction false} EndIsReported<G>(s: State<G>, met: G -> bool)
    requires s.HasGrid() && s.waiter.Parked? && s.version == s.seen && s.feeder.Exited? && s.resizer.Finishing?
    ensures After(s, EndOfWait(), met) == Some(s.(resizer := Absent, waiter := TimedOut(true, s.Last())))
  {
    var free := s.(resizer := Absent);
    Ahead(s, Unlock, [SeeClosed] + ([Snapshot] + []), met);
    Ahead(free, SeeClosed, [Snapshot] + [], met);
    Ahead(free.(waiter := Reporting(true)), Snapshot, [], met);
  }

  lemma {:induction false} StrayIsUnbumped<G>(s: State<G>, grid: G, met: G -> bool)
    requires s.HasGrid() && s.feeder.Idle? && s.resizer.Absent?
    ensures After(s, StrayResize(grid), met) ==
            After(s.(feeder := Exited, grids := s.grids + [grid], resizer := Finishing, stray := |s.grids|),
                  EndOfWait(), met)
  {
    var resized := s.(feeder := Exited, grids := s.grids + [grid], resizer := Resized);
    Ahead(s, FeederExit, [Resize(grid)] + ([Upgrade] + EndOfWait()), met);
    Ahead(s.(feeder := Exited), Resize(grid), [Upgrade] + EndOfWait(), met);
    Ahead(resized, Upgrade, EndOfWait(), met);
  }

  /** The exception: a resize after the feeder is gone is never bumped, so a waiter can report the
  end with a snapshot on which its condition holds. */
  lemma {:induction false} StrayResizeIsMissed<G>(before: G, grid: G, met: G -> bool)
    requires !met(before) && met(grid)
    ensures var s := After(Start(before), [Mark] + ([Check] + StrayResize(grid)), met);
            s.Some? && s.value.waiter == TimedOut(true, s.value.Last()) && s.value.Grid() == grid
  {
    var marked := Start(before).(waiter := Marked);
    var parked := marked.(waiter := Parked);
    Ahead(Start(before), Mark, [Check] + StrayResize(grid), met);
    Ahead(marked, Check, StrayResize(grid), met);
    StrayIsUnbumped(parked, grid, met);
    EndIsReported(parked.(feeder := Exited, grids := [before] + [grid], resizer := Finishing, stray := 1), met);
  }

  lemma {:induction false} Ahead<G>(s: State<G>, a: Action<G>, more: seq<Action<G>>, met: G -> bool)
    requires s.HasGrid() && Step(s, a, met).Some?
    ensures After(s, [a] + more, met) == After(Step(s, a, met).value, more, met)
  {
    assert ([a] + more)[1..] == more;
  }

  // ---------- the writers fall silent ----------

  /** A step once nothing changes the grid any more, the deadline is far, and the feeder waits
  for a resize that has yet to find its sender. */
  predicate Quiet<G>(s: State<G>, a: Action<G>) {
    !a.Feed? && !a.Resize? && !a.Timeout? && !(a.FeederExit? && s.resizer.Resized?)
  }

  /** How many quiet steps are left at most. */
  function Left<G>(s: State<G>): (n: nat)
    ensures n <= 8
  {
    (match s.feeder case Fed => 2 case Idle => 1 case Exited => 0)
    + (match s.resizer case Resized => 3 case Upgraded => 2 case Finishing => 1 case Absent => 0)
    + (match s.waiter case Parked => 3 case AtTop => 2 case Marked => 1 case _ => 0)
  }

  /** A waiter parked with nothing unseen when no sender is left is never woken again. */
  predicate Forsaken<G>(s: State<G>) {
    s.waiter.Parked? && s.version == s.seen && s.Closed()
  }

  /** The waiter still waits, or has matched, and the condition holds on the current grid. */
  predicate Bound<G>(s: State<G>, met: G -> bool) {
    Inv(s, met) && met(s.Grid()) && (s.Waiting() || s.waiter.Matched?) && !Forsaken(s)
  }

  /** The waiter's next step, or the one it has to wait for. */
  function NextStep<G>(s: State<G>): Action<G> {
    match s.resizer
    case Resized => Upgrade
    case Upgraded => ResizeBump
    case Finishing => Unlock
    case Absent =>
      match s.waiter
      case AtTop => Mark
      case Marked => Check
      case _ => if s.version != s.seen then Wake else FeederBump
  }

  /** A waiter bound to match is never stuck. */
  lemma {:induction false} NeverStuck<G>(s: State<G>, met: G -> bool)
    requires Bound(s, met) && !s.waiter.Matched?
    ensures Quiet(s, NextStep(s)) && Step(s, NextStep(s), met).Some?
  {}

  lemma {:induction false} QuietStep<G>(s: State<G>, a: Action<G>, met: G -> bool)
    requires Bound(s, met) && Quiet(s, a) && Step(s, a, met).Some?
    ensures var next := Step(s, a, met).value;
            Bound(next, met) && Left(next) < Left(s)
  {
    StepKeepsBumps(s, a, met);
    StepKeepsChecks(s, a, met);
    StepKeepsEnd(s, a, met);
  }

  ghost predicate QuietRun<G>(s: State<G>, actions: seq<Action<G>>, met: G -> bool)
    requires s.HasGrid()
    decreases |actions|
  {
    actions == [] || (Quiet(s, actions[0]) && Step(s, actions[0], met).Some?
                      && QuietRun(Step(s, actions[0], met).value, actions[1..], met))
  }

  ghost predicate AtRest<G(!new)>(s: State<G>, met: G -> bool)
    requires s.HasGrid()
  {
    forall a :: Quiet(s, a) ==> Step(s, a, met).None?
  }

  /** Whatever the order of the remaining steps, a waiter whose condition holds on a grid that
  nothing changes any more matches within eight of them; it can neither hang nor report the end. */
  lemma {:induction false} WaiterMatches<G(!new)>(s: State<G>, actions: seq<Action<G>>, met: G -> bool)
    requires Bound(s, met) && QuietRun(s, actions, met)
    ensures |actions| <= Left(s) && After(s, actions, met).Some?
    ensures var end := After(s, actions, met).value;
            (end.Waiting() || end.waiter.Matched?) && (AtRest(end, met) ==> end.waiter.Matched?)
    decreases |actions|
  {
    if actions == [] {
      if !s.waiter.Matched? { NeverStuck(s, met); }
    } else {
      QuietStep(s, actions[0], met);
      WaiterMatches(Step(s, actions[0], met).value, actions[1..], met);
    }
  }

  predicate Missed<G>(s: State<G>) {
    Forsaken(s) || s.waiter.Reporting? || s.waiter.TimedOut?
  }

  lemma {:induction false} MissedStays<G>(s: State<G>, actions: seq<Action<G>>, met: G -> bool)
    requires s.HasGrid() && Missed(s) && QuietRun(s, actions, met)
    ensures After(s, actions, met).Some? && Missed(After(s, actions, met).value)
    decreases |actions|
  {
    if actions != [] {
      MissedStays(Step(s, actions[0], met).value, actions[1..], met);
    }
  }

  /** So once nothing changes a grid that meets the condition, a waiter comes to match exactly
  when it is not parked, with nothing unseen, after the last sender has gone. */
  lemma {:induction false} WaiterMatchesExactly<G(!new)>(
    grid: G, before: seq<Action<G>>, actions: seq<Action<G>>, met: G -> bool)
    requires After(Start(grid), before, met).Some?
    requires var s := After(Start(grid), before, met).value; s.Waiting() && met(s.Grid()) && QuietRun(s, actions, met)
    ensures var s := After(Start(grid), before, met).value;
            var end := After(s, actions, met);
            end.Some? && (AtRest(end.value, met) ==> (end.value.waiter.Matched? <==> !Forsaken(s)))
  {
    var s := After(Start(grid), before, met).value;
    RunKeepsInv(Start(grid), before, met);
    if Forsaken(s) {
      MissedStays(s, actions, met);
    } else {
      WaiterMatches(s, actions, met);
    }
  }
}
