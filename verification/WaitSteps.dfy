/** What a run of the terminal and its waiter records, and how a wait ends
(crates/codegen/ptyctl/src/session.rs, crates/codegen/ptyctl/src/wait.rs). */
module WaitSteps {
  import opened Wrappers
  import opened WaitProtocol

  // ---------- the record of a run ----------

  function Drawn<G>(a: Action<G>): seq<G> {
    match a
    case Feed(grid) => [grid]
    case Resize(grid) => [grid]
    case _ => []
  }

  /** The grids that a run draws, in order. */
  function DrawnBy<G>(actions: seq<Action<G>>): seq<G> {
    if actions == [] then [] else Drawn(actions[0]) + DrawnBy(actions[1..])
  }

  function Bumps<G>(actions: seq<Action<G>>): nat {
    if actions == [] then 0
    else (if actions[0].FeederBump? || actions[0].ResizeBump? then 1 else 0) + Bumps(actions[1..])
  }

  /** The grids of a run are those drawn, in order, and the version counts the bumps. */
  lemma {:induction false} RunRecords<G>(s: State<G>, actions: seq<Action<G>>, met: G -> bool)
    requires s.HasGrid() && After(s, actions, met).Some?
    ensures var end := After(s, actions, met).value;
            end.grids == s.grids + DrawnBy(actions) && end.version == s.version + Bumps(actions)
    decreases |actions|
  {
    if actions == [] {
      assert s.grids + [] == s.grids;
    } else {
      var next := Step(s, actions[0], met).value;
      RunRecords(next, actions[1..], met);
      assert next.grids == s.grids + Drawn(actions[0]);
      assert (s.grids + Drawn(actions[0])) + DrawnBy(actions[1..]) ==
             s.grids + (Drawn(actions[0]) + DrawnBy(actions[1..]));
    }
  }

  // ---------- how a wait ends ----------

  /** The wait has ended, or is about to, for want of time. */
  predicate OutOfTime<G>(s: State<G>) {
    match s.waiter case Reporting(ended) => !ended case TimedOut(ended, _) => !ended case _ => false
  }

  predicate AtEnd<G>(s: State<G>) {
    match s.waiter case Reporting(ended) => ended case TimedOut(ended, _) => ended case _ => false
  }

  lemma {:induction false} EndsBy<G>(s: State<G>, a: Action<G>, met: G -> bool)
    requires s.HasGrid() && Step(s, a, met).Some?
    ensures var next := Step(s, a, met).value;
            && (OutOfTime(next) <==> OutOfTime(s) || a == Timeout)
            && (AtEnd(next) <==> AtEnd(s) || a == SeeClosed)
            && (s.waiter.Matched? ==> next.waiter.Matched? && next.checked == s.checked)
            && (s.waiter.TimedOut? ==> next.waiter == s.waiter)
            && ((OutOfTime(s) || AtEnd(s)) ==> next.checked == s.checked)
  {}

  /** A wait ends for want of time exactly when it timed out, and at the end of the session exactly when it saw
  the channel closed; an end is final. */
  lemma {:induction false} EndsExactly<G>(s: State<G>, actions: seq<Action<G>>, met: G -> bool)
    requires s.HasGrid() && s.Waiting() && After(s, actions, met).Some?
    ensures var end := After(s, actions, met).value;
            && (OutOfTime(end) <==> Timeout in actions)
            && (AtEnd(end) <==> SeeClosed in actions)
  {
    EndsFrom(s, actions, met);
  }

  lemma {:induction false} EndsFrom<G>(s: State<G>, actions: seq<Action<G>>, met: G -> bool)
    requires s.HasGrid() && After(s, actions, met).Some?
    ensures var end := After(s, actions, met).value;
            && (OutOfTime(end) <==> OutOfTime(s) || Timeout in actions)
            && (AtEnd(end) <==> AtEnd(s) || SeeClosed in actions)
            && (s.waiter.Matched? ==> end.waiter.Matched? && end.checked == s.checked)
            && (s.waiter.TimedOut? ==> end.waiter == s.waiter)
    decreases |actions|
  {
    if actions != [] {
      EndsBy(s, actions[0], met);
      EndsFrom(Step(s, actions[0], met).value, actions[1..], met);
      assert actions == [actions[0]] + actions[1..];
    }
  }

  /** The steps with which a writer of the grid lets go of it. */
  function LetGo<G>(s: State<G>): seq<Action<G>> {
    match s.resizer
    case Resized => [Upgrade] + (if s.Closed() then [Unlock] else [ResizeBump] + [Unlock])
    case Upgraded => [ResizeBump] + [Unlock]
    case Finishing => [Unlock]
    case Absent => []
  }

  lemma {:induction false} LetsGo<G>(s: State<G>, met: G -> bool)
    requires s.HasGrid()
    ensures var r := After(s, LetGo(s), met);
            && r.Some? && r.value.resizer.Absent? && r.value.grids == s.grids && r.value.waiter == s.waiter
            && r.value.checked == s.checked && |LetGo(s)| <= 3
  {
    match s.resizer
    case Resized =>
      if s.Closed() {
        Ahead(s, Upgrade, [Unlock], met);
        Alone(Step(s, Upgrade, met).value, Unlock, met);
      } else {
        var t := Step(s, Upgrade, met).value;
        Ahead(s, Upgrade, [ResizeBump] + [Unlock], met);
        BumpAndUnlock(t, met);
      }
    case Upgraded => BumpAndUnlock(s, met);
    case Finishing => Alone(s, Unlock, met);
    case Absent =>
  }

  lemma {:induction false} Alone<G>(s: State<G>, a: Action<G>, met: G -> bool)
    requires s.HasGrid()
    ensures After(s, [a], met) == Step(s, a, met)
  {
    assert [a][1..] == [];
  }

  lemma {:induction false} BumpAndUnlock<G>(s: State<G>, met: G -> bool)
    requires s.HasGrid() && s.resizer.Upgraded?
    ensures var r := After(s, [ResizeBump] + [Unlock], met);
            && r.Some? && r.value.resizer.Absent? && r.value.grids == s.grids && r.value.waiter == s.waiter
            && r.value.checked == s.checked
  {
    var t := Step(s, ResizeBump, met).value;
    Ahead(s, ResizeBump, [Unlock], met);
    Alone(t, Unlock, met);
  }

  /** A parked waiter can time out whatever the others do, and reports the grid as it is then within four more
  steps, with the last check it made behind it. */
  lemma {:induction false} TimeoutReports<G>(grid: G, before: seq<Action<G>>, met: G -> bool)
    requires After(Start(grid), before, met).Some? && After(Start(grid), before, met).value.waiter.Parked?
    ensures var s := After(Start(grid), before, met).value;
            Step(s, Timeout, met) == Some(s.(waiter := Reporting(false)))
    ensures var s := After(Start(grid), before, met).value;
            var t := s.(waiter := Reporting(false));
            var r := After(t, LetGo(t) + [Snapshot], met);
            && r.Some? && r.value.waiter == TimedOut(false, s.Last()) && r.value.grids == s.grids
            && s.checked < |s.grids| && !met(s.grids[s.checked]) && |LetGo(t)| <= 3
  {
    var s := After(Start(grid), before, met).value;
    RunKeepsInv(Start(grid), before, met);
    var t := s.(waiter := Reporting(false));
    LetsGo(t, met);
    Behind(t, LetGo(t), Snapshot, met);
  }

  lemma {:induction false} Behind<G>(s: State<G>, actions: seq<Action<G>>, a: Action<G>, met: G -> bool)
    requires s.HasGrid() && After(s, actions, met).Some?
    ensures After(s, actions + [a], met) == Step(After(s, actions, met).value, a, met)
    decreases |actions|
  {
    if actions == [] {
      assert [] + [a] == [a] && [a][1..] == [];
    } else {
      assert (actions + [a])[0] == actions[0] && (actions + [a])[1..] == actions[1..] + [a];
      Behind(Step(s, actions[0], met).value, actions[1..], a, met);
    }
  }

  // ---------- who may go when ----------

  /** While a resize holds the session nobody else draws, checks or takes a snapshot; a waiter that parks has found
  its condition false, and only on an unseen version or a closed channel does it go on before its deadline. */
  lemma {:induction false} StepIsAllowed<G>(s: State<G>, a: Action<G>, met: G -> bool)
    requires s.HasGrid() && Step(s, a, met).Some?
    ensures a.Feed? || a.Resize? || a.Check? || a.Snapshot? ==> s.resizer.Absent?
    ensures a.Feed? || a.FeederBump? || a.FeederExit? ==> !s.feeder.Exited?
    ensures a.Wake? ==> s.waiter.Parked? && s.version != s.seen && Step(s, a, met).value.seen == s.version
    ensures a.SeeClosed? ==> s.waiter.Parked? && s.version == s.seen && s.feeder.Exited? && !s.resizer.Upgraded?
    ensures a.Check? ==> var next := Step(s, a, met).value;
                         next.checked == s.Last() && (next.waiter.Matched? <==> met(s.Grid()))
    ensures a.Snapshot? ==> var next := Step(s, a, met).value;
                            next.waiter.TimedOut? && next.waiter.shown == s.Last()
  {}

  /** No waiter wakes without a bump since it last marked the version as seen. */
  lemma {:induction false} WakesOnBump<G>(s: State<G>, actions: seq<Action<G>>, met: G -> bool)
    requires s.HasGrid() && s.waiter.AtTop? && After(s, [Mark] + actions, met).Some?
    requires Bumps(actions) == 0
    ensures Wake !in actions && Step(After(s, [Mark] + actions, met).value, Wake, met).None?
  {
    Ahead(s, Mark, actions, met);
    StaysSeen(Step(s, Mark, met).value, actions, met);
  }

  lemma {:induction false} StaysSeen<G>(s: State<G>, actions: seq<Action<G>>, met: G -> bool)
    requires s.HasGrid() && s.version == s.seen && After(s, actions, met).Some? && Bumps(actions) == 0
    ensures var end := After(s, actions, met).value;
            end.version == end.seen && Wake !in actions
    decreases |actions|
  {
    if actions != [] {
      StaysSeen(Step(s, actions[0], met).value, actions[1..], met);
      assert actions == [actions[0]] + actions[1..];
    }
  }
}
