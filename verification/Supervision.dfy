/**
 Any number of supervised sources, each in a task of its own, and any interleaving of them.

 A task looks at the flag, runs its source, and when that crashes sleeps and looks again. Between two
 of its actions any other task may act, and the supervisor may be stopped or run again.
 */
module Supervision {
  import opened Common
  import opened Backoff

  datatype Limits = Limits(minBackoff: real, maxBackoff: real)

  datatype Phase = AtHead | Running | Asleep | Done

  datatype Task = Task(phase: Phase, backoff: real)

  datatype Step =
    | Look                     // look at the flag: start the source's run, or end
    | Crash(jitter: real)      // the run raises
    | Wake                     // the sleep is over
    | Return                   // the run returns

  datatype Action =
    | On(i: nat, step: Step)           // task i takes a step
    | Stop
    | RunAll(sources: nat)             // the supervisor's run: the flag is cleared, one task per source

  datatype Observation =
    | Started(i: nat)
    | Crashed(i: nat, base: real, delay: real)
    | Woke(i: nat)
    | Returned(i: nat)
    | Stopped
    | Launched

  datatype System = System(stopping: bool, tasks: seq<Task>, trace: seq<Observation>)

  const IDLE := System(false, [], [])

  function FreshTasks(lim: Limits, n: nat): seq<Task> {
    if n == 0 then [] else [Task(AtHead, lim.minBackoff)] + FreshTasks(lim, n - 1)
  }

  /** A step the task is not ready for changes nothing. */
  function TaskStep(lim: Limits, stopping: bool, i: nat, t: Task, step: Step): (Task, seq<Observation>) {
    match step
    case Look =>
      if t.phase != AtHead then (t, [])
      else if stopping then (t.(phase := Done), [])
      else (t.(phase := Running), [Started(i)])
    case Crash(jitter) =>
      if t.phase != Running then (t, []) else (t.(phase := Asleep), [Crashed(i, t.backoff, Delay(t.backoff, jitter))])
    case Wake =>
      if t.phase != Asleep then (t, []) else (Task(AtHead, Next(t.backoff, lim.maxBackoff)), [Woke(i)])
    case Return =>
      if t.phase != Running then (t, [])
      else if stopping then (t.(phase := Done), [Returned(i)])
      else (Task(AtHead, lim.minBackoff), [Returned(i)])
  }

  function Act(lim: Limits, s: System, a: Action): System {
    match a
    case Stop => s.(stopping := true, trace := s.trace + [Stopped])
    case RunAll(n) => System(false, s.tasks + FreshTasks(lim, n), s.trace + [Launched])
    case On(i, step) =>
      if i >= |s.tasks| then s
      else
        var (t, seen) := TaskStep(lim, s.stopping, i, s.tasks[i], step);
        s.(tasks := s.tasks[i := t], trace := s.trace + seen)
  }

  function Exec(lim: Limits, run: seq<Action>): System {
    if run == [] then IDLE else Act(lim, Exec(lim, run[..|run| - 1]), run[|run| - 1])
  }

  predicate OfTask(o: Observation, i: nat) {
    !o.Stopped? && !o.Launched? && o.i == i
  }

  /** What was seen of one task. */
  function Mine(trace: seq<Observation>, i: nat): seq<Observation> {
    if trace == [] then []
    else
      var o := trace[|trace| - 1];
      Mine(trace[..|trace| - 1], i) + (if OfTask(o, i) then [o] else [])
  }

  lemma {:induction false} MineAppend(a: seq<Observation>, b: seq<Observation>, i: nat)
    ensures Mine(a + b, i) == Mine(a, i) + Mine(b, i)
    decreases |b|
  {
    if b == [] {
      assert a + b == a;
    } else {
      assert (a + b)[..|a + b| - 1] == a + b[..|b| - 1];
      MineAppend(a, b[..|b| - 1], i);
    }
  }

  lemma MineOne(o: Observation, i: nat)
    ensures Mine([o], i) == if OfTask(o, i) then [o] else []
  {
    assert [o][..0] == [];
  }

  // ---- One task does not disturb another ----

  predicate Concerns(a: Action, i: nat) {
    a.On? ==> a.i == i
  }

  /** The actions of one task, with those of the supervisor. */
  function Project(run: seq<Action>, i: nat): seq<Action> {
    if run == [] then []
    else
      var a := run[|run| - 1];
      Project(run[..|run| - 1], i) + (if Concerns(a, i) then [a] else [])
  }

  lemma ExecSnoc(lim: Limits, run: seq<Action>, a: Action)
    ensures Exec(lim, run + [a]) == Act(lim, Exec(lim, run), a)
  {
    assert (run + [a])[..|run|] == run;
  }

  /** What task `i` and the flag are, as far as the system has them. */
  ghost predicate SameFor(s: System, s': System, i: nat) {
    && s.stopping == s'.stopping && |s.tasks| == |s'.tasks|
    && (i < |s.tasks| ==> s.tasks[i] == s'.tasks[i])
    && Mine(s.trace, i) == Mine(s'.trace, i)
  }

  lemma ActSame(lim: Limits, s: System, s': System, a: Action, i: nat)
    requires SameFor(s, s', i) && Concerns(a, i)
    ensures SameFor(Act(lim, s, a), Act(lim, s', a), i)
  {
    FreshTasksAre(lim, if a.RunAll? then a.sources else 0);
    ActSeen(lim, s, a, i);
    ActSeen(lim, s', a, i);
  }

  /** Removing every action of the other tasks, however they crashed, changes nothing for a task: its
      phase, its backoff and all that was seen of it are the same. */
  lemma {:induction false} OthersDoNotMatter(lim: Limits, run: seq<Action>, i: nat)
    ensures SameFor(Exec(lim, run), Exec(lim, Project(run, i)), i)
  {
    if run != [] {
      var before, a := run[..|run| - 1], run[|run| - 1];
      OthersDoNotMatter(lim, before, i);
      if Concerns(a, i) {
        ExecSnoc(lim, Project(before, i), a);
        ActSame(lim, Exec(lim, before), Exec(lim, Project(before, i)), a, i);
      } else {
        ActSeen(lim, Exec(lim, before), a, i);
        assert Project(run, i) == Project(before, i);
      }
    }
  }

  /** What one action adds to the trace. */
  function Seen(lim: Limits, s: System, a: Action): seq<Observation> {
    match a
    case Stop => [Stopped]
    case RunAll(_) => [Launched]
    case On(i, step) => if i >= |s.tasks| then [] else TaskStep(lim, s.stopping, i, s.tasks[i], step).1
  }

  lemma ActSeen(lim: Limits, s: System, a: Action, i: nat)
    ensures Act(lim, s, a).trace == s.trace + Seen(lim, s, a)
    ensures Mine(Act(lim, s, a).trace, i) == Mine(s.trace, i) + (if a.On? && a.i == i then Seen(lim, s, a) else [])
  {
    var seen := Seen(lim, s, a);
    MineAppend(s.trace, seen, i);
    if seen != [] {
      MineOne(seen[0], i);
      assert seen == [seen[0]];
    }
  }

  // ---- Stopping ----

  /** The flag is set and no run started since the trace was `seen`. */
  ghost predicate QuietSince(seen: seq<Observation>, s: System) {
    && s.stopping && seen <= s.trace
    && forall k | |seen| <= k < |s.trace| :: !s.trace[k].Started?
  }

  lemma QuietStep(lim: Limits, seen: seq<Observation>, s: System, a: Action)
    requires QuietSince(seen, s) && !a.RunAll?
    ensures QuietSince(seen, Act(lim, s, a))
  {
    ActSeen(lim, s, a, 0);
    QuietAppend(seen, s.trace, Seen(lim, s, a));
  }

  lemma QuietAppend(seen: seq<Observation>, trace: seq<Observation>, more: seq<Observation>)
    requires seen <= trace && forall k | |seen| <= k < |trace| :: !trace[k].Started?
    requires forall k | 0 <= k < |more| :: !more[k].Started?
    ensures seen <= trace + more && forall k | |seen| <= k < |trace + more| :: !(trace + more)[k].Started?
  {
  }

  /** Once the flag is set, no source's run starts until the supervisor is run again. */
  lemma {:induction false} NoStartAfterStop(lim: Limits, before: seq<Action>, after: seq<Action>)
    requires forall k | 0 <= k < |after| :: !after[k].RunAll?
    ensures QuietSince(Exec(lim, before + [Stop]).trace, Exec(lim, before + [Stop] + after))
    decreases |after|
  {
    var stopped := before + [Stop];
    if after == [] {
      assert stopped + after == stopped;
      ExecSnoc(lim, before, Stop);
    } else {
      var front, a := after[..|after| - 1], after[|after| - 1];
      assert stopped + after == (stopped + front) + [a];
      NoStartAfterStop(lim, before, front);
      ExecSnoc(lim, stopped + front, a);
      QuietStep(lim, Exec(lim, stopped).trace, Exec(lim, stopped + front), a);
    }
  }

  // ---- Restarts ----

  /** How many crashes a task had since its source's run last returned. */
  function Crashes(mine: seq<Observation>): nat {
    if mine == [] then 0
    else
      var o := mine[|mine| - 1];
      if o.Returned? then 0 else Crashes(mine[..|mine| - 1]) + (if o.Crashed? then 1 else 0)
  }

  /** A task's own trace: a start comes first, after a normal return, or after a sleep; a sleep comes
      after a crash and lasts the base to 1.25 times the base, which is the capped power of two for
      the crashes so far. */
  ghost predicate LawfulTask(lim: Limits, mine: seq<Observation>) {
    forall k {:trigger mine[k]} | 0 <= k < |mine| ::
      match mine[k]
      case Started(_) => k == 0 || mine[k - 1].Returned? || mine[k - 1].Woke?
      case Crashed(_, base, delay) =>
        && k > 0 && mine[k - 1].Started?
        && base == Base(lim.minBackoff, lim.maxBackoff, Crashes(mine[..k]))
        && Jittered(base, delay)
      case Woke(_) => k > 0 && mine[k - 1].Crashed?
      case Returned(_) => k > 0 && mine[k - 1].Started?
      case _ => false
  }

  /** How a task's state goes with what was last seen of it. */
  ghost predicate Matches(lim: Limits, t: Task, mine: seq<Observation>) {
    && (t.phase == AtHead ==> mine == [] || mine[|mine| - 1].Woke? || mine[|mine| - 1].Returned?)
    && (t.phase == Running ==> mine != [] && mine[|mine| - 1].Started?)
    && (t.phase == Asleep ==> mine != [] && mine[|mine| - 1].Crashed?)
    && (t.phase == AtHead || t.phase == Running ==> t.backoff == Base(lim.minBackoff, lim.maxBackoff, Crashes(mine)))
    && (t.phase == Asleep ==> Next(t.backoff, lim.maxBackoff) == Base(lim.minBackoff, lim.maxBackoff, Crashes(mine)))
  }

  ghost predicate FairJitter(run: seq<Action>) {
    forall k | 0 <= k < |run| && run[k].On? && run[k].step.Crash? :: 0.0 <= run[k].step.jitter <= 1.0
  }

  lemma {:induction false} FreshTasksAre(lim: Limits, n: nat)
    ensures |FreshTasks(lim, n)| == n && forall k | 0 <= k < n :: FreshTasks(lim, n)[k] == Task(AtHead, lim.minBackoff)
  {
    if n > 0 {
      FreshTasksAre(lim, n - 1);
    }
  }

  /** In every interleaving, with sources crashing whenever they like, each task restarts its source
      only as it should: see `LawfulTask`. */
  lemma {:induction false} EveryTaskIsLawful(lim: Limits, run: seq<Action>, i: nat)
    requires 0.0 <= lim.minBackoff && 0.0 <= lim.maxBackoff && FairJitter(run)
    ensures var s := Exec(lim, run); var mine := Mine(s.trace, i);
      LawfulTask(lim, mine) && (if i < |s.tasks| then Matches(lim, s.tasks[i], mine) else mine == [])
  {
    if run != [] {
      var before, a := run[..|run| - 1], run[|run| - 1];
      EveryTaskIsLawful(lim, before, i);
      ActKeepsTask(lim, Exec(lim, before), a, i);
    }
  }

  lemma ActKeepsTask(lim: Limits, s: System, a: Action, i: nat)
    requires 0.0 <= lim.minBackoff && 0.0 <= lim.maxBackoff && (a.On? && a.step.Crash? ==> 0.0 <= a.step.jitter <= 1.0)
    requires LawfulTask(lim, Mine(s.trace, i))
    requires if i < |s.tasks| then Matches(lim, s.tasks[i], Mine(s.trace, i)) else Mine(s.trace, i) == []
    ensures var s' := Act(lim, s, a); var mine := Mine(s'.trace, i);
      LawfulTask(lim, mine) && (if i < |s'.tasks| then Matches(lim, s'.tasks[i], mine) else mine == [])
  {
    ActSeen(lim, s, a, i);
    var mine := Mine(s.trace, i);
    if a.On? && a.i == i && i < |s.tasks| {
      StepKeepsTask(lim, s.stopping, i, s.tasks[i], a.step, mine);
    } else {
      FreshTasksAre(lim, if a.RunAll? then a.sources else 0);
      assert Mine(Act(lim, s, a).trace, i) == mine;
    }
  }

  lemma StepKeepsTask(lim: Limits, stopping: bool, i: nat, t: Task, step: Step, mine: seq<Observation>)
    requires 0.0 <= lim.minBackoff && 0.0 <= lim.maxBackoff && (step.Crash? ==> 0.0 <= step.jitter <= 1.0)
    requires LawfulTask(lim, mine) && Matches(lim, t, mine)
    ensures var (t', seen) := TaskStep(lim, stopping, i, t, step);
      LawfulTask(lim, mine + seen) && Matches(lim, t', mine + seen)
  {
    var (t', seen) := TaskStep(lim, stopping, i, t, step);
    if seen == [] {
      assert mine + seen == mine;
    } else {
      match step
      case Look => LookKeepsTask(lim, i, t, mine);
      case Crash(jitter) => CrashKeepsTask(lim, i, t, jitter, mine);
      case Wake => WakeKeepsTask(lim, i, t, mine);
      case Return => ReturnKeepsTask(lim, stopping, i, t, mine);
    }
  }

  lemma LookKeepsTask(lim: Limits, i: nat, t: Task, mine: seq<Observation>)
    requires LawfulTask(lim, mine) && Matches(lim, t, mine) && t.phase == AtHead
    ensures LawfulTask(lim, mine + [Started(i)]) && Matches(lim, t.(phase := Running), mine + [Started(i)])
  {
    LawfulSnoc(lim, mine, Started(i));
  }

  lemma CrashKeepsTask(lim: Limits, i: nat, t: Task, jitter: real, mine: seq<Observation>)
    requires 0.0 <= lim.minBackoff && 0.0 <= lim.maxBackoff && 0.0 <= jitter <= 1.0
    requires LawfulTask(lim, mine) && Matches(lim, t, mine) && t.phase == Running
    ensures var crashed := Crashed(i, t.backoff, Delay(t.backoff, jitter));
      LawfulTask(lim, mine + [crashed]) && Matches(lim, t.(phase := Asleep), mine + [crashed])
  {
    BaseNonNegative(lim.minBackoff, lim.maxBackoff, Crashes(mine));
    DelayIsJittered(t.backoff, jitter);
    LawfulSnoc(lim, mine, Crashed(i, t.backoff, Delay(t.backoff, jitter)));
  }

  lemma WakeKeepsTask(lim: Limits, i: nat, t: Task, mine: seq<Observation>)
    requires LawfulTask(lim, mine) && Matches(lim, t, mine) && t.phase == Asleep
    ensures LawfulTask(lim, mine + [Woke(i)])
      && Matches(lim, Task(AtHead, Next(t.backoff, lim.maxBackoff)), mine + [Woke(i)])
  {
    LawfulSnoc(lim, mine, Woke(i));
  }

  lemma ReturnKeepsTask(lim: Limits, stopping: bool, i: nat, t: Task, mine: seq<Observation>)
    requires LawfulTask(lim, mine) && Matches(lim, t, mine) && t.phase == Running
    ensures LawfulTask(lim, mine + [Returned(i)])
    ensures Matches(lim, if stopping then t.(phase := Done) else Task(AtHead, lim.minBackoff), mine + [Returned(i)])
  {
    LawfulSnoc(lim, mine, Returned(i));
  }

  lemma LawfulSnoc(lim: Limits, mine: seq<Observation>, o: Observation)
    requires LawfulTask(lim, mine)
    requires match o
      case Started(_) => mine == [] || mine[|mine| - 1].Returned? || mine[|mine| - 1].Woke?
      case Crashed(_, base, delay) => mine != [] && mine[|mine| - 1].Started?
        && base == Base(lim.minBackoff, lim.maxBackoff, Crashes(mine)) && Jittered(base, delay)
      case Woke(_) => mine != [] && mine[|mine| - 1].Crashed?
      case Returned(_) => mine != [] && mine[|mine| - 1].Started?
      case _ => false
    ensures LawfulTask(lim, mine + [o])
    ensures Crashes(mine + [o]) == if o.Returned? then 0 else Crashes(mine) + (if o.Crashed? then 1 else 0)
  {
    var all := mine + [o];
    assert all[..|mine|] == mine;
    assert forall k | 0 <= k < |mine| :: all[k] == mine[k] && all[..k] == mine[..k];
  }

  // ---- Going on ----

  lemma StepSeen(lim: Limits, run: seq<Action>, i: nat, step: Step)
    requires i < |Exec(lim, run).tasks|
    ensures var s, s' := Exec(lim, run), Exec(lim, run + [On(i, step)]);
      var (t, seen) := TaskStep(lim, s.stopping, i, s.tasks[i], step);
      && i < |s'.tasks| && s'.tasks[i] == t && s'.stopping == s.stopping
      && Mine(s'.trace, i) == Mine(s.trace, i) + seen
  {
    ExecSnoc(lim, run, On(i, step));
    ActSeen(lim, Exec(lim, run), On(i, step), i);
  }

  /** What a task that looks at the flag adds to its trace: the start of its source, unless it is set. */
  function StartUnless(stopping: bool, i: nat): seq<Observation> {
    if stopping then [] else [Started(i)]
  }

  /** A task that has just begun starts its source, unless the flag is set. */
  lemma FreshTaskStarts(lim: Limits, run: seq<Action>, i: nat)
    requires i < |Exec(lim, run).tasks| && Exec(lim, run).tasks[i].phase == AtHead
    ensures Mine(Exec(lim, run + [On(i, Look)]).trace, i)
      == Mine(Exec(lim, run).trace, i) + StartUnless(Exec(lim, run).stopping, i)
  {
    StepSeen(lim, run, i, Look);
  }

  /** A source whose run returned is started again at once, unless the flag is set. */
  lemma ReturnedSourceRestarts(lim: Limits, run: seq<Action>, i: nat)
    requires i < |Exec(lim, run).tasks| && Exec(lim, run).tasks[i].phase == Running
    ensures Mine(Exec(lim, run + [On(i, Return)] + [On(i, Look)]).trace, i)
      == Mine(Exec(lim, run).trace, i) + [Returned(i)] + StartUnless(Exec(lim, run).stopping, i)
  {
    StepSeen(lim, run, i, Return);
    StepSeen(lim, run + [On(i, Return)], i, Look);
  }

  /** A source whose run crashed is started again after a sleep, unless the flag is set. */
  lemma CrashedSourceRestarts(lim: Limits, run: seq<Action>, i: nat, jitter: real)
    requires i < |Exec(lim, run).tasks| && Exec(lim, run).tasks[i].phase == Running
    ensures var base := Exec(lim, run).tasks[i].backoff;
      Mine(Exec(lim, run + [On(i, Crash(jitter))] + [On(i, Wake)] + [On(i, Look)]).trace, i)
      == Mine(Exec(lim, run).trace, i) + [Crashed(i, base, Delay(base, jitter))] + [Woke(i)]
         + StartUnless(Exec(lim, run).stopping, i)
  {
    var crashed := run + [On(i, Crash(jitter))];
    StepSeen(lim, run, i, Crash(jitter));
    StepSeen(lim, crashed, i, Wake);
    FreshTaskStarts(lim, crashed + [On(i, Wake)], i);
  }
}
