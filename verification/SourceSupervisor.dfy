/** The supervisor: its flag, its sources, and the loop each of its tasks runs. */
module SourceSupervisors {
  import opened Common
  import opened Backoff
  import opened Supervision

  /**
   One turn of a task's loop: the source's run crashes or returns. While the run goes on, and while the
   task sleeps, anything may happen elsewhere: other tasks act, and the supervisor is stopped or run
   again, any number of times. At no other point of the loop is anything awaited.
   */
  datatype Turn =
    | Crashes(during: seq<Action>, jitter: real, asleep: seq<Action>)
    | Returns(during: seq<Action>)

  predicate Foreign(a: Action, i: nat) {
    a.On? ==> a.i != i
  }

  predicate AllForeign(actions: seq<Action>, i: nat) {
    forall k | 0 <= k < |actions| :: Foreign(actions[k], i)
  }

  predicate FairTurn(t: Turn, i: nat) {
    AllForeign(t.during, i) && (t.Crashes? ==> AllForeign(t.asleep, i))
  }

  predicate FairTurns(turns: seq<Turn>, i: nat) {
    forall k | 0 <= k < |turns| :: FairTurn(turns[k], i)
  }

  function ActAll(lim: Limits, s: System, actions: seq<Action>): System {
    if actions == [] then s else Act(lim, ActAll(lim, s, actions[..|actions| - 1]), actions[|actions| - 1])
  }

  /** The flag after some actions: stopping sets it and running the supervisor clears it. */
  function FlagAfter(stopping: bool, actions: seq<Action>): bool {
    if actions == [] then stopping
    else
      match actions[|actions| - 1]
      case Stop => true
      case RunAll(_) => false
      case On(_, _) => FlagAfter(stopping, actions[..|actions| - 1])
  }

  /** The actions of the interleaved system that one turn of task `i` stands for. */
  function TurnActions(lim: Limits, s: System, i: nat, turn: Turn): System {
    var during := ActAll(lim, Act(lim, s, On(i, Look)), turn.during);
    match turn
    case Crashes(_, jitter, asleep) =>
      var crashed := Act(lim, during, On(i, Crash(jitter)));
      Act(lim, ActAll(lim, crashed, asleep), On(i, Wake))
    case Returns(_) => Act(lim, during, On(i, Return))
  }

  /** The turns of task `i` in the interleaved system, for as long as the flag is not set when the task
      looks at it. */
  function TurnsActions(lim: Limits, s: System, i: nat, turns: seq<Turn>): System {
    if turns == [] then s
    else
      var before := TurnsActions(lim, s, i, turns[..|turns| - 1]);
      if before.stopping then before else TurnActions(lim, before, i, turns[|turns| - 1])
  }

  /** One turn as the task's loop performs it. */
  function TurnTrace(lim: Limits, i: nat, backoff: real, turn: Turn): seq<Observation> {
    match turn
    case Crashes(_, jitter, _) => [Started(i), Crashed(i, backoff, Delay(backoff, jitter)), Woke(i)]
    case Returns(_) => [Started(i), Returned(i)]
  }

  /** The state of a task's loop, and what was seen of it. */
  datatype Loop = Loop(task: Task, stopping: bool, trace: seq<Observation>)

  function TurnOf(lim: Limits, i: nat, l: Loop, turn: Turn): Loop {
    var trace := l.trace + TurnTrace(lim, i, l.task.backoff, turn);
    var stopping := FlagAfter(l.stopping, turn.during);
    match turn
    case Crashes(_, _, asleep) =>
      Loop(Task(AtHead, Next(l.task.backoff, lim.maxBackoff)), FlagAfter(stopping, asleep), trace)
    case Returns(_) =>
      Loop(if stopping then l.task.(phase := Done) else Task(AtHead, lim.minBackoff), stopping, trace)
  }

  /** The loop of task `i` after the given turns; it takes no turn once it finds the flag set. */
  function LoopAfter(lim: Limits, i: nat, stopping: bool, turns: seq<Turn>): Loop {
    if turns == [] then Loop(Task(AtHead, lim.minBackoff), stopping, [])
    else
      var before := LoopAfter(lim, i, stopping, turns[..|turns| - 1]);
      if before.stopping then before else TurnOf(lim, i, before, turns[|turns| - 1])
  }

  lemma {:induction false} LoopRunsOnlyAtHead(lim: Limits, i: nat, stopping: bool, turns: seq<Turn>)
    ensures var l := LoopAfter(lim, i, stopping, turns); !l.stopping ==> l.task.phase == AtHead
  {
    if turns != [] {
      LoopRunsOnlyAtHead(lim, i, stopping, turns[..|turns| - 1]);
    }
  }

  /** Task `i` is as given, and so is what was seen of it. */
  ghost predicate Has(s: System, i: nat, t: Task, stopping: bool, mine: seq<Observation>) {
    i < |s.tasks| && s.tasks[i] == t && s.stopping == stopping && Mine(s.trace, i) == mine
  }

  lemma StepHas(lim: Limits, s: System, i: nat, t: Task, stopping: bool, mine: seq<Observation>, step: Step)
    requires Has(s, i, t, stopping, mine)
    ensures var (t', seen) := TaskStep(lim, stopping, i, t, step);
      Has(Act(lim, s, On(i, step)), i, t', stopping, mine + seen)
  {
    ActSeen(lim, s, On(i, step), i);
  }

  lemma {:induction false} ForeignHas(lim: Limits, s: System, i: nat, t: Task, stopping: bool, mine: seq<Observation>,
                                      actions: seq<Action>)
    requires Has(s, i, t, stopping, mine) && AllForeign(actions, i)
    ensures Has(ActAll(lim, s, actions), i, t, FlagAfter(stopping, actions), mine)
  {
    if actions != [] {
      var front, a := actions[..|actions| - 1], actions[|actions| - 1];
      ForeignHas(lim, s, i, t, stopping, mine, front);
      assert Foreign(a, i);
      ActSeen(lim, ActAll(lim, s, front), a, i);
    }
  }

  /** The task starts its source's run, and other things happen. */
  lemma StartsAndRuns(lim: Limits, s: System, i: nat, backoff: real, mine: seq<Observation>, during: seq<Action>)
    requires AllForeign(during, i) && Has(s, i, Task(AtHead, backoff), false, mine)
    ensures Has(ActAll(lim, Act(lim, s, On(i, Look)), during), i, Task(Running, backoff), FlagAfter(false, during),
                mine + [Started(i)])
  {
    StepHas(lim, s, i, Task(AtHead, backoff), false, mine, Look);
    ForeignHas(lim, Act(lim, s, On(i, Look)), i, Task(Running, backoff), false, mine + [Started(i)], during);
  }

  /** The run crashes, and other things happen while the task sleeps. */
  lemma CrashesAndSleeps(lim: Limits, s: System, i: nat, backoff: real, flag: bool, mine: seq<Observation>,
                         jitter: real, asleep: seq<Action>)
    requires AllForeign(asleep, i) && Has(s, i, Task(Running, backoff), flag, mine)
    ensures Has(ActAll(lim, Act(lim, s, On(i, Crash(jitter))), asleep), i, Task(Asleep, backoff),
                FlagAfter(flag, asleep), mine + [Crashed(i, backoff, Delay(backoff, jitter))])
  {
    var crashed := Crashed(i, backoff, Delay(backoff, jitter));
    StepHas(lim, s, i, Task(Running, backoff), flag, mine, Crash(jitter));
    ForeignHas(lim, Act(lim, s, On(i, Crash(jitter))), i, Task(Asleep, backoff), flag, mine + [crashed], asleep);
  }

  lemma CrashTurn(lim: Limits, s: System, i: nat, backoff: real, mine: seq<Observation>, turn: Turn)
    requires turn.Crashes? && FairTurn(turn, i) && Has(s, i, Task(AtHead, backoff), false, mine)
    ensures Has(TurnActions(lim, s, i, turn), i, Task(AtHead, Next(backoff, lim.maxBackoff)),
                FlagAfter(FlagAfter(false, turn.during), turn.asleep), mine + TurnTrace(lim, i, backoff, turn))
  {
    var crashed := Crashed(i, backoff, Delay(backoff, turn.jitter));
    var flag, started := FlagAfter(false, turn.during), mine + [Started(i)];
    StartsAndRuns(lim, s, i, backoff, mine, turn.during);
    var s1 := ActAll(lim, Act(lim, s, On(i, Look)), turn.during);
    CrashesAndSleeps(lim, s1, i, backoff, flag, started, turn.jitter, turn.asleep);
    var s2 := ActAll(lim, Act(lim, s1, On(i, Crash(turn.jitter))), turn.asleep);
    StepHas(lim, s2, i, Task(Asleep, backoff), FlagAfter(flag, turn.asleep), started + [crashed], Wake);
    ThreeMore(mine, Started(i), crashed, Woke(i));
  }

  lemma ThreeMore<T>(mine: seq<T>, a: T, b: T, c: T)
    ensures mine + [a] + [b] + [c] == mine + [a, b, c]
  {
  }

  lemma ReturnTurn(lim: Limits, s: System, i: nat, backoff: real, mine: seq<Observation>, turn: Turn)
    requires turn.Returns? && FairTurn(turn, i) && Has(s, i, Task(AtHead, backoff), false, mine)
    ensures var flag := FlagAfter(false, turn.during);
      Has(TurnActions(lim, s, i, turn), i, if flag then Task(Done, backoff) else Task(AtHead, lim.minBackoff), flag,
          mine + TurnTrace(lim, i, backoff, turn))
  {
    StartsAndRuns(lim, s, i, backoff, mine, turn.during);
    StepHas(lim, ActAll(lim, Act(lim, s, On(i, Look)), turn.during), i, Task(Running, backoff),
            FlagAfter(false, turn.during), mine + [Started(i)], Return);
    assert mine + [Started(i)] + [Returned(i)] == mine + [Started(i), Returned(i)];
  }

  /** What the loop of a task does is what the task's actions do in the interleaved system, whatever
      else that system contains and whatever happens there meanwhile. */
  lemma {:induction false} LoopIsActions(lim: Limits, s: System, i: nat, turns: seq<Turn>)
    requires i < |s.tasks| && s.tasks[i] == Task(AtHead, lim.minBackoff) && FairTurns(turns, i)
    ensures var l := LoopAfter(lim, i, s.stopping, turns);
      Has(TurnsActions(lim, s, i, turns), i, l.task, l.stopping, Mine(s.trace, i) + l.trace)
  {
    var mine := Mine(s.trace, i);
    if turns == [] {
      assert mine + [] == mine;
    } else {
      var front, turn := turns[..|turns| - 1], turns[|turns| - 1];
      LoopIsActions(lim, s, i, front);
      var l, before := LoopAfter(lim, i, s.stopping, front), TurnsActions(lim, s, i, front);
      if !l.stopping {
        LoopRunsOnlyAtHead(lim, i, s.stopping, front);
        TurnIsActions(lim, before, i, l, turn, mine);
      }
    }
  }

  lemma TurnIsActions(lim: Limits, s: System, i: nat, l: Loop, turn: Turn, mine: seq<Observation>)
    requires l.task.phase == AtHead && !l.stopping && Has(s, i, l.task, false, mine + l.trace) && FairTurn(turn, i)
    ensures var l' := TurnOf(lim, i, l, turn);
      Has(TurnActions(lim, s, i, turn), i, l'.task, l'.stopping, mine + l'.trace)
  {
    match turn
    case Crashes(_, _, _) => CrashTurn(lim, s, i, l.task.backoff, mine + l.trace, turn);
    case Returns(_) => ReturnTurn(lim, s, i, l.task.backoff, mine + l.trace, turn);
    SeenMore(mine, l.trace, TurnTrace(lim, i, l.task.backoff, turn));
  }

  lemma SeenMore(mine: seq<Observation>, trace: seq<Observation>, turn: seq<Observation>)
    ensures (mine + trace) + turn == mine + (trace + turn)
  {
  }

  class SourceSupervisor {
    const limits: Limits
    var sources: nat
    var stopping: bool
    /** The tasks of all runs so far, as they were started. */
    ghost var started: seq<Task>

    constructor (limits: Limits)
      ensures this.limits == limits && sources == 0 && !stopping && started == []
    {
      this.limits, sources, stopping := limits, 0, false;
      started := [];
    }

    method Add()
      modifies this`sources
      ensures sources == old(sources) + 1
    {
      sources := sources + 1;
    }

    method Stop()
      modifies this`stopping
      ensures stopping
    {
      stopping := true;
    }

    /** Clear the flag and start one task for each source there is. */
    method Run() returns (tasks: seq<Task>)
      modifies this`stopping, this`started
      ensures !stopping && tasks == FreshTasks(limits, sources) && started == old(started) + tasks
      ensures forall s: System | s.tasks == old(started) ::
          Act(limits, s, RunAll(sources)).tasks == started && Act(limits, s, RunAll(sources)).stopping == stopping
    {
      stopping := false;
      tasks := [];
      var n := 0;
      while n < sources
        invariant 0 <= n <= sources && tasks == FreshTasks(limits, n)
      {
        tasks := [Task(AtHead, limits.minBackoff)] + tasks;
        n := n + 1;
      }
      started := started + tasks;
    }

    /** What is done to the flag elsewhere while this task waits. */
    method Meanwhile(actions: seq<Action>)
      modifies this`stopping
      ensures stopping == FlagAfter(old(stopping), actions)
    {
      var k := 0;
      while k < |actions|
        invariant 0 <= k <= |actions| && stopping == FlagAfter(old(stopping), actions[..k])
      {
        assert actions[..k + 1][..k] == actions[..k];
        match actions[k] {
          case Stop => stopping := true;
          case RunAll(_) => stopping := false;
          case On(_, _) =>
        }
        k := k + 1;
      }
      assert actions[..k] == actions;
    }

    /** The loop of one task, here for as long as the script goes on. */
    method Supervise(i: nat, script: seq<Turn>) returns (trace: seq<Observation>)
      modifies this`stopping
      ensures var l := LoopAfter(limits, i, old(stopping), script); trace == l.trace && stopping == l.stopping
    {
      trace := [];
      var backoff := limits.minBackoff;
      var n := 0;
      var returned := false;
      while n < |script| && !returned && !stopping
        invariant 0 <= n <= |script|
        invariant returned ==> stopping
        invariant var l := LoopAfter(limits, i, old(stopping), script[..n]);
          l.trace == trace && l.stopping == stopping && (returned || l.task == Task(AtHead, backoff))
      {
        var turn := script[n];
        assert script[..n + 1][..n] == script[..n];
        n := n + 1;
        trace := trace + [Started(i)];
        Meanwhile(turn.during);
        match turn {
          case Crashes(_, jitter, asleep) =>
            trace := trace + [Crashed(i, backoff, Delay(backoff, jitter))];
            Meanwhile(asleep);
            trace := trace + [Woke(i)];
            backoff := Next(backoff, limits.maxBackoff);
          case Returns(_) =>
            trace := trace + [Returned(i)];
            if stopping {
              returned := true;
            } else {
              backoff := limits.minBackoff;
            }
        }
      }
      StaysStopped(limits, i, old(stopping), script, n);
    }
  }

  lemma {:induction false} StaysStopped(lim: Limits, i: nat, stopping: bool, turns: seq<Turn>, n: nat)
    requires n <= |turns| && (n < |turns| ==> LoopAfter(lim, i, stopping, turns[..n]).stopping)
    ensures LoopAfter(lim, i, stopping, turns) == LoopAfter(lim, i, stopping, turns[..n])
    decreases |turns|
  {
    if n == |turns| {
      assert turns[..n] == turns;
    } else {
      assert turns[..|turns| - 1][..n] == turns[..n];
      StaysStopped(lim, i, stopping, turns[..|turns| - 1], n);
    }
  }
}
