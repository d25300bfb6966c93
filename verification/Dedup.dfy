/**
 Any number of tasks sharing one idempotency middleware over one in-memory storage.

 Nothing is awaited inside a storage operation, so each is one atomic action and an interleaving of
 tasks is a sequence of actions. Keys are written by `Arrive` alone. Between its arrival and its
 `Finish` a task that entered is inside the wrapped handler, where any other task may act.
 */
module Dedup {
  import opened Common
  import opened TimedMap

  datatype Action =
    | Arrive(task: nat, key: string, at: Readings)    // the middleware is called
    | Finish(task: nat, reply: FeedReply)             // the wrapped handler of a task returns or raises
    | Look(key: string, at: Readings)                 // someone asks whether the key was seen

  /** One entry into the wrapped handler; `at` is the clock reading of the write that let it in. */
  datatype Entered = Entered(task: nat, key: string, at: real)

  datatype Answered = Answered(task: nat, reply: FeedReply)

  datatype System = System(
    store: Store<string, bool>,
    entries: seq<Entered>,
    inside: set<nat>,
    answers: seq<Answered>
  )

  function Act(ttl: Option<real>, s: System, a: Action): System {
    match a
    case Arrive(task, key, at) =>
      var (store, answer) := Step(s.store, PutIfNew(key, true, ttl), at);
      if answer == Wrote(true) then
        s.(store := store, entries := s.entries + [Entered(task, key, at.write)], inside := s.inside + {task})
      else
        s.(store := store, answers := s.answers + [Answered(task, Completed(Duplicate))])
    case Finish(task, reply) =>
      if task in s.inside then s.(inside := s.inside - {task}, answers := s.answers + [Answered(task, reply)])
      else s
    case Look(key, at) => s.(store := Step(s.store, Op.Get(key), at).0)
  }

  const START := System(Empty(), [], {}, [])

  function Exec(ttl: Option<real>, run: seq<Action>): System {
    if run == [] then START
    else Act(ttl, Exec(ttl, run[..|run| - 1]), run[|run| - 1])
  }

  /** The latest clock reading of a run. */
  ghost function Now(run: seq<Action>): real {
    if run == [] then 0.0
    else
      var a := run[|run| - 1];
      if a.Finish? then Now(run[..|run| - 1]) else a.at.sweep
  }

  ghost predicate Timely(run: seq<Action>) {
    run == [] ||
    var before := run[..|run| - 1];
    var a := run[|run| - 1];
    Timely(before) && (!a.Finish? ==> Ordered(Now(before), a.at))
  }

  /** The marks an ideal timed map would hold: the latest entry of each key. */
  ghost function Marks(ttl: Option<real>, entries: seq<Entered>): map<string, Entry<bool>> {
    if entries == [] then map[]
    else
      var e := entries[|entries| - 1];
      Marks(ttl, entries[..|entries| - 1])[e.key := Fresh(true, ttl, e.at)]
  }

  /** True when an entry is of the key and the mark it left still holds at the given reading. */
  predicate Holds(ttl: Option<real>, e: Entered, key: string, now: real) {
    e.key == key && (ttl.Some? ==> now <= e.at + ttl.value)
  }

  ghost predicate Held(ttl: Option<real>, entries: seq<Entered>, key: string, now: real) {
    exists i | 0 <= i < |entries| :: Holds(ttl, entries[i], key, now)
  }

  lemma HeldAppend(ttl: Option<real>, entries: seq<Entered>, e: Entered, key: string, now: real)
    ensures Held(ttl, entries + [e], key, now) <==> Held(ttl, entries, key, now) || Holds(ttl, e, key, now)
  {
    var all := entries + [e];
    if Held(ttl, entries, key, now) {
      var i :| 0 <= i < |entries| && Holds(ttl, entries[i], key, now);
      assert Holds(ttl, all[i], key, now);
    } else if Holds(ttl, e, key, now) {
      assert Holds(ttl, all[|entries|], key, now);
    }
  }

  ghost predicate Sorted(entries: seq<Entered>, now: real) {
    && (forall i, j | 0 <= i <= j < |entries| :: entries[i].at <= entries[j].at)
    && (forall i | 0 <= i < |entries| :: entries[i].at <= now)
  }

  lemma {:induction false} MarksAreLatest(ttl: Option<real>, entries: seq<Entered>, now: real, key: string, check: real)
    requires Sorted(entries, now)
    ensures Live(Marks(ttl, entries), key, check) <==> Held(ttl, entries, key, check)
  {
    if entries != [] {
      var front, e := entries[..|entries| - 1], entries[|entries| - 1];
      assert entries == front + [e];
      HeldAppend(ttl, front, e, key, check);
      if e.key == key {
        assert forall i | 0 <= i < |front| :: Holds(ttl, front[i], key, check) ==> Holds(ttl, e, key, check);
      } else {
        MarksAreLatest(ttl, front, now, key, check);
      }
    }
  }

  /** What every action keeps: the storage agrees with the latest entries, whose times never go back. */
  lemma {:induction false} RunKeepsMarks(ttl: Option<real>, run: seq<Action>)
    requires Timely(run)
    ensures Sorted(Exec(ttl, run).entries, Now(run))
    ensures Refines(Exec(ttl, run).store, Marks(ttl, Exec(ttl, run).entries), Now(run))
  {
    if run != [] {
      var before, a := run[..|run| - 1], run[|run| - 1];
      RunKeepsMarks(ttl, before);
      ActKeepsMarks(ttl, Exec(ttl, before), Now(before), a);
    }
  }

  lemma ActKeepsMarks(ttl: Option<real>, s: System, now: real, a: Action)
    requires Sorted(s.entries, now) && Refines(s.store, Marks(ttl, s.entries), now)
    requires !a.Finish? ==> Ordered(now, a.at)
    ensures var s' := Act(ttl, s, a); var now' := if a.Finish? then now else a.at.sweep;
      Sorted(s'.entries, now') && Refines(s'.store, Marks(ttl, s'.entries), now')
  {
    if a.Arrive? {
      ArriveKeepsMarks(ttl, s, now, a);
    } else if a.Look? {
      StepRefines(s.store, Marks(ttl, s.entries), now, Op.Get(a.key), a.at);
    }
  }

  lemma ArriveKeepsMarks(ttl: Option<real>, s: System, now: real, a: Action)
    requires Sorted(s.entries, now) && Refines(s.store, Marks(ttl, s.entries), now)
    requires a.Arrive? && Ordered(now, a.at)
    ensures Sorted(Act(ttl, s, a).entries, a.at.sweep)
    ensures Refines(Act(ttl, s, a).store, Marks(ttl, Act(ttl, s, a).entries), a.at.sweep)
  {
    var op, marks, entry := PutIfNew(a.key, true, ttl), Marks(ttl, s.entries), Entered(a.task, a.key, a.at.write);
    StepRefines(s.store, marks, now, op, a.at);
    ArriveEffect(ttl, s, a);
    if Live(s.store.data, a.key, a.at.check) {
      assert IdealStep(marks, op, a.at).0 == marks;
    } else {
      MarksAppend(ttl, s.entries, entry);
      SortedAppend(s.entries, now, entry, a.at.sweep);
    }
  }

  lemma ArriveEffect(ttl: Option<real>, s: System, a: Action)
    requires a.Arrive?
    ensures Act(ttl, s, a).store == Step(s.store, PutIfNew(a.key, true, ttl), a.at).0
    ensures Act(ttl, s, a).entries ==
      if Live(s.store.data, a.key, a.at.check) then s.entries else s.entries + [Entered(a.task, a.key, a.at.write)]
  {
  }

  lemma SortedAppend(entries: seq<Entered>, now: real, e: Entered, later: real)
    requires Sorted(entries, now) && now <= e.at <= later
    ensures Sorted(entries + [e], later)
  {
  }

  lemma MarksAppend(ttl: Option<real>, entries: seq<Entered>, e: Entered)
    ensures Marks(ttl, entries + [e]) == Marks(ttl, entries)[e.key := Fresh(true, ttl, e.at)]
  {
    assert (entries + [e])[..|entries|] == entries;
  }

  /**
   An arrival is turned away as a duplicate exactly when some earlier entry of its key still holds:
   entered, and not more than `ttl` ago. How that entry's handler ended does not matter, so a
   delivery whose handler failed is a duplicate too when it comes again in time.
   */
  lemma ArrivalIsDuplicateIff(ttl: Option<real>, run: seq<Action>, a: Action)
    requires a.Arrive? && Timely(run + [a])
    ensures var s := Exec(ttl, run); var s' := Exec(ttl, run + [a]);
      if Held(ttl, s.entries, a.key, a.at.check) then
        && s'.entries == s.entries && s'.inside == s.inside
        && s'.answers == s.answers + [Answered(a.task, Completed(Duplicate))]
      else
        && s'.entries == s.entries + [Entered(a.task, a.key, a.at.write)] && s'.inside == s.inside + {a.task}
        && s'.answers == s.answers
  {
    assert (run + [a])[..|run|] == run;
    RunKeepsMarks(ttl, run);
    var s := Exec(ttl, run);
    StepRefines(s.store, Marks(ttl, s.entries), Now(run), PutIfNew(a.key, true, ttl), a.at);
    MarksAreLatest(ttl, s.entries, Now(run), a.key, a.at.check);
  }

  ghost predicate Apart(ttl: Option<real>, entries: seq<Entered>) {
    forall i, j | 0 <= i < j < |entries| && entries[i].key == entries[j].key ::
      ttl.Some? && entries[j].at > entries[i].at + ttl.value
  }

  /** Two entries of one key are more than `ttl` apart; without a ttl there is only ever one. */
  lemma {:induction false} EntriesAreApart(ttl: Option<real>, run: seq<Action>)
    requires Timely(run)
    ensures Apart(ttl, Exec(ttl, run).entries)
  {
    if run != [] {
      var before, a := run[..|run| - 1], run[|run| - 1];
      EntriesAreApart(ttl, before);
      assert run == before + [a];
      if a.Arrive? {
        ArrivalIsDuplicateIff(ttl, before, a);
        var e := Exec(ttl, before).entries;
        assert forall i | 0 <= i < |e| :: Holds(ttl, e[i], a.key, a.at.check) ==> Held(ttl, e, a.key, a.at.check);
      }
    }
  }

  /** The times at which handlers were entered for one key, in order. */
  ghost function Times(entries: seq<Entered>, key: string): seq<real> {
    if entries == [] then []
    else
      var e := entries[|entries| - 1];
      Times(entries[..|entries| - 1], key) + (if e.key == key then [e.at] else [])
  }

  ghost predicate HasEntry(entries: seq<Entered>, key: string, t: real) {
    exists i | 0 <= i < |entries| :: entries[i].key == key && entries[i].at == t
  }

  lemma {:induction false} TimesAreEntries(entries: seq<Entered>, key: string)
    ensures forall t | t in Times(entries, key) :: HasEntry(entries, key, t)
  {
    if entries != [] {
      var front, e := entries[..|entries| - 1], entries[|entries| - 1];
      TimesAreEntries(front, key);
      assert entries[|entries| - 1] == e;
      forall t | t in Times(entries, key)
        ensures HasEntry(entries, key, t)
      {
        if t in Times(front, key) {
          assert HasEntry(front, key, t);
          var i :| 0 <= i < |front| && front[i].key == key && front[i].at == t;
          assert entries[i] == front[i];
        }
      }
    }
  }

  lemma {:induction false} NeighboursApart(ttl: real, entries: seq<Entered>, key: string)
    requires Apart(Some(ttl), entries)
    ensures forall n | 0 < n < |Times(entries, key)| :: Times(entries, key)[n] > Times(entries, key)[n - 1] + ttl
  {
    if entries != [] {
      var front, e := entries[..|entries| - 1], entries[|entries| - 1];
      NeighboursApart(ttl, front, key);
      TimesAreEntries(front, key);
      var t := Times(front, key);
      if e.key == key && t != [] {
        assert t[|t| - 1] in t;
        LaterIsApart(ttl, entries, key, t[|t| - 1]);
      }
    }
  }

  lemma LaterIsApart(ttl: real, entries: seq<Entered>, key: string, t: real)
    requires Apart(Some(ttl), entries) && entries != [] && entries[|entries| - 1].key == key
    requires HasEntry(entries[..|entries| - 1], key, t)
    ensures entries[|entries| - 1].at > t + ttl
  {
    var front := entries[..|entries| - 1];
    var i :| 0 <= i < |front| && front[i].key == key && front[i].at == t;
    assert entries[i] == front[i];
  }

  /** `n` times the ttl. */
  ghost function Multiple(n: nat, ttl: real): real {
    if n == 0 then 0.0 else Multiple(n - 1, ttl) + ttl
  }

  lemma {:induction false} MultipleIsProduct(n: nat, ttl: real)
    ensures Multiple(n, ttl) == n as real * ttl
  {
    if n > 0 {
      MultipleIsProduct(n - 1, ttl);
      assert n as real * ttl == (n - 1) as real * ttl + ttl;
    }
  }

  lemma {:induction false} GapsAdd(ttl: real, times: seq<real>, n: nat)
    requires forall n | 0 < n < |times| :: times[n] > times[n - 1] + ttl
    requires 0 < n < |times|
    ensures times[n] - times[0] > Multiple(n, ttl)
  {
    if n > 1 {
      GapsAdd(ttl, times, n - 1);
    } else {
      assert Multiple(1, ttl) == Multiple(0, ttl) + ttl;
    }
  }

  /** `n` times span more than `(n - 1) * ttl`. */
  ghost predicate Spans(times: seq<real>, ttl: real) {
    |times| >= 2 ==> times[|times| - 1] - times[0] > (|times| - 1) as real * ttl
  }

  /** In every interleaving, `n` entries into the handler for one key span more than `(n - 1) * ttl`;
      with no ttl there is at most one entry. */
  lemma EntriesSpan(ttl: Option<real>, run: seq<Action>, key: string)
    requires Timely(run)
    ensures var t := Times(Exec(ttl, run).entries, key);
      if ttl.None? then |t| <= 1 else Spans(t, ttl.value)
  {
    EntriesAreApart(ttl, run);
    if ttl.Some? {
      SpanOfTimes(ttl.value, Exec(ttl, run).entries, key);
    } else {
      OneTime(Exec(ttl, run).entries, key);
    }
  }

  lemma SpanOfTimes(ttl: real, entries: seq<Entered>, key: string)
    requires Apart(Some(ttl), entries)
    ensures Spans(Times(entries, key), ttl)
  {
    var t := Times(entries, key);
    NeighboursApart(ttl, entries, key);
    if |t| >= 2 {
      GapsAdd(ttl, t, |t| - 1);
      MultipleIsProduct(|t| - 1, ttl);
    }
  }

  lemma {:induction false} OneTime(entries: seq<Entered>, key: string)
    requires Apart(None, entries)
    ensures |Times(entries, key)| <= 1
  {
    if entries != [] {
      var front, e := entries[..|entries| - 1], entries[|entries| - 1];
      OneTime(front, key);
      TimesAreEntries(front, key);
      var t := Times(front, key);
      if t != [] {
        assert t[0] in t && HasEntry(front, key, t[0]);
        var i :| 0 <= i < |front| && front[i].key == key && front[i].at == t[0];
        assert entries[i] == front[i];
      }
    }
  }

  /** Whoever arrives with a key, some delivery of it has entered the handler and its mark held at
      that arrival: no key is turned away unless it was let in before. */
  lemma {:induction false} ArrivedKeyHasEntry(ttl: Option<real>, run: seq<Action>, n: nat)
    requires Timely(run) && n < |run| && run[n].Arrive?
    requires ttl.Some? ==> ttl.value >= 0.0
    ensures Held(ttl, Exec(ttl, run).entries, run[n].key, run[n].at.check)
  {
    var before, a := run[..|run| - 1], run[|run| - 1];
    assert run == before + [a];
    if n == |run| - 1 {
      ArrivalIsDuplicateIff(ttl, before, a);
    } else {
      ArrivedKeyHasEntry(ttl, before, n);
    }
    if a.Arrive? {
      HeldAppend(ttl, Exec(ttl, before).entries, Entered(a.task, a.key, a.at.write), run[n].key, run[n].at.check);
    }
  }

  // ---- A key that comes again ----

  /** The time of the latest entry of a key. */
  ghost function MarkedAt(entries: seq<Entered>, key: string): Option<real> {
    if entries == [] then None
    else
      var e := entries[|entries| - 1];
      if e.key == key then Some(e.at) else MarkedAt(entries[..|entries| - 1], key)
  }

  lemma {:induction false} MarkedAtIsEntry(ttl: Option<real>, entries: seq<Entered>, key: string, now: real)
    ensures (exists i | 0 <= i < |entries| :: entries[i].key == key) ==> MarkedAt(entries, key).Some?
    ensures MarkedAt(entries, key).Some? && (ttl.Some? ==> now <= MarkedAt(entries, key).value + ttl.value) ==>
      Held(ttl, entries, key, now)
  {
    if entries != [] {
      var front, e := entries[..|entries| - 1], entries[|entries| - 1];
      MarkedAtIsEntry(ttl, front, key, now);
      assert entries == front + [e];
      HeldAppend(ttl, front, e, key, now);
      assert forall i | 0 <= i < |front| :: entries[i] == front[i];
    }
  }

  lemma {:induction false} TimelyPrefix(run: seq<Action>, n: nat)
    requires n <= |run| && Timely(run)
    ensures Timely(run[..n])
    decreases |run|
  {
    if n < |run| {
      TimelyPrefix(run[..|run| - 1], n);
      assert run[..|run| - 1][..n] == run[..n];
    } else {
      assert run[..n] == run;
    }
  }

  /** The arrival at `n` is answered with Duplicate, and no handler is entered for it. */
  ghost predicate TurnedAway(ttl: Option<real>, run: seq<Action>, n: nat) {
    && n < |run| && run[n].Arrive?
    && var s, s' := Exec(ttl, run[..n]), Exec(ttl, run[..n + 1]);
    && s'.entries == s.entries
    && s'.inside == s.inside
    && s'.answers == s.answers + [Answered(run[n].task, Completed(Duplicate))]
  }

  /** A key that arrived at `first` arrives again at `second`, in time for its latest mark. */
  ghost predicate AgainInTime(ttl: Option<real>, run: seq<Action>, first: nat, second: nat) {
    && first < second < |run| && run[first].Arrive? && run[second].Arrive? && run[first].key == run[second].key
    && var mark := MarkedAt(Exec(ttl, run[..second]).entries, run[second].key);
       mark.Some? && ttl.Some? ==> run[second].at.check <= mark.value + ttl.value
  }

  /** A key that arrives again in time for its latest mark is turned away. */
  lemma SecondArrivalTurnedAway(ttl: Option<real>, run: seq<Action>, first: nat, second: nat)
    requires Timely(run) && (ttl.Some? ==> ttl.value >= 0.0) && AgainInTime(ttl, run, first, second)
    ensures TurnedAway(ttl, run, second)
  {
    var before, key := run[..second], run[second].key;
    var entries := Exec(ttl, before).entries;
    TimelyPrefix(run, second);
    TimelyPrefix(run, second + 1);
    assert run[..second + 1] == before + [run[second]];
    ArrivedKeyHasEntry(ttl, before, first);
    MarkedAtIsEntry(ttl, entries, key, run[second].at.check);
    assert forall i | 0 <= i < |entries| :: Holds(ttl, entries[i], key, run[first].at.check) ==> entries[i].key == key;
    ArrivalIsDuplicateIff(ttl, before, run[second]);
  }

  /** What the first `Finish` of a task from `n` on gives. */
  ghost function FinishOf(run: seq<Action>, task: nat, n: nat): Option<FeedReply>
    decreases |run| - n
  {
    if n >= |run| then None
    else if run[n].Finish? && run[n].task == task then Some(run[n].reply)
    else FinishOf(run, task, n + 1)
  }

  /** What the caller of the arrival at `n` gets: Duplicate if it is turned away, and otherwise what its
      task finishes with, if it does. */
  ghost function ReplyTo(ttl: Option<real>, run: seq<Action>, n: nat): Option<FeedReply>
    requires n < |run| && run[n].Arrive?
  {
    if TurnedAway(ttl, run, n) then Some(Completed(Duplicate)) else FinishOf(run, run[n].task, n + 1)
  }
}
