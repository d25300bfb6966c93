/**
 The in-memory storage as a value, and the ideal timed map it stands for.

 `Step` is what one storage operation does to the dictionary, given the clock readings that
 fall inside it. `IdealStep` is the same operation on a map from which nothing is ever dropped
 because of its age: an expired entry is only hidden. The theorems say that no caller can tell
 the two apart, and how large the dictionary can get.
 */
module TimedMap {
  import opened Common

  /** Number of writes between two active sweeps. */
  const SWEEP_INTERVAL: nat := 500

  datatype Entry<+V> = Entry(value: V, expiresAt: Option<real>)

  predicate Expired<V>(e: Entry<V>, now: real) {
    e.expiresAt.Some? && e.expiresAt.value < now
  }

  function Fresh<V>(value: V, ttl: Option<real>, now: real): Entry<V> {
    Entry(value, if ttl.Some? then Some(now + ttl.value) else None)
  }

  /** The clock readings one operation may take, in the order it takes them. A reading that the
      operation skips may have any value that keeps the order. */
  datatype Readings = Readings(check: real, write: real, sweep: real)

  predicate Ordered(last: real, at: Readings) {
    last <= at.check <= at.write <= at.sweep
  }

  datatype Op<K, V> =
    | Get(key: K)
    | Put(key: K, value: V, ttl: Option<real>)
    | PutIfNew(key: K, value: V, ttl: Option<real>)
    | Delete(key: K)

  datatype Answer<V> = Found(value: Option<V>) | Wrote(isNew: bool) | Nothing

  datatype Store<K(==), V> = Store(data: map<K, Entry<V>>, writes: nat)

  function Sweep<K, V>(data: map<K, Entry<V>>, now: real): map<K, Entry<V>> {
    map k | k in data && !Expired(data[k], now) :: data[k]
  }

  function Write<K, V>(s: Store<K, V>, key: K, e: Entry<V>, sweepAt: real): Store<K, V> {
    var data := s.data[key := e];
    var writes := s.writes + 1;
    Store(if writes % SWEEP_INTERVAL == 0 then Sweep(data, sweepAt) else data, writes)
  }

  /** True when the key holds a value that the given reading does not yet expire. */
  predicate Live<K, V>(data: map<K, Entry<V>>, key: K, now: real) {
    key in data && !Expired(data[key], now)
  }

  function Step<K, V>(s: Store<K, V>, op: Op<K, V>, at: Readings): (Store<K, V>, Answer<V>) {
    match op
    case Get(k) =>
      if Live(s.data, k, at.check) then (s, Found(Some(s.data[k].value)))
      else (s.(data := s.data - {k}), Found(None))
    case Put(k, v, ttl) => (Write(s, k, Fresh(v, ttl, at.write), at.sweep), Nothing)
    case PutIfNew(k, v, ttl) =>
      if Live(s.data, k, at.check) then (s, Wrote(false))
      else (Write(s, k, Fresh(v, ttl, at.write), at.sweep), Wrote(true))
    case Delete(k) => (s.(data := s.data - {k}), Nothing)
  }

  function IdealStep<K, V>(m: map<K, Entry<V>>, op: Op<K, V>, at: Readings): (map<K, Entry<V>>, Answer<V>) {
    match op
    case Get(k) => (m, Found(if Live(m, k, at.check) then Some(m[k].value) else None))
    case Put(k, v, ttl) => (m[k := Fresh(v, ttl, at.write)], Nothing)
    case PutIfNew(k, v, ttl) =>
      if Live(m, k, at.check) then (m, Wrote(false)) else (m[k := Fresh(v, ttl, at.write)], Wrote(true))
    case Delete(k) => (m - {k}, Nothing)
  }

  /** The dictionary agrees with the ideal map except for entries that are already out of date. */
  ghost predicate Refines<K, V>(s: Store<K, V>, m: map<K, Entry<V>>, now: real) {
    && (forall k | k in s.data :: k in m && m[k] == s.data[k])
    && (forall k | k in m && k !in s.data :: Expired(m[k], now))
  }

  lemma StepRefines<K, V>(s: Store<K, V>, m: map<K, Entry<V>>, last: real, op: Op<K, V>, at: Readings)
    requires Refines(s, m, last) && Ordered(last, at)
    ensures Step(s, op, at).1 == IdealStep(m, op, at).1
    ensures Refines(Step(s, op, at).0, IdealStep(m, op, at).0, at.sweep)
  {
  }

  // ---- Whole runs ----

  datatype Command<K, V> = Command(op: Op<K, V>, at: Readings)

  /** The readings of successive operations never go back. */
  ghost predicate OrderedRun<K, V>(last: real, run: seq<Command<K, V>>)
    decreases |run|
  {
    run == [] || (Ordered(last, run[0].at) && OrderedRun(run[0].at.sweep, run[1..]))
  }

  function Exec<K, V>(s: Store<K, V>, run: seq<Command<K, V>>): (Store<K, V>, seq<Answer<V>>)
    decreases |run|
  {
    if run == [] then (s, [])
    else
      var (s1, a) := Step(s, run[0].op, run[0].at);
      var (s2, rest) := Exec(s1, run[1..]);
      (s2, [a] + rest)
  }

  function IdealExec<K, V>(m: map<K, Entry<V>>, run: seq<Command<K, V>>): (map<K, Entry<V>>, seq<Answer<V>>)
    decreases |run|
  {
    if run == [] then (m, [])
    else
      var (m1, a) := IdealStep(m, run[0].op, run[0].at);
      var (m2, rest) := IdealExec(m1, run[1..]);
      (m2, [a] + rest)
  }

  function Empty<K, V>(): Store<K, V> {
    Store(map[], 0)
  }

  lemma {:induction false} ExecRefines<K, V>(s: Store<K, V>, m: map<K, Entry<V>>, last: real, run: seq<Command<K, V>>)
    requires Refines(s, m, last) && OrderedRun(last, run)
    ensures Exec(s, run).1 == IdealExec(m, run).1
    decreases |run|
  {
    if run != [] {
      StepRefines(s, m, last, run[0].op, run[0].at);
      ExecRefines(Step(s, run[0].op, run[0].at).0, IdealStep(m, run[0].op, run[0].at).0, run[0].at.sweep, run[1..]);
    }
  }

  /** Neither lazy deletion nor the sweep can be observed: starting empty, every run of operations
      answers exactly as the map that never drops anything. */
  lemma ExpiryIsUnobservable<K, V>(last: real, run: seq<Command<K, V>>)
    requires OrderedRun(last, run)
    ensures Exec(Empty<K, V>(), run).1 == IdealExec(map[], run).1
  {
    ExecRefines(Empty<K, V>(), map[], last, run);
  }

  // ---- What a run remembers ----

  /** Operation `i` stores the value under the key: it is a set, or a set-if-absent that answered so. */
  ghost predicate Stores<K, V>(run: seq<Command<K, V>>, answers: seq<Answer<V>>, i: nat, key: K, value: V,
                               ttl: Option<real>)
  {
    && i < |run| && i < |answers|
    && (run[i].op == Put(key, value, ttl) || (run[i].op == PutIfNew(key, value, ttl) && answers[i] == Wrote(true)))
  }

  /** Operation `i` leaves what is stored under the key alone. */
  ghost predicate Spares<K, V>(run: seq<Command<K, V>>, answers: seq<Answer<V>>, i: nat, key: K) {
    i < |run| && i < |answers| ==>
      match run[i].op
      case Get(_) => true
      case Put(k, _, _) => k != key
      case PutIfNew(k, _, _) => k != key || answers[i] == Wrote(false)
      case Delete(k) => k != key
  }

  /** Operation `i` stored the value, nothing after it touched the key, and its time to live is not over. */
  ghost predicate Lasts<K, V>(run: seq<Command<K, V>>, answers: seq<Answer<V>>, i: nat, key: K, value: V,
                              ttl: Option<real>, now: real)
  {
    && Stores(run, answers, i, key, value, ttl) && (ttl.Some? ==> now <= run[i].at.write + ttl.value)
    && forall j | i < j < |run| :: Spares(run, answers, j, key)
  }

  ghost predicate Remembers<K, V>(run: seq<Command<K, V>>, answers: seq<Answer<V>>, key: K, value: V, now: real) {
    exists i: nat, ttl :: Lasts(run, answers, i, key, value, ttl, now)
  }

  lemma {:induction false} IdealExecSnoc<K, V>(m: map<K, Entry<V>>, run: seq<Command<K, V>>, c: Command<K, V>)
    ensures var (m1, answers) := IdealExec(m, run);
      var (m2, a) := IdealStep(m1, c.op, c.at);
      IdealExec(m, run + [c]) == (m2, answers + [a])
    ensures |IdealExec(m, run).1| == |run|
    decreases |run|
  {
    if run == [] {
      var (m2, a) := IdealStep(m, c.op, c.at);
      assert run + [c] == [c] && [c][1..] == [] && IdealExec(m2, [c][1..]) == (m2, []);
      assert [a] + [] == [a] == [] + [a];
    } else {
      assert (run + [c])[1..] == run[1..] + [c];
      var (m1, a) := IdealStep(m, run[0].op, run[0].at);
      IdealExecSnoc(m1, run[1..], c);
      var rest := IdealExec(m1, run[1..]).1;
      var last := IdealStep(IdealExec(m1, run[1..]).0, c.op, c.at).1;
      assert [a] + (rest + [last]) == [a] + rest + [last];
    }
  }

  /** One operation more: it decides if it touches the key, and otherwise what was there before does. */
  lemma RemembersSnoc<K, V>(run: seq<Command<K, V>>, answers: seq<Answer<V>>, c: Command<K, V>, a: Answer<V>,
                            key: K, value: V, now: real)
    requires |answers| == |run|
    ensures var run', answers' := run + [c], answers + [a];
      Remembers(run', answers', key, value, now) <==>
        if Spares(run', answers', |run|, key) then Remembers(run, answers, key, value, now)
        else exists ttl :: Lasts(run', answers', |run|, key, value, ttl, now)
  {
    var run', answers' := run + [c], answers + [a];
    var n := |run|;
    forall i: nat, ttl | i < n
      ensures Lasts(run', answers', i, key, value, ttl, now) <==>
        Lasts(run, answers, i, key, value, ttl, now) && Spares(run', answers', n, key)
    {
      assert run'[i] == run[i] && answers'[i] == answers[i];
      assert forall j: nat | j < n :: Spares(run', answers', j, key) <==> Spares(run, answers, j, key);
      if Lasts(run, answers, i, key, value, ttl, now) && Spares(run', answers', n, key) {
        assert forall j | i < j < |run'| :: j == n || Spares(run, answers, j, key);
      }
    }
    if i: nat, ttl :| Lasts(run', answers', i, key, value, ttl, now) {
      if i < n {
        assert Lasts(run, answers, i, key, value, ttl, now);
      }
    }
  }

  /** After every run the ideal map holds a value in date under a key exactly if the latest operation that
      touched the key stored it and its time to live is not over. */
  lemma {:induction false} IdealRemembersIff<K, V>(run: seq<Command<K, V>>, key: K, value: V, now: real)
    ensures var (m, answers) := IdealExec(map[], run);
      Live(m, key, now) && m[key].value == value <==> Remembers(run, answers, key, value, now)
    decreases |run|
  {
    if run != [] {
      var front, c := run[..|run| - 1], run[|run| - 1];
      assert run == front + [c];
      IdealRemembersIff(front, key, value, now);
      IdealExecSnoc(map[], front, c);
      var (m, answers) := IdealExec(map[], front);
      var a := IdealStep(m, c.op, c.at).1;
      RemembersSnoc(front, answers, c, a, key, value, now);
      LastDecides(m, front, answers, c, key, value, now);
    }
  }

  lemma LastDecides<K, V>(m: map<K, Entry<V>>, run: seq<Command<K, V>>, answers: seq<Answer<V>>, c: Command<K, V>,
                          key: K, value: V, now: real)
    requires |answers| == |run|
    ensures var (m', a) := IdealStep(m, c.op, c.at);
      var run', answers' := run + [c], answers + [a];
      if Spares(run', answers', |run|, key) then Live(m', key, now) == Live(m, key, now)
        && (key in m ==> m'[key] == m[key])
      else
        Live(m', key, now) && m'[key].value == value <==>
          exists ttl :: Lasts(run', answers', |run|, key, value, ttl, now)
  {
    var (m', a) := IdealStep(m, c.op, c.at);
    var run', answers' := run + [c], answers + [a];
    assert run'[|run|] == c && answers'[|run|] == a;
    if !Spares(run', answers', |run|, key) && (c.op.Put? || c.op.PutIfNew?) {
      assert forall ttl :: Lasts(run', answers', |run|, key, value, ttl, now) ==> ttl == c.op.ttl;
      if Live(m', key, now) && m'[key].value == value {
        assert Lasts(run', answers', |run|, key, value, c.op.ttl, now);
      }
    }
  }

  /** So the storage itself, with its lazy deletions and sweeps, answers a get with a value exactly if the
      latest operation that touched the key stored it and its time to live is not over; and a set-if-absent
      writes exactly if there is no such value. */
  lemma StorageRemembers<K, V>(last: real, run: seq<Command<K, V>>, key: K, value: V, ttl: Option<real>, at: Readings)
    requires OrderedRun(last, run + [Command(Get(key), at)])
    requires OrderedRun(last, run + [Command(PutIfNew(key, value, ttl), at)])
    ensures var answers := Exec(Empty<K, V>(), run).1;
      && |answers| == |run|
      && (forall v :: Exec(Empty<K, V>(), run + [Command(Get(key), at)]).1 == answers + [Found(Some(v))] <==>
            Remembers(run, answers, key, v, at.check))
      && (Exec(Empty<K, V>(), run + [Command(PutIfNew(key, value, ttl), at)]).1 == answers + [Wrote(false)] <==>
            exists v :: Remembers(run, answers, key, v, at.check))
  {
    var get: Command<K, V>, put := Command(Get(key), at), Command(PutIfNew(key, value, ttl), at);
    OrderedBefore(last, run, get);
    ExpiryIsUnobservable(last, run);
    ExpiryIsUnobservable(last, run + [get]);
    ExpiryIsUnobservable(last, run + [put]);
    IdealExecSnoc(map[], run, get);
    IdealExecSnoc(map[], run, put);
    var (m, answers) := IdealExec(map[], run);
    forall v
      ensures Live(m, key, at.check) && m[key].value == v <==> Remembers(run, answers, key, v, at.check)
    {
      IdealRemembersIff(run, key, v, at.check);
    }
    OneMore(answers, IdealStep(m, get.op, at).1);
    OneMore(answers, IdealStep(m, put.op, at).1);
    if Live(m, key, at.check) {
      assert Remembers(run, answers, key, m[key].value, at.check);
    }
  }

  lemma OneMore<T>(xs: seq<T>, x: T)
    ensures forall y :: xs + [x] == xs + [y] <==> x == y
  {
    forall y | xs + [x] == xs + [y]
      ensures x == y
    {
      assert (xs + [x])[|xs|] == (xs + [y])[|xs|];
    }
  }

  lemma {:induction false} OrderedBefore<K, V>(last: real, run: seq<Command<K, V>>, c: Command<K, V>)
    requires OrderedRun(last, run + [c])
    ensures OrderedRun(last, run)
    decreases |run|
  {
    if run != [] {
      assert (run + [c])[1..] == run[1..] + [c] && (run + [c])[0] == run[0];
      OrderedBefore(run[0].at.sweep, run[1..], c);
    }
  }

  // ---- Size ----

  function LiveKeys<K, V>(m: map<K, Entry<V>>, now: real): set<K> {
    set k | k in m && !Expired(m[k], now)
  }

  predicate Sweeps<K, V>(s: Store<K, V>, s': Store<K, V>) {
    s'.writes > s.writes && s'.writes % SWEEP_INTERVAL == 0
  }

  /** A sweep leaves exactly the live keys; any other operation adds at most one, and only by
      counting a write. */
  lemma StepSize<K, V>(s: Store<K, V>, m: map<K, Entry<V>>, last: real, op: Op<K, V>, at: Readings)
    requires Refines(s, m, last) && Ordered(last, at)
    ensures var s' := Step(s, op, at).0; var m' := IdealStep(m, op, at).0;
      if Sweeps(s, s') then s'.data.Keys == LiveKeys(m', at.sweep)
      else |s'.data| <= |s.data| + (s'.writes - s.writes)
    ensures s.writes <= Step(s, op, at).0.writes <= s.writes + 1
  {
    var s' := Step(s, op, at).0;
    if Sweeps(s, s') {
      StepRefines(s, m, last, op, at);
    } else if s'.writes > s.writes {
      assert s'.data.Keys == s.data.Keys + {op.key};
    } else {
      FewerKeys(s.data, op.key);
    }
  }

  lemma FewerKeys<K, V>(data: map<K, Entry<V>>, key: K)
    ensures |data - {key}| <= |data|
  {
    assert (data - {key}).Keys == data.Keys - {key};
  }

  /** How many entries the most recent sweep of the run found live (`base` if it made none). */
  ghost function LiveAtLastSweep<K, V>(base: nat, s: Store<K, V>, m: map<K, Entry<V>>, run: seq<Command<K, V>>): nat
    decreases |run|
  {
    if run == [] then base
    else
      var s' := Step(s, run[0].op, run[0].at).0;
      var m' := IdealStep(m, run[0].op, run[0].at).0;
      LiveAtLastSweep(if Sweeps(s, s') then |LiveKeys(m', run[0].at.sweep)| else base, s', m', run[1..])
  }

  lemma {:induction false} SizeFollowsSweeps<K, V>(
    base: nat, s: Store<K, V>, m: map<K, Entry<V>>, last: real, run: seq<Command<K, V>>)
    requires Refines(s, m, last) && OrderedRun(last, run)
    requires |s.data| <= base + s.writes % SWEEP_INTERVAL
    ensures var s' := Exec(s, run).0;
      |s'.data| <= LiveAtLastSweep(base, s, m, run) + s'.writes % SWEEP_INTERVAL
    decreases |run|
  {
    if run != [] {
      var s' := Step(s, run[0].op, run[0].at).0;
      var m' := IdealStep(m, run[0].op, run[0].at).0;
      StepRefines(s, m, last, run[0].op, run[0].at);
      StepSize(s, m, last, run[0].op, run[0].at);
      SizeFollowsSweeps(if Sweeps(s, s') then |LiveKeys(m', run[0].at.sweep)| else base, s', m', run[0].at.sweep,
        run[1..]);
    }
  }

  /** After no operation of the run are more than `n` keys live at once. */
  ghost predicate NeverMoreLiveThan<K, V>(n: nat, m: map<K, Entry<V>>, run: seq<Command<K, V>>)
    decreases |run|
  {
    run == [] ||
    var m' := IdealStep(m, run[0].op, run[0].at).0;
    |LiveKeys(m', run[0].at.sweep)| <= n && NeverMoreLiveThan(n, m', run[1..])
  }

  lemma {:induction false} LiveAtLastSweepBounded<K, V>(
    n: nat, base: nat, s: Store<K, V>, m: map<K, Entry<V>>, run: seq<Command<K, V>>)
    requires base <= n && NeverMoreLiveThan(n, m, run)
    ensures LiveAtLastSweep(base, s, m, run) <= n
    decreases |run|
  {
    if run != [] {
      var s' := Step(s, run[0].op, run[0].at).0;
      var m' := IdealStep(m, run[0].op, run[0].at).0;
      LiveAtLastSweepBounded(n, if Sweeps(s, s') then |LiveKeys(m', run[0].at.sweep)| else base, s', m', run[1..]);
    }
  }

  /** A dictionary that never has more than `n` live keys never holds more than `n + 499` entries. */
  lemma SizeStaysBounded<K, V>(n: nat, last: real, run: seq<Command<K, V>>)
    requires OrderedRun(last, run) && NeverMoreLiveThan(n, map[], run)
    ensures |Exec(Empty<K, V>(), run).0.data| <= n + 499
  {
    SizeFollowsSweeps(0, Empty<K, V>(), map[], last, run);
    LiveAtLastSweepBounded(n, 0, Empty<K, V>(), map[], run);
  }
}
