/**
 What an SSE or WebSocket source does, as a trace of observations.

 The environment is a script: what each connection delivers, how the dispatcher answers each event,
 how the connection ends, and when the source is closed. A trace is whatever the endless loop does
 up to the end of the script, so every prefix of every run is the trace of some script.
 */
module StreamTraces {
  import opened Common
  import opened Backoff
  import opened Logs

  datatype Frame = Event(seqNo: int, reply: FeedReply) | Malformed

  /** How a connection stops delivering: it ends, or it fails with an exception that the loop
      catches, or with one that it does not. */
  datatype Ending = Ended | Failed | Crashed

  datatype Attempt = Attempt(
    frames: seq<Frame>,
    ending: Ending,
    closes: bool,         // the source is closed before the loop looks again
    jitter: real,
    closesAsleep: bool    // the source is closed while the loop sleeps
  )

  datatype Config = Config(transport: Transport, minBackoff: real, maxBackoff: real)

  datatype Observation =
    | Started                                    // `run` is called
    | Connected(hint: Option<int>)               // the resume hint as sent
    | Fed(seqNo: int)
    | Answered(seqNo: int, outcome: Outcome)
    | FeedRaised(seqNo: int)
    | Slept(base: real, delay: real)

  /** The hint for a cursor: SSE leaves the header out when it is 0, WebSocket always sends it. */
  function Hint(transport: Transport, cursor: int): Option<int> {
    if transport == SSE && cursor == 0 then None else Some(cursor)
  }

  function FramesTrace(frames: seq<Frame>): seq<Observation> {
    if frames == [] || frames[0].Malformed? then []
    else if frames[0].reply.Raised? then [Fed(frames[0].seqNo), FeedRaised(frames[0].seqNo)]
    else [Fed(frames[0].seqNo), Answered(frames[0].seqNo, frames[0].reply.outcome)] + FramesTrace(frames[1..])
  }

  /** True when reading the frames ends with an exception that leaves the source's loop. */
  predicate Escapes(frames: seq<Frame>, ending: Ending) {
    if frames == [] then ending.Crashed?
    else if frames[0].Malformed? then false
    else if frames[0].reply.Raised? then true
    else Escapes(frames[1..], ending)
  }

  predicate GotEvent(frames: seq<Frame>) {
    frames != [] && frames[0].Event?
  }

  function AttemptTrace(cfg: Config, a: Attempt, cursor: int): seq<Observation> {
    [Connected(Hint(cfg.transport, cursor))] + FramesTrace(a.frames)
  }

  function LoopTrace(cfg: Config, script: seq<Attempt>, cursor: int, backoff: real, closed: bool): seq<Observation>
    decreases |script|
  {
    if script == [] || closed then []
    else
      var a := script[0];
      var head := AttemptTrace(cfg, a, cursor);
      if Escapes(a.frames, a.ending) || a.closes then head
      else
        var base := if GotEvent(a.frames) then cfg.minBackoff else backoff;
        head + [Slept(base, Delay(base, a.jitter))]
        + LoopTrace(cfg, script[1..], CursorAfter(cursor, head), Next(base, cfg.maxBackoff), a.closesAsleep)
  }

  function RunTrace(cfg: Config, script: seq<Attempt>, cursor: int, closed: bool): seq<Observation> {
    [Started] + LoopTrace(cfg, script, cursor, cfg.minBackoff, closed)
  }

  /** One run after another over the same cursor: a run that an exception ended is started again. */
  function LifeTrace(cfg: Config, scripts: seq<seq<Attempt>>, cursor: int): seq<Observation> {
    if scripts == [] then []
    else
      var head := RunTrace(cfg, scripts[0], cursor, false);
      head + LifeTrace(cfg, scripts[1..], CursorAfter(cursor, head))
  }

  // ---- Following a trace ----

  predicate Passes(o: Observation) {
    o.Answered? && o.outcome != Errored
  }

  /** The largest of the starting cursor and the numbers whose dispatch came to anything but Errored. */
  function CursorAfter(cursor: int, trace: seq<Observation>): int {
    if trace == [] then cursor
    else
      var o := trace[|trace| - 1];
      var before := CursorAfter(cursor, trace[..|trace| - 1]);
      if Passes(o) then Max(before, o.seqNo) else before
  }

  /** How many sleeps there were since the run started or an event last arrived. */
  function SleepsAfter(sleeps: nat, trace: seq<Observation>): nat {
    if trace == [] then sleeps
    else
      var o := trace[|trace| - 1];
      if o.Fed? || o.Started? then 0
      else SleepsAfter(sleeps, trace[..|trace| - 1]) + (if o.Slept? then 1 else 0)
  }

  /** What the loop promises about one observation, from what came before it. */
  ghost predicate Lawful(cfg: Config, cursor: int, sleeps: nat, o: Observation) {
    match o
    case Connected(hint) => hint.GetOr(0) == cursor && (hint.None? <==> cfg.transport == SSE && cursor == 0)
    case Slept(base, _) => base == Base(cfg.minBackoff, cfg.maxBackoff, sleeps)
    case _ => true
  }

  ghost predicate LawfulTrace(cfg: Config, cursor: int, sleeps: nat, trace: seq<Observation>) {
    forall i {:trigger trace[i]} | 0 <= i < |trace| ::
      Lawful(cfg, CursorAfter(cursor, trace[..i]), SleepsAfter(sleeps, trace[..i]), trace[i])
  }

  lemma {:induction false} AfterAppend(cursor: int, sleeps: nat, a: seq<Observation>, b: seq<Observation>)
    ensures CursorAfter(cursor, a + b) == CursorAfter(CursorAfter(cursor, a), b)
    ensures SleepsAfter(sleeps, a + b) == SleepsAfter(SleepsAfter(sleeps, a), b)
  {
    if b == [] {
      assert a + b == a;
    } else {
      AfterAppend(cursor, sleeps, a, b[..|b| - 1]);
      assert (a + b)[..|a + b| - 1] == a + b[..|b| - 1];
    }
  }

  lemma LawfulAppend(cfg: Config, cursor: int, sleeps: nat, a: seq<Observation>, b: seq<Observation>)
    requires LawfulTrace(cfg, cursor, sleeps, a)
    requires LawfulTrace(cfg, CursorAfter(cursor, a), SleepsAfter(sleeps, a), b)
    ensures LawfulTrace(cfg, cursor, sleeps, a + b)
  {
    var all := a + b;
    forall i | 0 <= i < |all|
      ensures Lawful(cfg, CursorAfter(cursor, all[..i]), SleepsAfter(sleeps, all[..i]), all[i])
    {
      if i < |a| {
        assert all[..i] == a[..i] && all[i] == a[i];
      } else {
        assert all[..i] == a + b[..i - |a|] && all[i] == b[i - |a|];
        AfterAppend(cursor, sleeps, a, b[..i - |a|]);
      }
    }
  }

  lemma {:induction false} FramesAreQuiet(cfg: Config, cursor: int, sleeps: nat, frames: seq<Frame>)
    ensures LawfulTrace(cfg, cursor, sleeps, FramesTrace(frames))
    ensures SleepsAfter(sleeps, FramesTrace(frames)) == if GotEvent(frames) then 0 else sleeps
    decreases |frames|
  {
    if GotEvent(frames) && frames[0].reply.Completed? {
      var head := [Fed(frames[0].seqNo), Answered(frames[0].seqNo, frames[0].reply.outcome)];
      assert head[..1] == [Fed(frames[0].seqNo)];
      AfterAppend(cursor, sleeps, head, FramesTrace(frames[1..]));
      FramesAreQuiet(cfg, CursorAfter(cursor, head), 0, frames[1..]);
      LawfulAppend(cfg, cursor, sleeps, head, FramesTrace(frames[1..]));
    } else if GotEvent(frames) {
      assert FramesTrace(frames)[..1] == [Fed(frames[0].seqNo)];
    }
  }

  lemma AttemptIsLawful(cfg: Config, cursor: int, sleeps: nat, a: Attempt)
    ensures LawfulTrace(cfg, cursor, sleeps, AttemptTrace(cfg, a, cursor))
    ensures SleepsAfter(sleeps, AttemptTrace(cfg, a, cursor)) == if GotEvent(a.frames) then 0 else sleeps
  {
    var connect := [Connected(Hint(cfg.transport, cursor))];
    assert connect[..0] == [];
    FramesAreQuiet(cfg, cursor, sleeps, a.frames);
    LawfulAppend(cfg, cursor, sleeps, connect, FramesTrace(a.frames));
    AfterAppend(cursor, sleeps, connect, FramesTrace(a.frames));
  }

  lemma SleepIsLawful(cfg: Config, cursor: int, sleeps: nat, delay: real)
    ensures LawfulTrace(cfg, cursor, sleeps, [Slept(Base(cfg.minBackoff, cfg.maxBackoff, sleeps), delay)])
  {
    assert [Slept(Base(cfg.minBackoff, cfg.maxBackoff, sleeps), delay)][..0] == [];
  }

  lemma {:induction false} LoopIsLawful(cfg: Config, script: seq<Attempt>, cursor: int, sleeps: nat, closed: bool)
    ensures var backoff := Base(cfg.minBackoff, cfg.maxBackoff, sleeps);
      LawfulTrace(cfg, cursor, sleeps, LoopTrace(cfg, script, cursor, backoff, closed))
    decreases |script|
  {
    if script != [] && !closed {
      var a := script[0];
      AttemptIsLawful(cfg, cursor, sleeps, a);
      var head := AttemptTrace(cfg, a, cursor);
      if !Escapes(a.frames, a.ending) && !a.closes {
        var n := if GotEvent(a.frames) then 0 else sleeps;
        var base := Base(cfg.minBackoff, cfg.maxBackoff, n);
        var sleep := [Slept(base, Delay(base, a.jitter))];
        var rest := LoopTrace(cfg, script[1..], CursorAfter(cursor, head), Next(base, cfg.maxBackoff), a.closesAsleep);
        SleepIsLawful(cfg, CursorAfter(cursor, head), n, Delay(base, a.jitter));
        LawfulAppend(cfg, cursor, sleeps, head, sleep);
        AfterAppend(cursor, sleeps, head, sleep);
        LoopIsLawful(cfg, script[1..], CursorAfter(cursor, head), n + 1, a.closesAsleep);
        assert Base(cfg.minBackoff, cfg.maxBackoff, n + 1) == Next(base, cfg.maxBackoff);
        LawfulAppend(cfg, cursor, sleeps, head + sleep, rest);
      }
    }
  }

  /**
   Whatever connections deliver, however they end and however often the source is started again:
   each resume hint is the largest of the starting cursor and the numbers that had been dispatched
   without an error by then, and each sleep's base is the capped power of two for the sleeps since
   an event last arrived.
   */
  lemma {:induction false} LifeIsLawful(cfg: Config, scripts: seq<seq<Attempt>>, cursor: int, sleeps: nat)
    ensures LawfulTrace(cfg, cursor, sleeps, LifeTrace(cfg, scripts, cursor))
  {
    if scripts != [] {
      var start := [Started];
      var loop := LoopTrace(cfg, scripts[0], cursor, cfg.minBackoff, false);
      var head := RunTrace(cfg, scripts[0], cursor, false);
      assert SleepsAfter(sleeps, start) == 0 && start[..0] == [];
      LoopIsLawful(cfg, scripts[0], cursor, 0, false);
      LawfulAppend(cfg, cursor, sleeps, start, loop);
      LifeIsLawful(cfg, scripts[1..], CursorAfter(cursor, head), SleepsAfter(sleeps, head));
      LawfulAppend(cfg, cursor, sleeps, head, LifeTrace(cfg, scripts[1..], CursorAfter(cursor, head)));
    }
  }

  // ---- Which connections a run makes ----

  /** Reading the frames of a connection stops at `n`: after the last one, before one that is malformed,
      or after an event whose feeding raised. */
  ghost predicate StopsAt(frames: seq<Frame>, n: nat) {
    && n <= |frames|
    && (forall k | 0 <= k < n :: frames[k].Event?)
    && (forall k | 0 <= k < n - 1 :: frames[k].reply.Completed?)
    && (n < |frames| ==> frames[n].Malformed? || (n > 0 && frames[n - 1].reply.Raised?))
  }

  /** The observations begin with the first `n` frames, each fed and replied to. */
  ghost predicate Reads(part: seq<Observation>, frames: seq<Frame>, n: nat) {
    && n <= |frames| && 2 * n <= |part|
    && forall k | 0 <= k < n ::
         && frames[k].Event? && part[2 * k] == Fed(frames[k].seqNo)
         && part[2 * k + 1] ==
              match frames[k].reply
              case Completed(outcome) => Answered(frames[k].seqNo, outcome)
              case Raised => FeedRaised(frames[k].seqNo)
  }

  /** An exception leaves the loop: feeding an event raises, or the connection fails with an exception
      that is not caught. A malformed frame and a failure that is caught only end the connection. */
  ghost predicate Leaves(a: Attempt) {
    (exists k | 0 <= k < |a.frames| :: RaisesAt(a.frames, k)) || (a.ending == Crashed && AllEvents(a.frames))
  }

  /** Frame `k` is an event whose feeding raises, and no malformed frame comes before it. */
  ghost predicate RaisesAt(frames: seq<Frame>, k: nat) {
    k < |frames| && frames[k].Event? && frames[k].reply == Raised && AllEvents(frames[..k])
  }

  ghost predicate AllEvents(frames: seq<Frame>) {
    forall k | 0 <= k < |frames| :: frames[k].Event?
  }

  /** What is seen from one connect to the next: the frames up to where reading stops, and a sleep unless
      the loop ends there. */
  ghost predicate IsConnection(a: Attempt, part: seq<Observation>) {
    exists n :: StopsAt(a.frames, n) && Reads(part, a.frames, n) && SleepsAfterwards(a, part, n)
  }

  ghost predicate SleepsAfterwards(a: Attempt, part: seq<Observation>, n: nat) {
    if Leaves(a) || a.closes then |part| == 2 * n else |part| == 2 * n + 1 && part[2 * n].Slept?
  }

  ghost predicate ConnectsAgain(a: Attempt) {
    !Leaves(a) && !a.closes && !a.closesAsleep
  }

  /** `n` connections are made: none if the source is closed; otherwise the first one, and one more after
      each after which the source connects again, for as long as the script goes on. */
  ghost predicate Makes(script: seq<Attempt>, closed: bool, n: nat) {
    && n <= |script| && (closed ==> n == 0)
    && (forall j | 0 <= j < n - 1 :: ConnectsAgain(script[j]))
    && (n < |script| && !closed ==> n > 0 && !ConnectsAgain(script[n - 1]))
  }

  function Upto(trace: seq<Observation>): seq<Observation> {
    if trace == [] || trace[0].Connected? then [] else [trace[0]] + Upto(trace[1..])
  }

  /** What follows each connect, up to the next. */
  function Connections(trace: seq<Observation>): seq<seq<Observation>> {
    if trace == [] then []
    else (if trace[0].Connected? then [Upto(trace[1..])] else []) + Connections(trace[1..])
  }

  lemma {:induction false} LeavesIff(frames: seq<Frame>, ending: Ending, a: Attempt)
    requires a.frames == frames && a.ending == ending
    ensures Escapes(frames, ending) <==> Leaves(a)
    decreases |frames|
  {
    if frames != [] && frames[0].Event? {
      if frames[0].reply.Raised? {
        assert RaisesAt(frames, 0);
      } else {
        LeavesIff(frames[1..], ending, a.(frames := frames[1..]));
        LeavesCons(a, a.(frames := frames[1..]));
      }
    } else if frames != [] {
      assert forall k | 0 < k < |frames| :: frames[..k][0] == frames[0];
    }
  }

  lemma AllEventsCons(frames: seq<Frame>, k: nat)
    requires frames != [] && frames[0].Event? && k < |frames|
    ensures AllEvents(frames[..k + 1]) <==> AllEvents(frames[1..][..k])
  {
    assert frames[..k + 1] == [frames[0]] + frames[1..][..k];
  }

  lemma LeavesCons(a: Attempt, b: Attempt)
    requires a.frames != [] && b == a.(frames := a.frames[1..])
    requires a.frames[0].Event? && a.frames[0].reply.Completed?
    ensures Leaves(a) <==> Leaves(b)
  {
    var frames, rest := a.frames, b.frames;
    assert frames == [frames[0]] + rest;
    assert AllEvents(frames) <==> AllEvents(rest);
    if k :| 0 <= k < |rest| && RaisesAt(rest, k) {
      AllEventsCons(frames, k);
      assert RaisesAt(frames, k + 1);
    }
    if k :| 0 <= k < |frames| && RaisesAt(frames, k) {
      assert k > 0;
      AllEventsCons(frames, k - 1);
      assert RaisesAt(rest, k - 1);
    }
  }

  lemma {:induction false} FramesAreRead(frames: seq<Frame>) returns (n: nat)
    ensures StopsAt(frames, n) && Reads(FramesTrace(frames), frames, n) && |FramesTrace(frames)| == 2 * n
    ensures forall o | o in FramesTrace(frames) :: !o.Connected?
  {
    if !GotEvent(frames) {
      n := 0;
    } else if frames[0].reply.Raised? {
      n := 1;
    } else {
      n := FramesAreRead(frames[1..]);
      ReadsCons(frames, n);
      n := n + 1;
    }
  }

  lemma ReadsCons(frames: seq<Frame>, n: nat)
    requires GotEvent(frames) && frames[0].reply.Completed?
    requires StopsAt(frames[1..], n) && Reads(FramesTrace(frames[1..]), frames[1..], n)
    ensures StopsAt(frames, n + 1) && Reads(FramesTrace(frames), frames, n + 1)
  {
    var rest := frames[1..];
    assert forall k | 0 <= k < |rest| :: rest[k] == frames[k + 1];
    var head := [Fed(frames[0].seqNo), Answered(frames[0].seqNo, frames[0].reply.outcome)];
    forall k | 0 <= k < n + 1
      ensures frames[k].Event? && FramesTrace(frames)[2 * k] == Fed(frames[k].seqNo)
      ensures FramesTrace(frames)[2 * k + 1] ==
              match frames[k].reply
              case Completed(outcome) => Answered(frames[k].seqNo, outcome)
              case Raised => FeedRaised(frames[k].seqNo)
    {
      if k > 0 {
        assert rest[k - 1] == frames[k];
        assert FramesTrace(frames)[2 * k] == FramesTrace(rest)[2 * (k - 1)];
        assert FramesTrace(frames)[2 * k + 1] == FramesTrace(rest)[2 * (k - 1) + 1];
      }
    }
  }

  lemma {:induction false} UptoConnect(part: seq<Observation>, rest: seq<Observation>)
    requires forall o | o in part :: !o.Connected?
    requires rest == [] || rest[0].Connected?
    ensures Upto(part + rest) == part && Connections(part + rest) == Connections(rest)
  {
    if part == [] {
      assert part + rest == rest;
    } else {
      assert (part + rest)[1..] == part[1..] + rest;
      UptoConnect(part[1..], rest);
    }
  }

  lemma ConnectionsCons(hint: Option<int>, part: seq<Observation>, rest: seq<Observation>)
    requires forall o | o in part :: !o.Connected?
    requires rest == [] || rest[0].Connected?
    ensures Connections([Connected(hint)] + part + rest) == [part] + Connections(rest)
  {
    var all := [Connected(hint)] + part + rest;
    assert all[1..] == part + rest;
    UptoConnect(part, rest);
  }

  lemma FirstConnection(cfg: Config, a: Attempt, cursor: int, base: real) returns (part: seq<Observation>)
    ensures forall o | o in part :: !o.Connected?
    ensures IsConnection(a, part)
    ensures [Connected(Hint(cfg.transport, cursor))] + part ==
      AttemptTrace(cfg, a, cursor)
      + (if Escapes(a.frames, a.ending) || a.closes then [] else [Slept(base, Delay(base, a.jitter))])
  {
    var n := FramesAreRead(a.frames);
    LeavesIff(a.frames, a.ending, a);
    var sleep := if Leaves(a) || a.closes then [] else [Slept(base, Delay(base, a.jitter))];
    part := FramesTrace(a.frames) + sleep;
    assert Reads(part, a.frames, n) && SleepsAfterwards(a, part, n);
  }

  /**
   A run connects a first time unless the source is closed, and again after a connection exactly if no
   exception left the loop and the source was not closed meanwhile: a refused or broken connection and a
   malformed frame are followed by a sleep and another connect. Each connection feeds its events in order
   up to the first malformed frame or the first that makes the dispatcher raise, and nothing else.
   */
  lemma RunConnectsIff(cfg: Config, script: seq<Attempt>, cursor: int, closed: bool)
    ensures var connections := Connections(RunTrace(cfg, script, cursor, closed));
      && Makes(script, closed, |connections|)
      && forall i | 0 <= i < |connections| :: IsConnection(script[i], connections[i])
  {
    LoopConnectsIff(cfg, script, cursor, cfg.minBackoff, closed);
    var loop := LoopTrace(cfg, script, cursor, cfg.minBackoff, closed);
    assert ([Started] + loop)[1..] == loop && [] + Connections(loop) == Connections(loop);
  }

  lemma {:induction false} LoopConnectsIff(cfg: Config, script: seq<Attempt>, cursor: int, backoff: real, closed: bool)
    ensures var connections := Connections(LoopTrace(cfg, script, cursor, backoff, closed));
      && Makes(script, closed, |connections|)
      && forall i | 0 <= i < |connections| :: IsConnection(script[i], connections[i])
    decreases |script|
  {
    if script != [] && !closed {
      var a, later := script[0], script[1..];
      var part, cursor', backoff' := LoopStarts(cfg, script, cursor, backoff);
      var rest := if Leaves(a) || a.closes then [] else LoopTrace(cfg, later, cursor', backoff', a.closesAsleep);
      ConnectionsCons(Hint(cfg.transport, cursor), part, rest);
      LoopConnectsIff(cfg, later, cursor', backoff', a.closesAsleep);
      MakesOneMore(script, part, Connections(rest));
    }
  }

  /** The first connection, and what the loop goes on with. */
  lemma LoopStarts(cfg: Config, script: seq<Attempt>, cursor: int, backoff: real)
    returns (part: seq<Observation>, cursor': int, backoff': real)
    requires script != []
    ensures IsConnection(script[0], part) && forall o | o in part :: !o.Connected?
    ensures var a := script[0];
      var rest := if Leaves(a) || a.closes then [] else LoopTrace(cfg, script[1..], cursor', backoff', a.closesAsleep);
      && LoopTrace(cfg, script, cursor, backoff, false) == [Connected(Hint(cfg.transport, cursor))] + part + rest
      && (rest == [] || rest[0].Connected?)
  {
    var a := script[0];
    var base := if GotEvent(a.frames) then cfg.minBackoff else backoff;
    part := FirstConnection(cfg, a, cursor, base);
    LeavesIff(a.frames, a.ending, a);
    cursor', backoff' := CursorAfter(cursor, AttemptTrace(cfg, a, cursor)), Next(base, cfg.maxBackoff);
    assert AttemptTrace(cfg, a, cursor) + [] == AttemptTrace(cfg, a, cursor);
  }

  /** The first connection in front of those of the rest of the script. */
  lemma MakesOneMore(script: seq<Attempt>, part: seq<Observation>, rest: seq<seq<Observation>>)
    requires script != [] && IsConnection(script[0], part)
    requires Makes(script[1..], !ConnectsAgain(script[0]), |rest|)
    requires forall i | 0 <= i < |rest| :: IsConnection(script[1..][i], rest[i])
    ensures Makes(script, false, 1 + |rest|)
    ensures forall i | 0 <= i < 1 + |rest| :: IsConnection(script[i], ([part] + rest)[i])
  {
    var later := script[1..];
    forall j | 0 <= j < |rest|
      ensures ConnectsAgain(script[j])
    {
      assert j > 0 ==> script[j] == later[j - 1];
    }
    forall i | 0 <= i < 1 + |rest|
      ensures IsConnection(script[i], ([part] + rest)[i])
    {
      assert i > 0 ==> script[i] == later[i - 1];
    }
  }

  // ---- How long a life sleeps ----

  function BasesOf(trace: seq<Observation>): seq<real> {
    if trace == [] then []
    else BasesOf(trace[..|trace| - 1]) + (if trace[|trace| - 1].Slept? then [trace[|trace| - 1].base] else [])
  }

  function DelaysOf(trace: seq<Observation>): seq<real> {
    if trace == [] then []
    else DelaysOf(trace[..|trace| - 1]) + (if trace[|trace| - 1].Slept? then [trace[|trace| - 1].delay] else [])
  }

  ghost predicate FairJitter(scripts: seq<seq<Attempt>>) {
    forall i, j | 0 <= i < |scripts| && 0 <= j < |scripts[i]| :: 0.0 <= scripts[i][j].jitter <= 1.0
  }

  ghost predicate AllJittered(trace: seq<Observation>) {
    forall o | o in trace && o.Slept? :: Jittered(o.base, o.delay)
  }

  lemma {:induction false} LoopIsJittered(
    cfg: Config, script: seq<Attempt>, cursor: int, backoff: real, closed: bool)
    requires 0.0 <= cfg.minBackoff && 0.0 <= cfg.maxBackoff && 0.0 <= backoff && FairJitter([script])
    ensures AllJittered(LoopTrace(cfg, script, cursor, backoff, closed))
    decreases |script|
  {
    if script != [] && !closed {
      var a := script[0];
      var head := AttemptTrace(cfg, a, cursor);
      FramesNeverSleep(a.frames);
      if !Escapes(a.frames, a.ending) && !a.closes {
        var base := if GotEvent(a.frames) then cfg.minBackoff else backoff;
        assert [script][0] == script && 0.0 <= a.jitter <= 1.0;
        DelayIsJittered(base, a.jitter);
        assert forall j | 0 <= j < |script[1..]| :: script[1..][j] == [script][0][j + 1];
        LoopIsJittered(cfg, script[1..], CursorAfter(cursor, head), Next(base, cfg.maxBackoff), a.closesAsleep);
      }
    }
  }

  lemma {:induction false} FramesNeverSleep(frames: seq<Frame>)
    ensures forall o | o in FramesTrace(frames) :: !o.Slept?
  {
    if GotEvent(frames) && frames[0].reply.Completed? {
      FramesNeverSleep(frames[1..]);
    }
  }

  /** Every sleep takes between its base and 1.25 times its base. */
  lemma {:induction false} LifeIsJittered(cfg: Config, scripts: seq<seq<Attempt>>, cursor: int)
    requires 0.0 <= cfg.minBackoff && 0.0 <= cfg.maxBackoff && FairJitter(scripts)
    ensures AllJittered(LifeTrace(cfg, scripts, cursor))
  {
    if scripts != [] {
      assert [scripts[0]][0] == scripts[0];
      LoopIsJittered(cfg, scripts[0], cursor, cfg.minBackoff, false);
      assert forall i | 0 <= i < |scripts[1..]| :: scripts[1..][i] == scripts[i + 1];
      LifeIsJittered(cfg, scripts[1..], CursorAfter(cursor, RunTrace(cfg, scripts[0], cursor, false)));
    }
  }

  lemma {:induction false} SleepsPair(trace: seq<Observation>)
    requires AllJittered(trace)
    ensures |BasesOf(trace)| == |DelaysOf(trace)|
    ensures forall i | 0 <= i < |BasesOf(trace)| :: Jittered(BasesOf(trace)[i], DelaysOf(trace)[i])
  {
    if trace != [] {
      SleepsPair(trace[..|trace| - 1]);
    }
  }

  /** All the sleeps of a life together take between the sum of their bases and 1.25 times that. */
  lemma LifeSleepsTotal(cfg: Config, scripts: seq<seq<Attempt>>, cursor: int)
    requires 0.0 <= cfg.minBackoff && 0.0 <= cfg.maxBackoff && FairJitter(scripts)
    ensures var life := LifeTrace(cfg, scripts, cursor);
      Sum(BasesOf(life)) <= Sum(DelaysOf(life)) <= 1.25 * Sum(BasesOf(life))
  {
    var life := LifeTrace(cfg, scripts, cursor);
    LifeIsJittered(cfg, scripts, cursor);
    SleepsPair(life);
    JitteredSum(BasesOf(life), DelaysOf(life));
  }

  // ---- A server with a log ----

  /** After each connect the events fed are the first ones above the hint, in order; the connection
      may be cut after any of them. `pending` is what the current connection has still to send. The
      log may have grown meanwhile: later entries are above all earlier ones, so what was sent is
      also the beginning of what the final log has above the hint. */
  ghost predicate ServedFrom(log: seq<int>, pending: seq<int>, trace: seq<Observation>)
    decreases |trace|
  {
    trace == [] ||
    match trace[0]
    case Connected(hint) => ServedFrom(log, Above(log, hint.GetOr(0)), trace[1..])
    case Fed(s) => pending != [] && pending[0] == s && ServedFrom(log, pending[1..], trace[1..])
    case _ => ServedFrom(log, pending, trace[1..])
  }

  /** Events are answered one at a time: what follows each feed is the reply to it, and no reply stands
      anywhere else. */
  ghost predicate AnsweredInTurn(trace: seq<Observation>) {
    && (forall i | 0 <= i < |trace| && trace[i].Answered? :: 0 < i && trace[i - 1] == Fed(trace[i].seqNo))
    && (forall i | 0 <= i < |trace| && trace[i].Fed? :: i + 1 < |trace| && IsReply(trace[i + 1], trace[i].seqNo))
  }

  predicate IsReply(o: Observation, seqNo: int) {
    o == FeedRaised(seqNo) || (o.Answered? && o.seqNo == seqNo)
  }

  lemma AnsweredAppend(a: seq<Observation>, b: seq<Observation>)
    requires AnsweredInTurn(a) && AnsweredInTurn(b)
    ensures AnsweredInTurn(a + b)
  {
  }

  lemma {:induction false} FramesAnsweredInTurn(frames: seq<Frame>)
    ensures AnsweredInTurn(FramesTrace(frames))
  {
    if GotEvent(frames) && frames[0].reply.Completed? {
      FramesAnsweredInTurn(frames[1..]);
      AnsweredAppend([Fed(frames[0].seqNo), Answered(frames[0].seqNo, frames[0].reply.outcome)],
        FramesTrace(frames[1..]));
    }
  }

  lemma {:induction false} LoopAnsweredInTurn(cfg: Config, script: seq<Attempt>, cursor: int, backoff: real,
      closed: bool)
    ensures AnsweredInTurn(LoopTrace(cfg, script, cursor, backoff, closed))
    decreases |script|
  {
    if script != [] && !closed {
      var a := script[0];
      FramesAnsweredInTurn(a.frames);
      AnsweredAppend([Connected(Hint(cfg.transport, cursor))], FramesTrace(a.frames));
      if !Escapes(a.frames, a.ending) && !a.closes {
        var head := AttemptTrace(cfg, a, cursor);
        var base := if GotEvent(a.frames) then cfg.minBackoff else backoff;
        var sleep := [Slept(base, Delay(base, a.jitter))];
        LoopAnsweredInTurn(cfg, script[1..], CursorAfter(cursor, head), Next(base, cfg.maxBackoff), a.closesAsleep);
        AnsweredAppend(head, sleep);
        AnsweredAppend(head + sleep, LoopTrace(cfg, script[1..], CursorAfter(cursor, head),
          Next(base, cfg.maxBackoff), a.closesAsleep));
      }
    }
  }

  lemma {:induction false} LifeAnsweredInTurn(cfg: Config, scripts: seq<seq<Attempt>>, cursor: int)
    ensures AnsweredInTurn(LifeTrace(cfg, scripts, cursor))
  {
    if scripts != [] {
      var head := RunTrace(cfg, scripts[0], cursor, false);
      LoopAnsweredInTurn(cfg, scripts[0], cursor, cfg.minBackoff, false);
      LifeAnsweredInTurn(cfg, scripts[1..], CursorAfter(cursor, head));
      AnsweredAppend([Started], LoopTrace(cfg, scripts[0], cursor, cfg.minBackoff, false));
      AnsweredAppend(head, LifeTrace(cfg, scripts[1..], CursorAfter(cursor, head)));
    }
  }

  // ---- Nothing is skipped ----

  /** Where the reading of a log stands: what the current connection has still to send, the event in
      hand, and what was fed. */
  datatype Reading = Reading(connected: bool, pending: seq<int>, inHand: Option<int>, fed: set<int>)

  /** What holds while a log server is read: events above `start` that the cursor has reached, and
      those the current connection will not send again, were fed; and what the connection has still
      to send comes after the event in hand. */
  ghost predicate Covered(log: seq<int>, start: int, cursor: int, r: Reading) {
    && Increasing(r.pending)
    && (forall s | s in log && start < s <= cursor :: s in r.fed)
    && (r.connected ==> forall s | s in log && start < s && s !in r.pending :: s in r.fed)
    && (r.inHand.Some? ==> r.connected && forall s | s in r.pending :: r.inHand.value < s)
    && (!r.connected ==> r.pending == [])
  }

  ghost function ReadOn(log: seq<int>, r: Reading, o: Observation): Reading {
    match o
    case Connected(hint) => Reading(true, Above(log, hint.GetOr(0)), None, r.fed)
    case Fed(s) => Reading(r.connected, if r.pending == [] then [] else r.pending[1..], Some(s), r.fed + {s})
    case _ => r.(inHand := None)
  }

  lemma CoveredStep(cfg: Config, log: seq<int>, start: int, cursor: int, r: Reading, x: Observation)
    requires Increasing(log) && Covered(log, start, cursor, r)
    requires x.Connected? ==> x.hint.GetOr(0) == cursor
    requires x.Fed? ==> r.pending != [] && r.pending[0] == x.seqNo
    requires x.Answered? ==> r.inHand == Some(x.seqNo)
    ensures Covered(log, start, if Passes(x) then Max(cursor, x.seqNo) else cursor, ReadOn(log, r, x))
  {
    if x.Connected? {
      AboveIs(log, cursor);
    } else if x.Fed? {
      assert r.pending == [x.seqNo] + r.pending[1..];
    } else if x.Answered? {
      assert forall s | s in log && start < s <= x.seqNo :: s !in r.pending;
    }
  }

  ghost predicate InTurnAfter(inHand: Option<int>, trace: seq<Observation>) {
    forall i {:trigger trace[i]} | 0 <= i < |trace| && trace[i].Answered? ::
      if i == 0 then inHand == Some(trace[i].seqNo) else trace[i - 1] == Fed(trace[i].seqNo)
  }

  lemma LawfulTail(cfg: Config, cursor: int, sleeps: nat, x: Observation, t: seq<Observation>)
    requires LawfulTrace(cfg, cursor, sleeps, [x] + t)
    ensures Lawful(cfg, cursor, sleeps, x)
    ensures LawfulTrace(cfg, CursorAfter(cursor, [x]), SleepsAfter(sleeps, [x]), t)
  {
    var all := [x] + t;
    assert all[..0] == [] && all[0] == x;
    forall i | 0 <= i < |t|
      ensures Lawful(cfg, CursorAfter(CursorAfter(cursor, [x]), t[..i]),
        SleepsAfter(SleepsAfter(sleeps, [x]), t[..i]), t[i])
    {
      assert all[..i + 1] == [x] + t[..i] && all[i + 1] == t[i];
      AfterAppend(cursor, sleeps, [x], t[..i]);
    }
  }

  lemma {:induction false} NothingSkippedFrom(cfg: Config, log: seq<int>, start: int, cursor: int, sleeps: nat,
      r: Reading, trace: seq<Observation>)
    requires Increasing(log) && Covered(log, start, cursor, r)
    requires LawfulTrace(cfg, cursor, sleeps, trace) && ServedFrom(log, r.pending, trace)
      && InTurnAfter(r.inHand, trace)
    ensures forall s | s in log && start < s <= CursorAfter(cursor, trace) :: s in r.fed || Fed(s) in trace
    decreases |trace|
  {
    if trace != [] {
      var x, t := trace[0], trace[1..];
      assert trace == [x] + t;
      LawfulTail(cfg, cursor, sleeps, x, t);
      CoveredStep(cfg, log, start, cursor, r, x);
      AfterAppend(cursor, sleeps, [x], t);
      assert [x][..0] == [];
      NothingSkippedFrom(cfg, log, start, CursorAfter(cursor, [x]), SleepsAfter(sleeps, [x]), ReadOn(log, r, x), t);
    }
  }

  /**
   Against a server that sends its log in order above the hint and may cut anywhere, over any number
   of reconnects and restarts: every event of the log that the cursor has reached was fed to the
   dispatcher. This is so at every moment, because every beginning of a trace satisfies the premises.
   */
  lemma NothingIsSkipped(cfg: Config, scripts: seq<seq<Attempt>>, start: int, log: seq<int>, n: nat)
    requires Increasing(log) && ServedFrom(log, [], LifeTrace(cfg, scripts, start))
    requires n <= |LifeTrace(cfg, scripts, start)|
    ensures var sofar := LifeTrace(cfg, scripts, start)[..n];
      forall s | s in log && start < s <= CursorAfter(start, sofar) :: Fed(s) in sofar
  {
    var life := LifeTrace(cfg, scripts, start);
    LifeIsLawful(cfg, scripts, start, 0);
    LifeAnsweredInTurn(cfg, scripts, start);
    assert forall i | 0 <= i < n :: life[..n][..i] == life[..i];
    ServedPrefix(log, [], life, n);
    NothingSkippedFrom(cfg, log, start, start, 0, Reading(false, [], None, {}), life[..n]);
  }

  lemma {:induction false} ServedPrefix(log: seq<int>, pending: seq<int>, trace: seq<Observation>, n: nat)
    requires n <= |trace| && ServedFrom(log, pending, trace)
    ensures ServedFrom(log, pending, trace[..n])
    decreases n
  {
    if n > 0 {
      var x, t := trace[0], trace[1..];
      assert trace[..n][0] == x && trace[..n][1..] == t[..n - 1];
      match x
      case Connected(hint) => ServedPrefix(log, Above(log, hint.GetOr(0)), t, n - 1);
      case Fed(s) => ServedPrefix(log, pending[1..], t, n - 1);
      case _ => ServedPrefix(log, pending, t, n - 1);
    }
  }

  // ---- Failed events ----

  lemma {:induction false} CursorBelowIff(cursor: int, trace: seq<Observation>, s: int)
    ensures CursorAfter(cursor, trace) < s <==>
      cursor < s && forall o | o in trace && o.Answered? && o.outcome != Errored :: o.seqNo < s
  {
    if trace != [] {
      var front, o := trace[..|trace| - 1], trace[|trace| - 1];
      CursorBelowIff(cursor, front, s);
      assert trace == front + [o];
      assert forall x :: x in trace <==> x in front || x == o;
    }
  }

  /**
   An event of the log, failed or not, is offered again by a connection exactly when it is above the
   starting cursor and no event at or after it was dispatched without an error before that connection.
   So a failed event is lost as soon as a later one succeeds.
   */
  lemma OfferedAgainIff(cfg: Config, scripts: seq<seq<Attempt>>, start: int, log: seq<int>, n: nat, s: int)
    requires Increasing(log) && s in log
    requires n < |LifeTrace(cfg, scripts, start)| && LifeTrace(cfg, scripts, start)[n].Connected?
    ensures var life := LifeTrace(cfg, scripts, start);
      var hint := life[n].hint;
      s in Above(log, hint.GetOr(0)) <==>
        start < s && forall o | o in life[..n] && o.Answered? && o.outcome != Errored :: o.seqNo < s
  {
    var life := LifeTrace(cfg, scripts, start);
    LifeIsLawful(cfg, scripts, start, 0);
    assert Lawful(cfg, CursorAfter(start, life[..n]), SleepsAfter(0, life[..n]), life[n]);
    AboveIs(log, CursorAfter(start, life[..n]));
    CursorBelowIff(start, life[..n], s);
  }

  const LOSING_CONFIG := Config(SSE, 1.0, 30.0)
  const LOSING_FRAMES := [Event(1, Completed(Errored)), Event(2, Completed(Handled))]
  const LOSING_ATTEMPT := Attempt(LOSING_FRAMES, Ended, false, 0.0, false)
  const LAST_ATTEMPT := Attempt([], Ended, true, 0.0, false)

  const LOSING_HEAD: seq<Observation> := [Connected(None), Fed(1), Answered(1, Errored), Fed(2), Answered(2, Handled)]

  lemma LosingHead()
    ensures AttemptTrace(LOSING_CONFIG, LOSING_ATTEMPT, 0) == LOSING_HEAD
    ensures CursorAfter(0, LOSING_HEAD) == 2
  {
    var frames := LOSING_ATTEMPT.frames;
    assert frames[1..] == [Event(2, Completed(Handled))] && frames[1..][1..] == [];
    assert FramesTrace(frames[1..]) == [Fed(2), Answered(2, Handled)];
    var front := LOSING_HEAD[..4];
    CursorBelowIff(0, front, 1);
    assert forall o | o in front :: !Passes(o);
  }

  /** A failed event that no connection offers again: 1 fails, 2 succeeds, the connection is cut. */
  lemma FailedEventCanBeLost()
    ensures LifeTrace(LOSING_CONFIG, [[LOSING_ATTEMPT, LAST_ATTEMPT]], 0)
      == [Started] + LOSING_HEAD + [Slept(1.0, 1.0), Connected(Some(2))]
    ensures ServedFrom([1, 2], [], LifeTrace(LOSING_CONFIG, [[LOSING_ATTEMPT, LAST_ATTEMPT]], 0))
    ensures 1 in [1, 2] && 1 !in Above([1, 2], 2)
  {
    LosingHead();
    var script := [LOSING_ATTEMPT, LAST_ATTEMPT];
    var scripts: seq<seq<Attempt>> := [script];
    assert script[1..] == [LAST_ATTEMPT] && scripts[1..] == [];
    assert LoopTrace(LOSING_CONFIG, [LAST_ATTEMPT], 2, 2.0, false) == [Connected(Some(2))];
    assert Delay(1.0, 0.0) == 1.0;
    var t: seq<Observation> := [Started] + LOSING_HEAD + [Slept(1.0, 1.0), Connected(Some(2))];
    assert RunTrace(LOSING_CONFIG, script, 0, false) == t;
    LosingServer(t);
  }

  lemma LosingServer(t: seq<Observation>)
    requires t == [Started] + LOSING_HEAD + [Slept(1.0, 1.0), Connected(Some(2))]
    ensures ServedFrom([1, 2], [], t)
    ensures 1 !in Above([1, 2], 2)
  {
    assert [1, 2][1..] == [2];
    assert Above([2], 0) == [2] && Above([1, 2], 0) == [1, 2] && Above([1, 2], 2) == [];
    assert forall i | 0 <= i < |t| :: t[i..][1..] == t[i + 1..];
    assert ServedFrom([1, 2], [], t[6..]);
    assert ServedFrom([1, 2], [], t[5..]);
    assert ServedFrom([1, 2], [2], t[4..]);
    assert ServedFrom([1, 2], [2], t[3..]);
    assert ServedFrom([1, 2], [1, 2], t[2..]);
  }
}
