/** The SSE and WebSocket sources: read, feed, advance the cursor, reconnect from it. */
module StreamSources {
  import opened Common
  import opened Backoff
  import opened Clocks
  import opened Cursors
  import opened StreamTraces

  /** The calls grew, and only by calls for the given pair. */
  ghost predicate OnlyAdds(before: seq<Advanced>, after: seq<Advanced>, subscription: string, transport: Transport) {
    && |before| <= |after| && after[..|before|] == before
    && forall i | |before| <= i < |after| :: Mine(after[i], subscription, transport)
  }

  lemma OnlyAddsMore(a: seq<Advanced>, b: seq<Advanced>, c: seq<Advanced>, subscription: string, transport: Transport)
    requires OnlyAdds(a, b, subscription, transport) && OnlyAdds(b, c, subscription, transport)
    ensures OnlyAdds(a, c, subscription, transport)
  {
    assert forall i | 0 <= i < |b| :: c[i] == c[..|b|][i];
  }

  /** A source moves no cursor but its own. */
  lemma {:induction false} OthersKept(before: seq<Advanced>, after: seq<Advanced>, mine: (string, Transport),
      other: (string, Transport))
    requires OnlyAdds(before, after, mine.0, mine.1) && mine != other
    ensures Cursor(after, other.0, other.1) == Cursor(before, other.0, other.1)
    decreases |after|
  {
    if |after| == |before| {
      assert after == before;
    } else {
      var front := after[..|after| - 1];
      assert front[..|before|] == before;
      OthersKept(before, front, mine, other);
      assert Mine(after[|after| - 1], mine.0, mine.1);
    }
  }

  lemma AfterFed(cursor: int, seqNo: int, o: Observation)
    ensures CursorAfter(cursor, [Fed(seqNo), o]) == if Passes(o) then Max(cursor, o.seqNo) else cursor
  {
    AfterAppend(cursor, 0, [Fed(seqNo)], [o]);
    assert [Fed(seqNo)] + [o] == [Fed(seqNo), o];
    assert [Fed(seqNo)][..0] == [] && [o][..0] == [];
  }

  lemma FramesMore(trace: seq<Observation>, left: seq<Frame>, fed: seq<Observation>)
    requires left != [] && left[0].Event?
    requires fed == [Fed(left[0].seqNo),
      if left[0].reply.Raised? then FeedRaised(left[0].seqNo) else Answered(left[0].seqNo, left[0].reply.outcome)]
    ensures trace + FramesTrace(left) == trace + fed + (if left[0].reply.Raised? then [] else FramesTrace(left[1..]))
  {
  }

  /** The trace made so far, with what the loop has still to do, is the whole trace. */
  ghost predicate OnTrack(cfg: Config, whole: seq<Observation>, sofar: seq<Observation>, script: seq<Attempt>,
                          cursor: int, backoff: real, closed: bool, going: bool) {
    whole == if going then sofar + LoopTrace(cfg, script, cursor, backoff, closed) else sofar
  }

  lemma TurnOnTrack(cfg: Config, whole: seq<Observation>, sofar: seq<Observation>, script: seq<Attempt>, cursor: int,
                    backoff: real, turn: seq<Observation>, cursor': int, backoff': real, closed': bool, going': bool)
    requires script != [] && OnTrack(cfg, whole, sofar, script, cursor, backoff, false, true)
    requires IsTurn(cfg, script[0], cursor, backoff, turn, cursor', backoff', closed', going')
    ensures OnTrack(cfg, whole, sofar + turn, script[1..], cursor', backoff', closed', going')
  {
  }

  /** What one connection and the sleep after it come to. */
  ghost predicate IsTurn(cfg: Config, a: Attempt, cursor: int, backoff: real,
                         turn: seq<Observation>, cursor': int, backoff': real, closed': bool, going': bool) {
    var head := AttemptTrace(cfg, a, cursor);
    var base := if GotEvent(a.frames) then cfg.minBackoff else backoff;
    && cursor' == CursorAfter(cursor, head)
    && going' == !(Escapes(a.frames, a.ending) || a.closes)
    && (!going' ==> turn == head)
    && (going' ==> turn == head + [Slept(base, Delay(base, a.jitter))]
                   && backoff' == Next(base, cfg.maxBackoff) && closed' == a.closesAsleep)
  }

  lemma TurnCursor(cfg: Config, start: int, sofar: seq<Observation>, a: Attempt, backoff: real,
                   turn: seq<Observation>, cursor': int, backoff': real, closed': bool, going': bool)
    requires IsTurn(cfg, a, CursorAfter(start, sofar), backoff, turn, cursor', backoff', closed', going')
    ensures CursorAfter(start, sofar + turn) == cursor'
  {
    AfterAppend(start, 0, sofar, turn);
    if going' {
      assert turn[..|turn| - 1] == AttemptTrace(cfg, a, CursorAfter(start, sofar));
    }
  }

  class StreamSource {
    const cursors: CursorStore
    const subscription: string
    const config: Config
    var closed: bool

    constructor (cursors: CursorStore, subscription: string, config: Config)
      ensures this.cursors == cursors && this.subscription == subscription && this.config == config && !closed
    {
      this.cursors, this.subscription, this.config := cursors, subscription, config;
      closed := false;
    }

    /** The stored cursor of this source. */
    ghost function Position(): int
      reads cursors
    {
      Cursor(cursors.calls, subscription, config.transport)
    }

    method Close()
      modifies this`closed
      ensures closed
    {
      closed := true;
    }

    /** Feed one event, and move the cursor past it unless that came to Errored. */
    method FeedOne(seqNo: int, reply: FeedReply) returns (trace: seq<Observation>)
      requires cursors.Valid()
      modifies cursors`calls, cursors.storage, cursors.storage.clock
      ensures cursors.Valid() && OnlyAdds(old(cursors.calls), cursors.calls, subscription, config.transport)
      ensures trace == [Fed(seqNo), if reply.Raised? then FeedRaised(seqNo) else Answered(seqNo, reply.outcome)]
      ensures Position() == CursorAfter(old(Position()), trace)
    {
      trace := [Fed(seqNo)];
      if reply.Raised? {
        AfterFed(Position(), seqNo, FeedRaised(seqNo));
        return trace + [FeedRaised(seqNo)];
      }
      AfterFed(Position(), seqNo, Answered(seqNo, reply.outcome));
      trace := trace + [Answered(seqNo, reply.outcome)];
      if reply.outcome == Errored {
        return;
      }
      cursors.Advance(subscription, config.transport, seqNo);
      assert cursors.calls[..|cursors.calls| - 1] == old(cursors.calls);
    }

    /** Feed what one connection delivers, up to the first malformed frame or raised exception. */
    method Consume(frames: seq<Frame>, ending: Ending) returns (trace: seq<Observation>, escaped: bool)
      requires cursors.Valid()
      modifies cursors`calls, cursors.storage, cursors.storage.clock
      ensures cursors.Valid() && OnlyAdds(old(cursors.calls), cursors.calls, subscription, config.transport)
      ensures trace == FramesTrace(frames)
      ensures Position() == CursorAfter(old(Position()), trace)
      ensures escaped == Escapes(frames, ending)
    {
      trace := [];
      ghost var start := Position();
      var left := frames;
      while left != [] && left[0].Event?
        invariant cursors.Valid() && OnlyAdds(old(cursors.calls), cursors.calls, subscription, config.transport)
        invariant trace + FramesTrace(left) == FramesTrace(frames)
        invariant Position() == CursorAfter(start, trace)
        invariant Escapes(left, ending) == Escapes(frames, ending)
        decreases |left|
      {
        var event := left[0];
        ghost var calls := cursors.calls;
        var fed := FeedOne(event.seqNo, event.reply);
        OnlyAddsMore(old(cursors.calls), calls, cursors.calls, subscription, config.transport);
        AfterAppend(start, 0, trace, fed);
        FramesMore(trace, left, fed);
        trace := trace + fed;
        if event.reply.Raised? {
          return trace, true;
        }
        left := left[1..];
      }
      escaped := left == [] && ending.Crashed?;
    }

    /** One connection, from reading the cursor to the last event fed. */
    method Connect(attempt: Attempt) returns (trace: seq<Observation>, escaped: bool)
      requires cursors.Valid()
      modifies cursors`calls, cursors.storage, cursors.storage.clock
      ensures cursors.Valid() && OnlyAdds(old(cursors.calls), cursors.calls, subscription, config.transport)
      ensures trace == AttemptTrace(config, attempt, old(Position()))
      ensures Position() == CursorAfter(old(Position()), trace)
      ensures escaped == Escapes(attempt.frames, attempt.ending)
    {
      var cursor := cursors.Get(subscription, config.transport);
      var hint := if config.transport == SSE && cursor == 0 then None else Some(cursor);
      var read, raised := Consume(attempt.frames, attempt.ending);
      trace, escaped := [Connected(hint)] + read, raised;
      assert [Connected(hint)][..0] == [];
      AfterAppend(cursor, 0, [Connected(hint)], read);
    }

    /** One connection and the sleep after it. `going` tells that the loop goes on. */
    method Turn(attempt: Attempt, backoff: real) returns (trace: seq<Observation>, going: bool, backoff': real)
      requires cursors.Valid() && !closed
      modifies this`closed, cursors`calls, cursors.storage, cursors.storage.clock
      ensures cursors.Valid() && OnlyAdds(old(cursors.calls), cursors.calls, subscription, config.transport)
      ensures IsTurn(config, attempt, old(Position()), backoff, trace, Position(), backoff', closed, going)
    {
      var raised;
      trace, raised := Connect(attempt);
      backoff' := if |trace| > 1 then config.minBackoff else backoff;
      closed := attempt.closes;
      going := !(raised || closed);
      if going {
        trace := trace + [Slept(backoff', Delay(backoff', attempt.jitter))];
        backoff' := Next(backoff', config.maxBackoff);
        closed := attempt.closesAsleep;
      }
    }

    /** Reconnect for ever, here for as long as the script goes on. */
    method Run(script: seq<Attempt>) returns (trace: seq<Observation>)
      requires cursors.Valid()
      modifies this`closed, cursors`calls, cursors.storage, cursors.storage.clock
      ensures cursors.Valid() && OnlyAdds(old(cursors.calls), cursors.calls, subscription, config.transport)
      ensures trace == RunTrace(config, script, old(Position()), old(closed))
      ensures Makes(script, old(closed), |Connections(trace)|)
      ensures forall i | 0 <= i < |Connections(trace)| :: IsConnection(script[i], Connections(trace)[i])
      ensures Position() == CursorAfter(old(Position()), trace)
    {
      RunConnectsIff(config, script, Position(), closed);
      trace := [Started];
      var backoff := config.minBackoff;
      ghost var start := Position();
      ghost var whole := RunTrace(config, script, start, closed);
      assert trace[..0] == [];
      var left, going := script, true;
      while left != [] && !closed && going
        invariant cursors.Valid() && OnlyAdds(old(cursors.calls), cursors.calls, subscription, config.transport)
        invariant OnTrack(config, whole, trace, left, Position(), backoff, closed, going)
        invariant Position() == CursorAfter(start, trace)
        decreases |left|
      {
        ghost var position, calls, before := Position(), cursors.calls, backoff;
        var turn;
        turn, going, backoff := Turn(left[0], backoff);
        TurnCursor(config, start, trace, left[0], before, turn, Position(), backoff, closed, going);
        TurnOnTrack(config, whole, trace, left, position, before, turn, Position(), backoff, closed, going);
        OnlyAddsMore(old(cursors.calls), calls, cursors.calls, subscription, config.transport);
        trace, left := trace + turn, left[1..];
      }
    }
  }
}
