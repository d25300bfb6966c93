/**
 Sources behind the idempotency middleware: what happens to an event that comes again while its mark
 holds, whether its handler failed or not.
 */
module Redelivery {
  import opened Common
  import opened Events
  import opened Backoff
  import opened Logs
  import opened Handlers
  import opened Chains
  import opened Idempotency
  import Dedup
  import Dispatch
  import Routers
  import TimedMap
  import PollTraces
  import StreamTraces

  /** The deduplication key of an event that a source decodes: it carries no key of its own. */
  function SourceKey(subscription: string, seqNo: int): string {
    subscription + ":" + Decimal(seqNo)
  }

  /** This is the key the middleware chooses on the data the dispatcher puts together. */
  lemma SourceKeyIsChosen(seqNo: int, eventType: string, body: Data, transport: Transport,
                          account: Dispatch.AccountContext, payload: Option<Value>)
    ensures var event := ClientEvent(seqNo, eventType, body, transport, None, None);
      DedupKey(event, Dispatch.BaseData(account, payload)) == SourceKey(account.subscriptionId, seqNo)
  {
  }

  /**
   With the idempotency middleware outermost, feeding an event whose key is marked and in date answers
   Duplicate: whatever middlewares and handlers there are inside, none runs. Any other event is marked
   and goes on to them. This is `Dispatcher.Feed` with that outer chain.
   */
  lemma DuplicateReachesNoHandler<V>(
    ttl: Option<real>, at: TimedMap.Readings, rest: seq<Middleware<(V, MarkMap), DispatchResult>>,
    inner: seq<Middleware<(V, MarkMap), Value>>, handlers: seq<Routers.HandlerObject<(V, MarkMap)>>,
    event: ClientEvent, account: Dispatch.AccountContext, payload: Option<Value>, w: V, marks: MarkMap)
    ensures var data := Dispatch.BaseData(account, payload);
      var key := DedupKey(event, data);
      var core := Dispatch.WalkHandler(inner, handlers);
      Chain([AsMiddleware(DedupLayer(ttl, at))] + rest, core)(event, data, (w, marks)) ==
        if TimedMap.Live(marks, key, at.check) then (Returned(DispatchResult(Duplicate, event, None)), (w, marks))
        else Chain(rest, core)(event, data, (w, marks[key := TimedMap.Fresh(true, ttl, at.write)]))
  {
    var core := Dispatch.WalkHandler(inner, handlers);
    ChainCons(AsMiddleware(DedupLayer(ttl, at)), rest, core);
    DedupLayerIs(ttl, at, Chain(rest, core), event, Dispatch.BaseData(account, payload), w, marks);
  }

  /** The arrival at `n` is that of an event of the subscription, and gets the given reply. */
  ghost predicate Fed(ttl: Option<real>, run: seq<Dedup.Action>, subscription: string, n: nat, seqNo: int,
      reply: FeedReply) {
    && n < |run| && run[n].Arrive? && run[n].key == SourceKey(subscription, seqNo)
    && Dedup.ReplyTo(ttl, run, n) == Some(reply)
  }

  /** Clock readings never go back, and the ttl is not negative. */
  ghost predicate Timely(ttl: Option<real>, run: seq<Dedup.Action>) {
    Dedup.Timely(run) && (ttl.Some? ==> ttl.value >= 0.0)
  }

  lemma AgainIsDuplicate(ttl: Option<real>, run: seq<Dedup.Action>, subscription: string, seqNo: int,
                         first: nat, before: FeedReply, second: nat, reply: FeedReply)
    requires Timely(ttl, run) && Dedup.AgainInTime(ttl, run, first, second)
    requires Fed(ttl, run, subscription, first, seqNo, before) && Fed(ttl, run, subscription, second, seqNo, reply)
    ensures Dedup.TurnedAway(ttl, run, second) && reply == Completed(Duplicate)
  {
    Dedup.SecondArrivalTurnedAway(ttl, run, first, second);
  }

  // ---- Polling ----

  /** The items of a batch are fed in order at the given arrivals, among those of any other tasks. */
  ghost predicate Pass(ttl: Option<real>, run: seq<Dedup.Action>, subscription: string,
                       items: seq<PollTraces.Item>, at: seq<nat>) {
    && |at| == |items|
    && forall i | 0 <= i < |items| :: Fed(ttl, run, subscription, at[i], items[i].seqNo, items[i].reply)
  }

  /**
   A batch that was fed through the idempotency middleware, with whatever outcomes, and is fetched
   again unchanged in auto mode while its marks hold, is confirmed, and none of its events enters a
   handler again. In between, and in the middle of either pass, any other task may act.
   */
  lemma RefetchedBatchIsConfirmed(
    ttl: Option<real>, run: seq<Dedup.Action>, subscription: string, cfg: PollTraces.Config,
    items: seq<PollTraces.Item>, first: seq<nat>,
    batch: PollTraces.Poll, second: seq<nat>, later: seq<PollTraces.Poll>)
    requires Timely(ttl, run) && cfg.confirm == PollTraces.Auto && batch.Fetched? && batch.items != []
    requires Pass(ttl, run, subscription, items, first) && Pass(ttl, run, subscription, batch.items, second)
    requires |items| == |batch.items| && forall i | 0 <= i < |items| :: items[i].seqNo == batch.items[i].seqNo
    requires forall i | 0 <= i < |items| :: Dedup.AgainInTime(ttl, run, first[i], second[i])
    ensures forall i | 0 <= i < |second| :: Dedup.TurnedAway(ttl, run, second[i])
    ensures var confirms := PollTraces.Confirms(PollTraces.RunTrace(cfg, [batch] + later));
      confirms != [] && confirms[0] == batch.nextSeq
  {
    forall i | 0 <= i < |second|
      ensures Dedup.TurnedAway(ttl, run, second[i]) && batch.items[i].reply == Completed(Duplicate)
    {
      AgainIsDuplicate(ttl, run, subscription, items[i].seqNo, first[i], items[i].reply, second[i],
        batch.items[i].reply);
    }
    CleanIsConfirmed(cfg, batch, later);
  }

  lemma CleanIsConfirmed(cfg: PollTraces.Config, batch: PollTraces.Poll, later: seq<PollTraces.Poll>)
    requires PollTraces.Clean(cfg, batch)
    ensures var confirms := PollTraces.Confirms(PollTraces.RunTrace(cfg, [batch] + later));
      confirms != [] && confirms[0] == batch.nextSeq
  {
    var script := [batch] + later;
    PollTraces.FeedsAndConfirms(cfg, script, cfg.interval);
    var n := PollTraces.FullyFed(cfg, script);
    assert script[..n] == [batch] + script[1..n];
    PollTraces.ItemsCons(cfg, batch, script[1..n]);
  }

  // ---- SSE and WebSocket ----

  function ReplySeen(o: StreamTraces.Observation): Option<FeedReply> {
    match o
    case Answered(_, outcome) => Some(Completed(outcome))
    case FeedRaised(_) => Some(Raised)
    case _ => None
  }

  /** Every event that the trace feeds arrives at the middleware, among the arrivals of any other tasks,
      and what the trace sees next is the reply to it. */
  ghost predicate Behind(ttl: Option<real>, run: seq<Dedup.Action>, subscription: string,
                         trace: seq<StreamTraces.Observation>, at: seq<nat>) {
    && |at| == |trace|
    && forall i | 0 <= i < |trace| - 1 && trace[i].Fed? && ReplySeen(trace[i + 1]).Some? ::
      Fed(ttl, run, subscription, at[i], trace[i].seqNo, ReplySeen(trace[i + 1]).value)
  }

  /**
   An event whose handler failed at `p` and that a connection offers again at `q`, while its mark
   holds, is answered with Duplicate without entering a handler. So the cursor passes it, and no later
   connection offers it again: its handler is never run for it again, even if no later event succeeds.
   */
  lemma FailedEventIsPassedOver(ttl: Option<real>, run: seq<Dedup.Action>, subscription: string,
                                cfg: StreamTraces.Config, scripts: seq<seq<StreamTraces.Attempt>>, start: int,
                                log: seq<int>, at: seq<nat>, p: nat, q: nat, n: nat)
    requires Timely(ttl, run) && Behind(ttl, run, subscription, StreamTraces.LifeTrace(cfg, scripts, start), at)
    requires var life := StreamTraces.LifeTrace(cfg, scripts, start);
      && p + 1 < q < |life| && q + 1 < n <= |life|
      && life[p].Fed? && life[q] == life[p] && life[p + 1] == StreamTraces.Answered(life[p].seqNo, Errored)
    requires Dedup.AgainInTime(ttl, run, at[p], at[q])
    requires Increasing(log)
    ensures var life := StreamTraces.LifeTrace(cfg, scripts, start);
      var s := life[p].seqNo;
      && Dedup.TurnedAway(ttl, run, at[q]) && life[q + 1] == StreamTraces.Answered(s, Duplicate)
      && s <= StreamTraces.CursorAfter(start, life[..n])
      && (n < |life| && life[n].Connected? ==> s !in Above(log, life[n].hint.GetOr(0)))
  {
    var life := StreamTraces.LifeTrace(cfg, scripts, start);
    var s := life[p].seqNo;
    StreamTraces.LifeAnsweredInTurn(cfg, scripts, start);
    AgainIsDuplicate(ttl, run, subscription, s, at[p], Completed(Errored), at[q], ReplySeen(life[q + 1]).value);
    assert life[..n][q + 1] in life[..n];
    StreamTraces.CursorBelowIff(start, life[..n], s);
    if n < |life| && life[n].Connected? && s in log {
      StreamTraces.OfferedAgainIff(cfg, scripts, start, log, n, s);
    }
    AboveIs(log, if n < |life| && life[n].Connected? then life[n].hint.GetOr(0) else 0);
  }
}
