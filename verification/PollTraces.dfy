/**
 What a polling source does, as a trace of observations.

 The environment is a script: what each fetch gives, how the dispatcher answers each item, and
 whether a call raises. An exception leaves the loop, so the trace ends with it.
 */
module PollTraces {
  import opened Common
  import opened Backoff

  datatype Item = Item(seqNo: int, reply: FeedReply)

  datatype Poll =
    | FetchRaised
    | Fetched(items: seq<Item>, nextSeq: int, drained: bool, confirmRaises: bool)

  datatype ConfirmMode = Auto | Manual

  datatype Config = Config(interval: real, emptyBackoffMax: real, confirm: ConfirmMode)

  datatype Observation = Polled | Fed(item: Item) | Confirmed(upTo: int) | Slept(delay: real)

  predicate AnyRaised(items: seq<Item>) {
    exists i | 0 <= i < |items| :: items[i].reply.Raised?
  }

  predicate AnyErrored(items: seq<Item>) {
    exists i | 0 <= i < |items| :: items[i].reply == Completed(Errored)
  }

  /** The items that are fed: all of them, or those up to the first that makes the dispatcher raise. */
  function Tried(items: seq<Item>): seq<Item> {
    if items == [] then [] else if items[0].reply.Raised? then [items[0]] else [items[0]] + Tried(items[1..])
  }

  function FeedTrace(items: seq<Item>): seq<Observation> {
    if items == [] then [] else [Fed(items[0])] + FeedTrace(items[1..])
  }

  /** A batch that is to be confirmed once all of it was fed. */
  predicate Clean(cfg: Config, p: Poll) {
    cfg.confirm == Auto && p.Fetched? && p.items != [] && !AnyRaised(p.items) && !AnyErrored(p.items)
  }

  function NextSleep(cfg: Config, current: real, p: Poll): real
    requires p.Fetched?
  {
    if p.items != [] then cfg.interval else Next(current, cfg.emptyBackoffMax)
  }

  function BatchTrace(cfg: Config, p: Poll): seq<Observation> {
    if p.FetchRaised? then [Polled]
    else [Polled] + FeedTrace(Tried(p.items)) + (if Clean(cfg, p) then [Confirmed(p.nextSeq)] else [])
  }

  predicate Stops(cfg: Config, p: Poll) {
    p.FetchRaised? || AnyRaised(p.items) || (Clean(cfg, p) && p.confirmRaises)
  }

  function SleepTrace(p: Poll, delay: real): seq<Observation>
    requires p.Fetched?
  {
    if p.drained then [Slept(delay)] else []
  }

  function LoopTrace(cfg: Config, script: seq<Poll>, sleepFor: real): seq<Observation>
    decreases |script|
  {
    if script == [] then []
    else if Stops(cfg, script[0]) then BatchTrace(cfg, script[0])
    else
      var sleepFor' := NextSleep(cfg, sleepFor, script[0]);
      BatchTrace(cfg, script[0]) + SleepTrace(script[0], sleepFor') + LoopTrace(cfg, script[1..], sleepFor')
  }

  function RunTrace(cfg: Config, script: seq<Poll>): seq<Observation> {
    LoopTrace(cfg, script, cfg.interval)
  }

  // ---- Reading a trace ----

  function FeedOf(o: Observation): seq<Item> {
    if o.Fed? then [o.item] else []
  }

  function Feeds(trace: seq<Observation>): seq<Item> {
    if trace == [] then [] else FeedOf(trace[0]) + Feeds(trace[1..])
  }

  function ConfirmOf(o: Observation): seq<int> {
    if o.Confirmed? then [o.upTo] else []
  }

  function Confirms(trace: seq<Observation>): seq<int> {
    if trace == [] then [] else ConfirmOf(trace[0]) + Confirms(trace[1..])
  }

  lemma {:induction false} FeedsAppend(a: seq<Observation>, b: seq<Observation>)
    ensures Feeds(a + b) == Feeds(a) + Feeds(b)
  {
    if a == [] {
      assert a + b == b;
    } else {
      assert (a + b)[0] == a[0] && (a + b)[1..] == a[1..] + b;
      FeedsAppend(a[1..], b);
      Associates(FeedOf(a[0]), Feeds(a[1..]), Feeds(b));
    }
  }

  lemma {:induction false} ConfirmsAppend(a: seq<Observation>, b: seq<Observation>)
    ensures Confirms(a + b) == Confirms(a) + Confirms(b)
  {
    if a == [] {
      assert a + b == b;
    } else {
      assert (a + b)[0] == a[0] && (a + b)[1..] == a[1..] + b;
      ConfirmsAppend(a[1..], b);
      Associates(ConfirmOf(a[0]), Confirms(a[1..]), Confirms(b));
    }
  }

  lemma ReadAppend(a: seq<Observation>, b: seq<Observation>)
    ensures Feeds(a + b) == Feeds(a) + Feeds(b)
    ensures Confirms(a + b) == Confirms(a) + Confirms(b)
  {
    FeedsAppend(a, b);
    ConfirmsAppend(a, b);
  }

  lemma {:induction false} ReadFeeds(items: seq<Item>)
    ensures Feeds(FeedTrace(items)) == items && Confirms(FeedTrace(items)) == []
    ensures forall o | o in FeedTrace(items) :: o.Fed?
  {
    if items != [] {
      ReadFeeds(items[1..]);
    }
  }

  lemma ReadBatch(cfg: Config, p: Poll)
    ensures Feeds(BatchTrace(cfg, p)) == if p.Fetched? then Tried(p.items) else []
    ensures Confirms(BatchTrace(cfg, p)) == if Clean(cfg, p) then [p.nextSeq] else []
  {
    if p.Fetched? {
      var feeds := FeedTrace(Tried(p.items));
      var confirm := if Clean(cfg, p) then [Confirmed(p.nextSeq)] else [];
      ReadFeeds(Tried(p.items));
      ReadAppend([Polled], feeds);
      ReadAppend([Polled] + feeds, confirm);
    }
  }

  lemma {:induction false} TriedAll(items: seq<Item>)
    ensures !AnyRaised(items) ==> Tried(items) == items
  {
    if items != [] {
      TriedAll(items[1..]);
      assert forall i | 0 <= i < |items[1..]| :: items[1..][i] == items[i + 1];
    }
  }

  // ---- What a run feeds and confirms ----

  /** How many fetches came back and were fed to the end. */
  function FullyFed(cfg: Config, script: seq<Poll>): nat
    ensures FullyFed(cfg, script) <= |script|
    decreases |script|
  {
    if script == [] || script[0].FetchRaised? || AnyRaised(script[0].items) then 0
    else if Stops(cfg, script[0]) then 1
    else 1 + FullyFed(cfg, script[1..])
  }

  /** The items of the batch in which the dispatcher raised, up to the one that made it raise. */
  function Broken(cfg: Config, script: seq<Poll>): seq<Item>
    decreases |script|
  {
    if script == [] || script[0].FetchRaised? then []
    else if Stops(cfg, script[0]) then (if AnyRaised(script[0].items) then Tried(script[0].items) else [])
    else Broken(cfg, script[1..])
  }

  function ItemsOf(polls: seq<Poll>): seq<Item> {
    if polls == [] then []
    else (if polls[0].Fetched? then polls[0].items else []) + ItemsOf(polls[1..])
  }

  function ConfirmsOf(cfg: Config, polls: seq<Poll>): seq<int> {
    if polls == [] then []
    else (if Clean(cfg, polls[0]) then [polls[0].nextSeq] else []) + ConfirmsOf(cfg, polls[1..])
  }

  /**
   Every item of every batch is fed once, in order, and the confirm calls are exactly the `nextSeq`
   of the non-empty batches in which nothing came to Errored, none of them in manual mode. When the
   dispatcher raises, the items up to that one are fed and the batch is not confirmed.
   */
  lemma {:induction false} FeedsAndConfirms(cfg: Config, script: seq<Poll>, sleepFor: real)
    ensures Feeds(LoopTrace(cfg, script, sleepFor)) == ItemsOf(script[..FullyFed(cfg, script)]) + Broken(cfg, script)
    ensures Confirms(LoopTrace(cfg, script, sleepFor)) == ConfirmsOf(cfg, script[..FullyFed(cfg, script)])
    decreases |script|
  {
    if script != [] {
      if Stops(cfg, script[0]) {
        LastFeedsAndConfirms(cfg, script, sleepFor);
      } else {
        var p, rest, n := script[0], script[1..], FullyFed(cfg, script);
        var sleepFor' := NextSleep(cfg, sleepFor, p);
        FeedsAndConfirms(cfg, rest, sleepFor');
        ReadTurn(cfg, p, sleepFor', LoopTrace(cfg, rest, sleepFor'));
        assert script[..n] == [p] + rest[..n - 1];
        ItemsCons(cfg, p, rest[..n - 1]);
        Associates(p.items, ItemsOf(rest[..n - 1]), Broken(cfg, rest));
      }
    }
  }

  lemma Associates<T>(a: seq<T>, b: seq<T>, c: seq<T>)
    ensures a + (b + c) == (a + b) + c
  {
  }

  lemma LastFeedsAndConfirms(cfg: Config, script: seq<Poll>, sleepFor: real)
    requires script != [] && Stops(cfg, script[0])
    ensures Feeds(LoopTrace(cfg, script, sleepFor)) == ItemsOf(script[..FullyFed(cfg, script)]) + Broken(cfg, script)
    ensures Confirms(LoopTrace(cfg, script, sleepFor)) == ConfirmsOf(cfg, script[..FullyFed(cfg, script)])
  {
    var p := script[0];
    ReadBatch(cfg, p);
    ItemsCons(cfg, p, []);
    assert script[..1] == [p] + [] && script[..0] == [];
    if p.Fetched? {
      TriedAll(p.items);
    }
  }

  // ---- What each fetch is followed by ----

  /** Feeding the items stops at `n`: after the last one, or after one that makes the dispatcher raise. */
  ghost predicate FeedsUpTo(items: seq<Item>, n: nat) {
    && n <= |items| && (forall k | 0 <= k < n - 1 :: items[k].reply.Completed?)
    && (n < |items| ==> n > 0 && items[n - 1].reply == Raised)
  }

  /** There are items, and none made the dispatcher raise or came to an error. */
  ghost predicate AllWell(items: seq<Item>) {
    items != [] && forall k | 0 <= k < |items| :: items[k].reply.Completed? && items[k].reply.outcome != Errored
  }

  ghost predicate MustConfirm(cfg: Config, p: Poll) {
    cfg.confirm == Auto && p.Fetched? && AllWell(p.items)
  }

  /** No exception leaves the loop: not from the fetch, not from feeding an item, not from a confirm. */
  ghost predicate PollsAgain(cfg: Config, p: Poll) {
    && p.Fetched? && (forall k | 0 <= k < |p.items| :: p.items[k].reply.Completed?)
    && !(MustConfirm(cfg, p) && p.confirmRaises)
  }

  /** What is seen from one fetch to the next: the feeds, the confirm if there must be one, and a sleep if
      the server had no more and the loop goes on. */
  ghost predicate IsTurn(cfg: Config, p: Poll, part: seq<Observation>) {
    if p.FetchRaised? then part == []
    else exists n, delay :: FeedsUpTo(p.items, n) && part == TurnOf(cfg, p, n, delay)
  }

  ghost function TurnOf(cfg: Config, p: Poll, n: nat, delay: real): seq<Observation>
    requires p.Fetched? && n <= |p.items|
  {
    FeedTrace(p.items[..n])
    + (if MustConfirm(cfg, p) then [Confirmed(p.nextSeq)] else [])
    + (if PollsAgain(cfg, p) && p.drained then [Slept(delay)] else [])
  }

  /** `n` fetches are made: one more after each that no exception follows, for as long as the script goes
      on. */
  ghost predicate Makes(cfg: Config, script: seq<Poll>, n: nat) {
    && n <= |script| && (forall j | 0 <= j < n - 1 :: PollsAgain(cfg, script[j]))
    && (n < |script| ==> n > 0 && !PollsAgain(cfg, script[n - 1]))
  }

  function Upto(trace: seq<Observation>): seq<Observation> {
    if trace == [] || trace[0].Polled? then [] else [trace[0]] + Upto(trace[1..])
  }

  /** What follows each fetch, up to the next. */
  function Turns(trace: seq<Observation>): seq<seq<Observation>> {
    if trace == [] then []
    else (if trace[0].Polled? then [Upto(trace[1..])] else []) + Turns(trace[1..])
  }

  lemma {:induction false} UptoPoll(part: seq<Observation>, rest: seq<Observation>)
    requires forall o | o in part :: !o.Polled?
    requires rest == [] || rest[0].Polled?
    ensures Upto(part + rest) == part && Turns(part + rest) == Turns(rest)
  {
    if part == [] {
      assert part + rest == rest;
    } else {
      assert (part + rest)[1..] == part[1..] + rest;
      UptoPoll(part[1..], rest);
    }
  }

  lemma TurnsCons(part: seq<Observation>, rest: seq<Observation>)
    requires forall o | o in part :: !o.Polled?
    requires rest == [] || rest[0].Polled?
    ensures Turns([Polled] + part + rest) == [part] + Turns(rest)
  {
    assert ([Polled] + part + rest)[1..] == part + rest;
    UptoPoll(part, rest);
  }

  lemma {:induction false} TriedUpTo(items: seq<Item>) returns (n: nat)
    ensures FeedsUpTo(items, n) && Tried(items) == items[..n]
  {
    if items == [] {
      n := 0;
    } else if items[0].reply.Raised? {
      n := 1;
    } else {
      n := TriedUpTo(items[1..]);
      assert forall k | 0 <= k < |items[1..]| :: items[1..][k] == items[k + 1];
      n := n + 1;
      assert items[..n] == [items[0]] + items[1..][..n - 1];
    }
  }

  lemma CleanIff(cfg: Config, p: Poll)
    ensures Clean(cfg, p) <==> MustConfirm(cfg, p)
    ensures !Stops(cfg, p) <==> PollsAgain(cfg, p)
  {
  }

  lemma TurnStarts(cfg: Config, script: seq<Poll>, sleepFor: real) returns (part: seq<Observation>, sleepFor': real)
    requires script != []
    ensures IsTurn(cfg, script[0], part) && forall o | o in part :: !o.Polled?
    ensures var rest := if PollsAgain(cfg, script[0]) then LoopTrace(cfg, script[1..], sleepFor') else [];
      LoopTrace(cfg, script, sleepFor) == [Polled] + part + rest && (rest == [] || rest[0].Polled?)
  {
    var p := script[0];
    CleanIff(cfg, p);
    sleepFor', part := sleepFor, [];
    if p.Fetched? {
      var n := TriedUpTo(p.items);
      sleepFor' := NextSleep(cfg, sleepFor, p);
      part := TurnOf(cfg, p, n, sleepFor');
      ReadFeeds(p.items[..n]);
      BatchIsTurn(cfg, p, n, sleepFor');
    }
  }

  lemma BatchIsTurn(cfg: Config, p: Poll, n: nat, delay: real)
    requires p.Fetched? && n <= |p.items| && Tried(p.items) == p.items[..n]
    ensures [Polled] + TurnOf(cfg, p, n, delay) ==
      BatchTrace(cfg, p) + (if PollsAgain(cfg, p) then SleepTrace(p, delay) else [])
  {
    CleanIff(cfg, p);
  }

  /**
   Each fetch that comes back is followed by its items, fed in order up to the first that makes the
   dispatcher raise; then, exactly if the mode is automatic, there are items, and none of them raised or
   came to an error, by the confirm of its `nextSeq`; then, exactly if the server had no more, by a sleep;
   and then by the next fetch, unless an exception left the loop. Nothing else is done.
   */
  lemma {:induction false} RunFetchesIff(cfg: Config, script: seq<Poll>, sleepFor: real)
    ensures var turns := Turns(LoopTrace(cfg, script, sleepFor));
      Makes(cfg, script, |turns|) && forall i | 0 <= i < |turns| :: IsTurn(cfg, script[i], turns[i])
    decreases |script|
  {
    if script != [] {
      var later := script[1..];
      var part, sleepFor' := TurnStarts(cfg, script, sleepFor);
      var rest := if PollsAgain(cfg, script[0]) then LoopTrace(cfg, later, sleepFor') else [];
      TurnsCons(part, rest);
      RunFetchesIff(cfg, later, sleepFor');
      MakesOneMore(cfg, script, part, Turns(rest));
    }
  }

  lemma MakesOneMore(cfg: Config, script: seq<Poll>, part: seq<Observation>, rest: seq<seq<Observation>>)
    requires script != [] && IsTurn(cfg, script[0], part)
    requires if PollsAgain(cfg, script[0]) then Makes(cfg, script[1..], |rest|) else rest == []
    requires forall i | 0 <= i < |rest| :: IsTurn(cfg, script[1..][i], rest[i])
    ensures Makes(cfg, script, 1 + |rest|)
    ensures forall i | 0 <= i < 1 + |rest| :: IsTurn(cfg, script[i], ([part] + rest)[i])
  {
    var later := script[1..];
    forall j | 0 <= j < |rest|
      ensures PollsAgain(cfg, script[j])
    {
      assert j > 0 ==> script[j] == later[j - 1];
    }
    forall i | 0 <= i < 1 + |rest|
      ensures IsTurn(cfg, script[i], ([part] + rest)[i])
    {
      assert i > 0 ==> script[i] == later[i - 1];
    }
  }

  /** Up to the last fetch there is nothing but feeds that went well, and at least one. */
  ghost predicate AllWellSinceFetch(before: seq<Observation>) {
    exists j | 0 <= j < |before| - 1 :: before[j] == Polled && OnlyWellFed(before[j + 1..])
  }

  predicate OnlyWellFed(trace: seq<Observation>) {
    forall i | 0 <= i < |trace| :: trace[i].Fed? && trace[i].item.reply.Completed?
      && trace[i].item.reply.outcome != Errored
  }

  /** Wherever a confirm stands in a run, the mode is automatic, and between it and the fetch before it
      there are only feeds, at least one, and none that raised or came to an error. */
  lemma {:induction false} ConfirmedIsWell(cfg: Config, script: seq<Poll>, sleepFor: real, k: nat)
    requires k < |LoopTrace(cfg, script, sleepFor)| && LoopTrace(cfg, script, sleepFor)[k].Confirmed?
    ensures cfg.confirm == Auto && AllWellSinceFetch(LoopTrace(cfg, script, sleepFor)[..k])
    decreases |script|
  {
    var p := script[0];
    var trace, batch := LoopTrace(cfg, script, sleepFor), BatchTrace(cfg, p);
    if k < |batch| {
      ConfirmIsLast(cfg, p, k);
      FedWell(cfg, p, k);
      assert trace[..k] == batch[..k];
    } else {
      var head := batch + SleepTrace(p, NextSleep(cfg, sleepFor, p));
      var rest := LoopTrace(cfg, script[1..], NextSleep(cfg, sleepFor, p));
      SplitAt(head, rest, k);
      ConfirmedIsWell(cfg, script[1..], NextSleep(cfg, sleepFor, p), k - |head|);
      WellSinceLater(head, rest[..k - |head|]);
    }
  }

  lemma WellSinceLater(head: seq<Observation>, before: seq<Observation>)
    requires AllWellSinceFetch(before)
    ensures AllWellSinceFetch(head + before)
  {
    var j :| 0 <= j < |before| - 1 && before[j] == Polled && OnlyWellFed(before[j + 1..]);
    assert (head + before)[|head| + j] == Polled && (head + before)[|head| + j + 1..] == before[j + 1..];
  }

  lemma FedWell(cfg: Config, p: Poll, k: nat)
    requires k < |BatchTrace(cfg, p)| && BatchTrace(cfg, p)[k].Confirmed?
    requires p.Fetched? && Clean(cfg, p)
    ensures AllWellSinceFetch(BatchTrace(cfg, p)[..k])
  {
    TriedAll(p.items);
    FeedTraceAt(p.items);
    var batch := BatchTrace(cfg, p);
    assert batch == [Polled] + FeedTrace(p.items) + [Confirmed(p.nextSeq)];
    assert k == 1 + |p.items|;
    assert batch[..k][0] == Polled && batch[..k][1..] == FeedTrace(p.items);
  }

  lemma {:induction false} FeedTraceAt(items: seq<Item>)
    ensures |FeedTrace(items)| == |items| && forall i | 0 <= i < |items| :: FeedTrace(items)[i] == Fed(items[i])
  {
    if items != [] {
      FeedTraceAt(items[1..]);
    }
  }

  /** In manual mode the loop never confirms. */
  lemma ManualNeverConfirms(cfg: Config, script: seq<Poll>)
    requires cfg.confirm == Manual
    ensures Confirms(RunTrace(cfg, script)) == []
  {
    FeedsAndConfirms(cfg, script, cfg.interval);
    NoConfirms(cfg, script[..FullyFed(cfg, script)]);
  }

  lemma {:induction false} NoConfirms(cfg: Config, polls: seq<Poll>)
    requires cfg.confirm == Manual
    ensures ConfirmsOf(cfg, polls) == []
  {
    if polls != [] {
      NoConfirms(cfg, polls[1..]);
    }
  }

  lemma ItemsCons(cfg: Config, p: Poll, polls: seq<Poll>)
    ensures ItemsOf([p] + polls) == (if p.Fetched? then p.items else []) + ItemsOf(polls)
    ensures ConfirmsOf(cfg, [p] + polls) == (if Clean(cfg, p) then [p.nextSeq] else []) + ConfirmsOf(cfg, polls)
  {
    assert ([p] + polls)[1..] == polls;
  }

  lemma ReadHead(cfg: Config, p: Poll, delay: real)
    requires p.Fetched? && !AnyRaised(p.items)
    ensures Feeds(BatchTrace(cfg, p) + SleepTrace(p, delay)) == p.items
    ensures Confirms(BatchTrace(cfg, p) + SleepTrace(p, delay)) == if Clean(cfg, p) then [p.nextSeq] else []
  {
    ReadBatch(cfg, p);
    TriedAll(p.items);
    ReadAppend(BatchTrace(cfg, p), SleepTrace(p, delay));
  }

  lemma ReadTurn(cfg: Config, p: Poll, delay: real, rest: seq<Observation>)
    requires p.Fetched? && !AnyRaised(p.items)
    ensures Feeds(BatchTrace(cfg, p) + SleepTrace(p, delay) + rest) == p.items + Feeds(rest)
    ensures Confirms(BatchTrace(cfg, p) + SleepTrace(p, delay) + rest)
      == (if Clean(cfg, p) then [p.nextSeq] else []) + Confirms(rest)
  {
    ReadHead(cfg, p, delay);
    ReadAppend(BatchTrace(cfg, p) + SleepTrace(p, delay), rest);
  }

  /** The number of empty fetches since the last one that was not. */
  function EmptyStreak(n: nat, polls: seq<Poll>): nat {
    if polls == [] then n
    else
      var p := polls[|polls| - 1];
      if p.Fetched? && p.items != [] then 0 else EmptyStreak(n, polls[..|polls| - 1]) + 1
  }

  lemma {:induction false} StreakCons(n: nat, p: Poll, polls: seq<Poll>)
    requires p.Fetched?
    ensures EmptyStreak(n, [p] + polls) == EmptyStreak(if p.items != [] then 0 else n + 1, polls)
    decreases |polls|
  {
    if polls == [] {
      assert [p] + polls == [p] && [p][..0] == [];
    } else {
      StreakCons(n, p, polls[..|polls| - 1]);
      assert ([p] + polls)[..|polls|] == [p] + polls[..|polls| - 1];
    }
  }

  /** Whether the observation at some point of a run is as the batches up to `j` demand. */
  ghost predicate Justified(cfg: Config, n: nat, script: seq<Poll>, j: nat, before: seq<Observation>, o: Observation)
    requires j < |script|
  {
    && script[j].Fetched?
    && Feeds(before) == ItemsOf(script[..j + 1])
    && (o.Confirmed? ==>
          && Clean(cfg, script[j]) && o.upTo == script[j].nextSeq
          && Confirms(before) == ConfirmsOf(cfg, script[..j]))
    && (o.Slept? ==>
          && script[j].drained
          && o.delay == Base(cfg.interval, cfg.emptyBackoffMax, EmptyStreak(n, script[..j + 1]))
          && Confirms(before) == ConfirmsOf(cfg, script[..j + 1]))
  }

  /**
   When a confirm is sent, every item of its batch and of all batches before it was fed, and nothing
   after it; and the earlier batches' confirms were sent. When the loop sleeps, the same holds and
   the delay is the capped power of two for the current streak of empty fetches.
   */
  lemma {:induction false} ConfirmsAndSleepsJustified(cfg: Config, script: seq<Poll>, n: nat, k: nat)
    requires k < |LoopTrace(cfg, script, Base(cfg.interval, cfg.emptyBackoffMax, n))|
    requires var o := LoopTrace(cfg, script, Base(cfg.interval, cfg.emptyBackoffMax, n))[k]; o.Confirmed? || o.Slept?
    ensures var trace := LoopTrace(cfg, script, Base(cfg.interval, cfg.emptyBackoffMax, n));
      exists j | 0 <= j < |script| :: Justified(cfg, n, script, j, trace[..k], trace[k])
    decreases |script|
  {
    var sleepFor := Base(cfg.interval, cfg.emptyBackoffMax, n);
    var trace := LoopTrace(cfg, script, sleepFor);
    var p, batch := script[0], BatchTrace(cfg, script[0]);
    if k < |batch| {
      FirstConfirm(cfg, script, n, batch, k);
      assert trace[..k] == batch[..k];
    } else {
      var sleepFor' := NextSleep(cfg, sleepFor, p);
      var head := batch + SleepTrace(p, sleepFor');
      if k < |head| {
        assert trace[..k] == batch;
        FirstSleep(cfg, script, n);
      } else {
        var n' := if p.items != [] then 0 else n + 1;
        SplitAt(head, LoopTrace(cfg, script[1..], sleepFor'), k);
        ConfirmsAndSleepsJustified(cfg, script[1..], n', k - |head|);
        LaterIsJustified(cfg, script, n, head, LoopTrace(cfg, script[1..], sleepFor'), k - |head|);
      }
    }
  }

  lemma LaterIsJustified(cfg: Config, script: seq<Poll>, n: nat, head: seq<Observation>, rest: seq<Observation>, k: nat)
    requires script != [] && script[0].Fetched? && !AnyRaised(script[0].items) && k < |rest|
    requires exists delay :: head == BatchTrace(cfg, script[0]) + SleepTrace(script[0], delay)
    requires var n' := if script[0].items != [] then 0 else n + 1;
      exists j | 0 <= j < |script[1..]| :: Justified(cfg, n', script[1..], j, rest[..k], rest[k])
    ensures exists j | 0 <= j < |script| :: Justified(cfg, n, script, j, head + rest[..k], rest[k])
  {
    var n' := if script[0].items != [] then 0 else n + 1;
    var delay :| head == BatchTrace(cfg, script[0]) + SleepTrace(script[0], delay);
    var j :| 0 <= j < |script[1..]| && Justified(cfg, n', script[1..], j, rest[..k], rest[k]);
    JustifiedLater(cfg, script, n, delay, j, rest[..k], rest[k]);
  }

  lemma SplitAt<T>(a: seq<T>, b: seq<T>, k: nat)
    requires |a| <= k < |a| + |b|
    ensures (a + b)[k] == b[k - |a|] && (a + b)[..k] == a + b[..k - |a|]
  {
  }

  lemma FirstConfirm(cfg: Config, script: seq<Poll>, n: nat, batch: seq<Observation>, k: nat)
    requires script != [] && batch == BatchTrace(cfg, script[0])
    requires k < |batch| && (batch[k].Confirmed? || batch[k].Slept?)
    ensures Justified(cfg, n, script, 0, batch[..k], batch[k])
  {
    var p := script[0];
    assert script[..1] == [p] + [] && script[..0] == [];
    ItemsCons(cfg, p, []);
    ConfirmIsLast(cfg, p, k);
  }

  lemma FirstSleep(cfg: Config, script: seq<Poll>, n: nat)
    requires script != [] && !Stops(cfg, script[0]) && script[0].drained
    ensures var p := script[0];
      var delay := NextSleep(cfg, Base(cfg.interval, cfg.emptyBackoffMax, n), p);
      Justified(cfg, n, script, 0, BatchTrace(cfg, p), Slept(delay))
  {
    var p := script[0];
    assert script[..1] == [p] + [];
    ItemsCons(cfg, p, []);
    StreakCons(n, p, []);
    ReadBatch(cfg, p);
    TriedAll(p.items);
    SleepIsBase(cfg, n, p);
  }

  lemma SleepIsBase(cfg: Config, n: nat, p: Poll)
    requires p.Fetched?
    ensures NextSleep(cfg, Base(cfg.interval, cfg.emptyBackoffMax, n), p)
      == Base(cfg.interval, cfg.emptyBackoffMax, if p.items != [] then 0 else n + 1)
  {
  }

  lemma JustifiedLater(cfg: Config, script: seq<Poll>, n: nat, delay: real, j: nat, before: seq<Observation>,
      o: Observation)
    requires script != [] && script[0].Fetched? && !AnyRaised(script[0].items) && j < |script[1..]|
    requires Justified(cfg, if script[0].items != [] then 0 else n + 1, script[1..], j, before, o)
    ensures var head := BatchTrace(cfg, script[0]) + SleepTrace(script[0], delay);
      Justified(cfg, n, script, j + 1, head + before, o)
  {
    var p, rest := script[0], script[1..];
    assert script[..j + 2] == [p] + rest[..j + 1] && script[..j + 1] == [p] + rest[..j];
    ReadTurn(cfg, p, delay, before);
    ItemsCons(cfg, p, rest[..j + 1]);
    ItemsCons(cfg, p, rest[..j]);
    StreakCons(n, p, rest[..j + 1]);
  }

  lemma ConfirmIsLast(cfg: Config, p: Poll, k: nat)
    requires k < |BatchTrace(cfg, p)| && (BatchTrace(cfg, p)[k].Confirmed? || BatchTrace(cfg, p)[k].Slept?)
    ensures p.Fetched? && Clean(cfg, p) && BatchTrace(cfg, p)[k] == Confirmed(p.nextSeq)
    ensures Feeds(BatchTrace(cfg, p)[..k]) == p.items && Confirms(BatchTrace(cfg, p)[..k]) == []
  {
    var feeds := FeedTrace(Tried(p.items));
    ReadFeeds(Tried(p.items));
    ReadAppend([Polled], feeds);
    TriedAll(p.items);
    assert forall i | 0 <= i < 1 + |feeds| :: ([Polled] + feeds)[i] == Polled || ([Polled] + feeds)[i] in feeds;
    assert k == 1 + |feeds|;
    assert BatchTrace(cfg, p)[..k] == [Polled] + feeds;
  }
}
