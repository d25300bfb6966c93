/** The polling source: fetch a batch, feed all of it, confirm it or not, sleep. */
module PollingSources {
  import opened Common
  import opened Backoff
  import opened PollTraces

  class PollingSource {
    const config: Config

    constructor (config: Config)
      ensures this.config == config
    {
      this.config := config;
    }

    /** Feed the items of one batch; `allOk` tells that none came to Errored. */
    method FeedBatch(items: seq<Item>) returns (trace: seq<Observation>, allOk: bool, escaped: bool)
      ensures trace == FeedTrace(Tried(items))
      ensures escaped == AnyRaised(items)
      ensures !escaped ==> allOk == !AnyErrored(items)
    {
      trace, allOk, escaped := [], true, false;
      var i := 0;
      while i < |items|
        invariant 0 <= i <= |items|
        invariant trace + FeedTrace(Tried(items[i..])) == FeedTrace(Tried(items))
        invariant forall k | 0 <= k < i :: items[k].reply.Completed?
        invariant allOk <==> forall k | 0 <= k < i :: items[k].reply != Completed(Errored)
      {
        assert items[i..][1..] == items[i + 1..];
        trace := trace + [Fed(items[i])];
        if items[i].reply.Raised? {
          assert FeedTrace(Tried(items[i..])) == [Fed(items[i])] + FeedTrace([]);
          return trace, allOk, true;
        }
        assert FeedTrace(Tried(items[i..])) == [Fed(items[i])] + FeedTrace(Tried(items[i + 1..]));
        if items[i].reply.outcome == Errored {
          allOk := false;
        }
        i := i + 1;
      }
    }

    /** Feed one batch and confirm it if it is clean. */
    method HandleBatch(batch: Poll) returns (trace: seq<Observation>, stopped: bool)
      ensures trace == BatchTrace(config, batch)
      ensures stopped == Stops(config, batch)
    {
      trace := [Polled];
      if batch.FetchRaised? {
        return trace, true;
      }
      var fed, allOk, escaped := FeedBatch(batch.items);
      trace := trace + fed;
      if escaped {
        return trace, true;
      }
      stopped := false;
      if config.confirm == Auto && batch.items != [] && allOk {
        trace := trace + [Confirmed(batch.nextSeq)];
        stopped := batch.confirmRaises;
      }
    }

    /** Poll for ever, here for as long as the script goes on. */
    method Run(script: seq<Poll>) returns (trace: seq<Observation>)
      ensures trace == RunTrace(config, script)
      ensures Makes(config, script, |Turns(trace)|)
      ensures forall i | 0 <= i < |Turns(trace)| :: IsTurn(config, script[i], Turns(trace)[i])
    {
      RunFetchesIff(config, script, config.interval);
      trace := [];
      var sleepFor := config.interval;
      var left := script;
      while left != []
        invariant trace + LoopTrace(config, left, sleepFor) == RunTrace(config, script)
        decreases |left|
      {
        var batch := left[0];
        ghost var before, loop := trace, LoopTrace(config, left, sleepFor);
        var handled, stopped := HandleBatch(batch);
        trace := trace + handled;
        if stopped {
          return;
        }
        sleepFor := if batch.items != [] then config.interval else Next(sleepFor, config.emptyBackoffMax);
        if batch.drained {
          trace := trace + [Slept(sleepFor)];
        }
        assert trace == before + (handled + SleepTrace(batch, sleepFor));
        Associates(before, handled + SleepTrace(batch, sleepFor), LoopTrace(config, left[1..], sleepFor));
        left := left[1..];
      }
    }
  }
}
