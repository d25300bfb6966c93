/**
 Polling against a server whose confirm is inclusive, as the client describes it: confirming `upTo`
 marks every event up to and including it as read.

 The source confirms the batch's `nextSeq`, which need not be the number of its last item, and it may
 ask for some event types only while a confirm names none. The theorems say exactly when an event can
 be lost, that is, marked as read without having been fed. The condition is on what the source itself
 sees: the numbers it fed and the numbers it confirmed.
 */
module PollServers {
  import opened Common
  import opened Logs
  import opened PollTraces

  /** One run after another: a run that an exception ended is started again. */
  function LifeTrace(cfg: Config, scripts: seq<seq<Poll>>): seq<Observation> {
    if scripts == [] then [] else RunTrace(cfg, scripts[0]) + LifeTrace(cfg, scripts[1..])
  }

  /** Up to which number events are marked as read, which were fed, and the highest of those. */
  datatype View = View(read: int, fed: set<int>, top: int)

  function Fresh(start: int): View {
    View(start, {}, start)
  }

  function Saw(v: View, o: Observation): View {
    match o
    case Fed(item) => View(v.read, v.fed + {item.seqNo}, Max(v.top, item.seqNo))
    case Confirmed(upTo) => v.(read := Max(v.read, upTo))
    case _ => v
  }

  function SawAll(v: View, trace: seq<Observation>): View
    decreases |trace|
  {
    if trace == [] then v else SawAll(Saw(v, trace[0]), trace[1..])
  }

  /** Each fetch gives a beginning of what is wanted and not yet read; `pending` is what the fetch in
      hand may still give. How much it gives depends on its limit and on how far the log has grown:
      later entries are above all earlier ones, so `wanted` can be that of the log as it ends up. */
  ghost predicate ServedFrom(wanted: seq<int>, read: int, pending: seq<int>, trace: seq<Observation>)
    decreases |trace|
  {
    trace == [] ||
    match trace[0]
    case Polled => ServedFrom(wanted, read, Above(wanted, read), trace[1..])
    case Fed(item) => pending != [] && pending[0] == item.seqNo && ServedFrom(wanted, read, pending[1..], trace[1..])
    case Confirmed(upTo) => ServedFrom(wanted, Max(read, upTo), [], trace[1..])
    case Slept(_) => ServedFrom(wanted, read, pending, trace[1..])
  }

  /** A server with this log, read up to `start`, may have brought the trace about. */
  ghost predicate Serves(types: seq<string>, log: seq<Logged>, start: int, trace: seq<Observation>) {
    InOrder(log) && ServedFrom(Wanted(types, log), start, [], trace)
  }

  /** Whether losing the entry matters: `all` says that entries of types not asked for matter too. */
  predicate Matters(types: seq<string>, all: bool, e: Logged) {
    all || Wants(types, e)
  }

  /** Every event marked as read since `start` was fed. */
  ghost predicate NothingLost(types: seq<string>, all: bool, log: seq<Logged>, start: int, v: View) {
    forall e | e in log && Matters(types, all, e) && start < e.seqNo <= v.read :: e.seqNo in v.fed
  }

  /** A number that no unfed event can have: it was fed itself, or a fetch that left nothing out went
      past it. */
  predicate Covered(types: seq<string>, all: bool, v: View, x: int) {
    x in v.fed || (x <= v.top && (types == [] || !all))
  }

  ghost predicate ConfirmFits(types: seq<string>, all: bool, v: View, upTo: int) {
    forall x | v.read < x <= upTo :: Covered(types, all, v, x)
  }

  /** Every confirm of the trace marks only numbers that were covered when it was sent. */
  ghost predicate ConfirmsFit(types: seq<string>, all: bool, v: View, trace: seq<Observation>)
    decreases |trace|
  {
    trace == [] ||
    ((trace[0].Confirmed? ==> ConfirmFits(types, all, v, trace[0].upTo))
     && ConfirmsFit(types, all, Saw(v, trace[0]), trace[1..]))
  }

  /** Unless events that were not asked for matter, a confirm fits exactly if it does not go beyond the
      highest number fed so far. */
  lemma ConfirmFitsIff(types: seq<string>, all: bool, v: View, upTo: int)
    requires (types == [] || !all) && forall x | x in v.fed :: x <= v.top
    ensures ConfirmFits(types, all, v, upTo) <==> upTo <= Max(v.read, v.top)
  {
    if ConfirmFits(types, all, v, upTo) && v.read < upTo {
      assert Covered(types, all, v, upTo);
    }
  }

  // ---- Confirms that fit lose nothing ----

  /** What holds while the log is read: what was marked as read was fed, and so was everything wanted
      up to the highest number fed, as far as it is not marked; and what the fetch in hand has not yet
      given is all of what is wanted beyond. */
  ghost predicate Kept(types: seq<string>, all: bool, log: seq<Logged>, start: int, v: View, pending: seq<int>) {
    && start <= v.read && Increasing(pending)
    && NothingLost(types, all, log, start, v)
    && (forall x | x in Wanted(types, log) && v.read < x <= v.top :: x in v.fed)
    && (pending != [] ==> forall x | x in Wanted(types, log) && v.read < x :: x in v.fed || x in pending)
  }

  lemma FedKeeps(types: seq<string>, all: bool, log: seq<Logged>, start: int, v: View, pending: seq<int>, item: Item)
    requires Kept(types, all, log, start, v, pending) && pending != [] && pending[0] == item.seqNo
    ensures Kept(types, all, log, start, Saw(v, Fed(item)), pending[1..])
  {
    assert pending == [item.seqNo] + pending[1..];
    assert forall x | x in pending[1..] :: item.seqNo < x;
  }

  lemma ConfirmKeeps(types: seq<string>, all: bool, log: seq<Logged>, start: int, v: View, pending: seq<int>, upTo: int)
    requires InOrder(log) && Kept(types, all, log, start, v, pending) && ConfirmFits(types, all, v, upTo)
    ensures Kept(types, all, log, start, Saw(v, Confirmed(upTo)), [])
  {
    WantedIs(types, log);
    forall e | e in log && Matters(types, all, e) && v.read < e.seqNo <= upTo
      ensures e.seqNo in v.fed
    {
      assert Covered(types, all, v, e.seqNo);
    }
  }

  lemma {:induction false} FittingLosesNothing(types: seq<string>, all: bool, log: seq<Logged>, start: int, v: View,
                                               pending: seq<int>, trace: seq<Observation>)
    requires InOrder(log) && Kept(types, all, log, start, v, pending)
    requires ServedFrom(Wanted(types, log), v.read, pending, trace) && ConfirmsFit(types, all, v, trace)
    ensures NothingLost(types, all, log, start, SawAll(v, trace))
    decreases |trace|
  {
    if trace != [] {
      match trace[0]
      case Polled =>
        WantedIs(types, log);
        AboveIs(Wanted(types, log), v.read);
        FittingLosesNothing(types, all, log, start, v, Above(Wanted(types, log), v.read), trace[1..]);
      case Fed(item) =>
        FedKeeps(types, all, log, start, v, pending, item);
        FittingLosesNothing(types, all, log, start, Saw(v, trace[0]), pending[1..], trace[1..]);
      case Confirmed(upTo) =>
        ConfirmKeeps(types, all, log, start, v, pending, upTo);
        FittingLosesNothing(types, all, log, start, Saw(v, trace[0]), [], trace[1..]);
      case Slept(_) =>
        FittingLosesNothing(types, all, log, start, v, pending, trace[1..]);
    }
  }

  // ---- A confirm that does not fit can lose an event ----

  /** Some confirm of the trace marks the number although it was not covered. */
  ghost predicate Reaches(types: seq<string>, all: bool, v: View, trace: seq<Observation>, x: int)
    decreases |trace|
  {
    trace != [] &&
    ((trace[0].Confirmed? && v.read < x <= trace[0].upTo && !Covered(types, all, v, x))
     || Reaches(types, all, Saw(v, trace[0]), trace[1..], x))
  }

  lemma {:induction false} SomeNumberIsReached(types: seq<string>, all: bool, v: View, trace: seq<Observation>)
    returns (x: int)
    requires !ConfirmsFit(types, all, v, trace)
    ensures Reaches(types, all, v, trace, x)
    decreases |trace|
  {
    if trace[0].Confirmed? && !ConfirmFits(types, all, v, trace[0].upTo) {
      x :| v.read < x <= trace[0].upTo && !Covered(types, all, v, x);
    } else {
      x := SomeNumberIsReached(types, all, Saw(v, trace[0]), trace[1..]);
    }
  }

  lemma {:induction false} ReachedIsAhead(types: seq<string>, all: bool, v: View, trace: seq<Observation>, x: int)
    requires Reaches(types, all, v, trace, x)
    ensures v.read < x && !Covered(types, all, v, x)
    decreases |trace|
  {
    if !(trace[0].Confirmed? && v.read < x <= trace[0].upTo && !Covered(types, all, v, x)) {
      ReachedIsAhead(types, all, Saw(v, trace[0]), trace[1..], x);
    }
  }

  /** What is marked as read is not fed any more. */
  lemma {:induction false} ReadIsNotFed(wanted: seq<int>, v: View, pending: seq<int>, trace: seq<Observation>, x: int)
    requires Increasing(wanted) && ServedFrom(wanted, v.read, pending, trace)
    requires x <= v.read && x !in v.fed && x !in pending
    ensures x <= SawAll(v, trace).read && x !in SawAll(v, trace).fed
    decreases |trace|
  {
    if trace != [] {
      AboveIs(wanted, v.read);
      match trace[0]
      case Polled => ReadIsNotFed(wanted, v, Above(wanted, v.read), trace[1..], x);
      case Fed(item) =>
        assert pending == [item.seqNo] + pending[1..];
        ReadIsNotFed(wanted, Saw(v, trace[0]), pending[1..], trace[1..], x);
      case Confirmed(_) => ReadIsNotFed(wanted, Saw(v, trace[0]), [], trace[1..], x);
      case Slept(_) => ReadIsNotFed(wanted, v, pending, trace[1..], x);
    }
  }

  lemma {:induction false} ReachedIsMarkedUnfed(types: seq<string>, all: bool, wanted: seq<int>, v: View,
                                                pending: seq<int>, trace: seq<Observation>, x: int)
    requires Increasing(wanted) && ServedFrom(wanted, v.read, pending, trace) && Reaches(types, all, v, trace, x)
    ensures x <= SawAll(v, trace).read && x !in SawAll(v, trace).fed
    decreases |trace|
  {
    if trace[0].Confirmed? && v.read < x <= trace[0].upTo && !Covered(types, all, v, x) {
      ReadIsNotFed(wanted, Saw(v, trace[0]), [], trace[1..], x);
    } else {
      var pending' := match trace[0]
        case Polled => Above(wanted, v.read)
        case Fed(_) => pending[1..]
        case Confirmed(_) => []
        case Slept(_) => pending;
      ReachedIsMarkedUnfed(types, all, wanted, Saw(v, trace[0]), pending', trace[1..], x);
    }
  }

  /** A number up to which events are already marked makes no difference to what is served. */
  lemma {:induction false} BelowIsUnseen(wanted: seq<int>, read: int, pending: seq<int>, trace: seq<Observation>,
      x: int)
    requires Increasing(wanted) && ServedFrom(wanted, read, pending, trace) && x <= read
    ensures ServedFrom(InsertNumber(wanted, x), read, pending, trace)
    decreases |trace|
  {
    if trace != [] {
      AboveInsert(wanted, x, read);
      match trace[0]
      case Polled => BelowIsUnseen(wanted, read, Above(wanted, read), trace[1..], x);
      case Fed(_) => BelowIsUnseen(wanted, read, pending[1..], trace[1..], x);
      case Confirmed(upTo) => BelowIsUnseen(wanted, Max(read, upTo), [], trace[1..], x);
      case Slept(_) => BelowIsUnseen(wanted, read, pending, trace[1..], x);
    }
  }

  /** A number that is reached and lies above all that was fed until then could as well be in the log:
      the same trace would have come about. */
  lemma {:induction false} ReachedCouldBeThere(types: seq<string>, all: bool, wanted: seq<int>, v: View,
                                               pending: seq<int>, pending': seq<int>, trace: seq<Observation>, x: int)
    requires Increasing(wanted) && (types == [] || !all)
    requires ServedFrom(wanted, v.read, pending, trace) && Reaches(types, all, v, trace, x)
    requires pending' == pending || pending' == InsertNumber(pending, x)
    ensures ServedFrom(InsertNumber(wanted, x), v.read, pending', trace)
    decreases |trace|
  {
    var rest, v' := trace[1..], Saw(v, trace[0]);
    ReachedIsAhead(types, all, v, trace, x);
    AboveInsert(wanted, x, v.read);
    if trace[0].Confirmed? && v.read < x <= trace[0].upTo && !Covered(types, all, v, x) {
      BelowIsUnseen(wanted, v'.read, [], rest, x);
    } else {
      ReachedIsAhead(types, all, v', rest, x);
      match trace[0]
      case Polled =>
        var fetched := Above(wanted, v.read);
        ReachedCouldBeThere(types, all, wanted, v, fetched, InsertNumber(fetched, x), rest, x);
      case Fed(item) =>
        assert item.seqNo < x;
        assert pending'[0] == item.seqNo
          && (pending'[1..] == pending[1..] || pending'[1..] == InsertNumber(pending[1..], x));
        ReachedCouldBeThere(types, all, wanted, v', pending[1..], pending'[1..], rest, x);
      case Confirmed(_) =>
        ReachedCouldBeThere(types, all, wanted, v', [], [], rest, x);
      case Slept(_) =>
        ReachedCouldBeThere(types, all, wanted, v, pending, pending', rest, x);
    }
  }

  /** A log that brings the same trace about and in which the event with the number is lost. */
  lemma ReachedCanBeLost(types: seq<string>, all: bool, log: seq<Logged>, start: int, trace: seq<Observation>, x: int)
    returns (losing: seq<Logged>)
    requires Serves(types, log, start, trace) && Reaches(types, all, Fresh(start), trace, x)
    ensures Serves(types, losing, start, trace) && !NothingLost(types, all, losing, start, SawAll(Fresh(start), trace))
  {
    WantedIs(types, log);
    ReachedIsAhead(types, all, Fresh(start), trace, x);
    ReachedIsMarkedUnfed(types, all, Wanted(types, log), Fresh(start), [], trace, x);
    if e :| e in log && e.seqNo == x && Matters(types, all, e) {
      return log;
    }
    var unwanted := types != [] && all;
    var e := Logged(x, if unwanted then OtherType(types) else if types == [] then "" else types[0]);
    losing := PutEntry(log, e);
    PutKeepsOrder(log, e);
    WantedPut(types, log, e);
    if !unwanted {
      ReachedCouldBeThere(types, all, Wanted(types, log), Fresh(start), [], [], trace, x);
    }
    assert e in losing && Matters(types, all, e);
  }

  /**
   Over any number of runs, fetches and confirms: no log that may lie behind what the source saw loses
   an event exactly if each confirm marked only covered numbers. With `all`, events of types that the
   source does not ask for count as lost too.
   */
  lemma PollingLosesNothingIff(types: seq<string>, all: bool, cfg: Config, scripts: seq<seq<Poll>>,
                               start: int, behind: seq<Logged>)
    requires Serves(types, behind, start, LifeTrace(cfg, scripts))
    ensures var life := LifeTrace(cfg, scripts);
      ConfirmsFit(types, all, Fresh(start), life) <==>
        forall log | Serves(types, log, start, life) :: NothingLost(types, all, log, start, SawAll(Fresh(start), life))
  {
    var life := LifeTrace(cfg, scripts);
    if ConfirmsFit(types, all, Fresh(start), life) {
      forall log | Serves(types, log, start, life)
        ensures NothingLost(types, all, log, start, SawAll(Fresh(start), life))
      {
        FittingLosesNothing(types, all, log, start, Fresh(start), [], life);
      }
    } else {
      var x := SomeNumberIsReached(types, all, Fresh(start), life);
      var losing := ReachedCanBeLost(types, all, behind, start, life, x);
      assert Serves(types, losing, start, life);
    }
  }

  // ---- One batch ----

  function NumbersOf(items: seq<Item>): set<int> {
    set i | i in items :: i.seqNo
  }

  /** What is known after feeding items whose numbers rise. */
  function AfterFeeds(v: View, items: seq<Item>): View {
    View(v.read, v.fed + NumbersOf(items), if items == [] then v.top else items[|items| - 1].seqNo)
  }

  lemma AfterFeedsCons(v: View, first: Item, later: seq<Item>)
    requires v.top < first.seqNo
    ensures AfterFeeds(v, [first] + later) == AfterFeeds(Saw(v, Fed(first)), later)
  {
    NumbersCons(v.fed, first, later);
    assert later != [] ==> ([first] + later)[|later|] == later[|later| - 1];
  }

  lemma {:induction false} FeedsSeen(types: seq<string>, all: bool, v: View, items: seq<Item>, rest: seq<Observation>)
    requires forall i | 0 <= i < |items| :: v.top < items[i].seqNo
    requires forall i, j | 0 <= i < j < |items| :: items[i].seqNo < items[j].seqNo
    ensures SawAll(v, FeedTrace(items) + rest) == SawAll(AfterFeeds(v, items), rest)
    ensures ConfirmsFit(types, all, v, FeedTrace(items) + rest) <==> ConfirmsFit(types, all, AfterFeeds(v, items), rest)
    decreases |items|
  {
    if items == [] {
      assert FeedTrace(items) + rest == rest;
      assert AfterFeeds(v, items) == v;
    } else {
      var first, later := items[0], items[1..];
      assert items == [first] + later;
      assert FeedTrace(items) + rest == [Fed(first)] + (FeedTrace(later) + rest);
      FedFirst(types, all, v, first, FeedTrace(later) + rest);
      AfterFeedsCons(v, first, later);
      FeedsSeen(types, all, Saw(v, Fed(first)), later, rest);
    }
  }

  lemma FedFirst(types: seq<string>, all: bool, v: View, item: Item, rest: seq<Observation>)
    ensures SawAll(v, [Fed(item)] + rest) == SawAll(Saw(v, Fed(item)), rest)
    ensures ConfirmsFit(types, all, v, [Fed(item)] + rest) <==> ConfirmsFit(types, all, Saw(v, Fed(item)), rest)
  {
    assert ([Fed(item)] + rest)[1..] == rest;
  }

  lemma NumbersCons(fed: set<int>, first: Item, later: seq<Item>)
    ensures fed + {first.seqNo} + NumbersOf(later) == fed + NumbersOf([first] + later)
  {
    assert forall i :: i in [first] + later <==> i == first || i in later;
  }

  lemma {:induction false} FeedsArePending(wanted: seq<int>, read: int, pending: seq<int>, items: seq<Item>,
                                           rest: seq<Observation>)
    requires ServedFrom(wanted, read, pending, FeedTrace(items) + rest)
    ensures |items| <= |pending| && forall i | 0 <= i < |items| :: items[i].seqNo == pending[i]
    decreases |items|
  {
    if items != [] {
      assert (FeedTrace(items) + rest)[0] == Fed(items[0]);
      assert (FeedTrace(items) + rest)[1..] == FeedTrace(items[1..]) + rest;
      FeedsArePending(wanted, read, pending[1..], items[1..], rest);
    }
  }

  lemma OneTurn(cfg: Config, p: Poll, sleepFor: real)
    requires p.Fetched?
    ensures LoopTrace(cfg, [p], sleepFor) ==
      BatchTrace(cfg, p) + (if Stops(cfg, p) then [] else SleepTrace(p, NextSleep(cfg, sleepFor, p)))
  {
    assert [p][1..] == [];
    var batch := BatchTrace(cfg, p);
    if Stops(cfg, p) {
      assert batch + [] == batch;
    } else {
      var turn := batch + SleepTrace(p, NextSleep(cfg, sleepFor, p));
      assert turn + [] == turn;
      assert LoopTrace(cfg, [], NextSleep(cfg, sleepFor, p)) == [];
    }
  }

  lemma OneBatchLife(cfg: Config, p: Poll) returns (after: seq<Observation>)
    requires Clean(cfg, p)
    ensures LifeTrace(cfg, [[p]]) == [Polled] + (FeedTrace(p.items) + ([Confirmed(p.nextSeq)] + after))
    ensures after == [] || (|after| == 1 && after[0].Slept?)
  {
    TriedAll(p.items);
    var delay := NextSleep(cfg, cfg.interval, p);
    after := if Stops(cfg, p) then [] else SleepTrace(p, delay);
    assert [p][1..] == [] && [[p]][1..] == [];
    OneTurn(cfg, p, cfg.interval);
    assert RunTrace(cfg, [p]) + [] == RunTrace(cfg, [p]);
  }

  lemma FirstItemsRise(types: seq<string>, p: Poll, start: int, behind: seq<Logged>, rest: seq<Observation>)
    requires p.Fetched? && Serves(types, behind, start, [Polled] + (FeedTrace(p.items) + rest))
    ensures forall i | 0 <= i < |p.items| :: start < p.items[i].seqNo
    ensures forall i, j | 0 <= i < j < |p.items| :: p.items[i].seqNo < p.items[j].seqNo
  {
    var wanted := Wanted(types, behind);
    WantedIs(types, behind);
    AboveIs(wanted, start);
    assert ([Polled] + (FeedTrace(p.items) + rest))[1..] == FeedTrace(p.items) + rest;
    FeedsArePending(wanted, start, Above(wanted, start), p.items, rest);
    assert forall i | 0 <= i < |p.items| :: p.items[i].seqNo in Above(wanted, start);
  }

  lemma FirstConfirmFitsIff(types: seq<string>, all: bool, cfg: Config, p: Poll, start: int, behind: seq<Logged>)
    requires Clean(cfg, p) && Serves(types, behind, start, LifeTrace(cfg, [[p]]))
    ensures ConfirmsFit(types, all, Fresh(start), LifeTrace(cfg, [[p]])) <==>
      ConfirmFits(types, all, AfterFeeds(Fresh(start), p.items), p.nextSeq)
    ensures start < p.items[|p.items| - 1].seqNo
    ensures forall x | x in NumbersOf(p.items) :: x <= p.items[|p.items| - 1].seqNo
  {
    var after := OneBatchLife(cfg, p);
    var rest := [Confirmed(p.nextSeq)] + after;
    FirstItemsRise(types, p, start, behind, rest);
    PolledFirst(types, all, Fresh(start), FeedTrace(p.items) + rest);
    FeedsSeen(types, all, Fresh(start), p.items, rest);
    LastConfirm(types, all, AfterFeeds(Fresh(start), p.items), p.nextSeq, after);
  }

  lemma PolledFirst(types: seq<string>, all: bool, v: View, rest: seq<Observation>)
    ensures ConfirmsFit(types, all, v, [Polled] + rest) <==> ConfirmsFit(types, all, v, rest)
  {
    assert ([Polled] + rest)[1..] == rest;
  }

  lemma LastConfirm(types: seq<string>, all: bool, v: View, upTo: int, after: seq<Observation>)
    requires after == [] || (|after| == 1 && after[0].Slept?)
    ensures ConfirmsFit(types, all, v, [Confirmed(upTo)] + after) <==> ConfirmFits(types, all, v, upTo)
  {
    assert ([Confirmed(upTo)] + after)[1..] == after;
    assert after != [] ==> after[1..] == [];
  }

  /** The first confirm of a source: it can lose an event exactly if `nextSeq` is beyond the last item,
      or if other types matter and some number up to it is not that of an item. */
  lemma FirstConfirmLosesNothingIff(types: seq<string>, all: bool, cfg: Config, p: Poll, start: int,
      behind: seq<Logged>)
    requires Clean(cfg, p) && Serves(types, behind, start, LifeTrace(cfg, [[p]]))
    ensures var life := LifeTrace(cfg, [[p]]);
      (forall log | Serves(types, log, start, life) :: NothingLost(types, all, log, start, SawAll(Fresh(start), life)))
      <==> if types == [] || !all then p.nextSeq <= p.items[|p.items| - 1].seqNo
           else forall x | start < x <= p.nextSeq :: x in NumbersOf(p.items)
  {
    PollingLosesNothingIff(types, all, cfg, [[p]], start, behind);
    FirstConfirmFitsIff(types, all, cfg, p, start, behind);
    var v := AfterFeeds(Fresh(start), p.items);
    if types == [] || !all {
      ConfirmFitsIff(types, all, v, p.nextSeq);
      assert start < p.items[|p.items| - 1].seqNo;
    } else {
      assert v.fed == NumbersOf(p.items);
      assert forall x :: Covered(types, all, v, x) <==> x in v.fed;
    }
  }

  // ---- Two events that are lost ----

  const AUTO := Config(5.0, 60.0, Auto)
  const FIRST := Item(1, Completed(Handled))
  const SECOND := Item(2, Completed(Handled))
  const THIRD := Item(3, Completed(Handled))

  lemma TwoItemLife(a: Item, b: Item, nextSeq: int)
    requires a.reply == b.reply == Completed(Handled)
    ensures LifeTrace(AUTO, [[Fetched([a, b], nextSeq, false, false)]]) == [Polled, Fed(a), Fed(b), Confirmed(nextSeq)]
  {
    var batch := Fetched([a, b], nextSeq, false, false);
    assert batch.items[1..] == [b] && FeedTrace([b]) == [Fed(b)] && FeedTrace(batch.items) == [Fed(a), Fed(b)];
    TriedAll(batch.items);
    assert [batch][1..] == [] && [[batch]][1..] == [];
    assert LoopTrace(AUTO, [], AUTO.interval) == [];
    assert RunTrace(AUTO, [batch]) == [Polled, Fed(a), Fed(b), Confirmed(nextSeq)];
  }

  lemma TwoItemsSeen(a: Item, b: Item, nextSeq: int)
    ensures var v := SawAll(Fresh(0), [Polled, Fed(a), Fed(b), Confirmed(nextSeq)]);
      v.read == Max(0, nextSeq) && v.fed == {a.seqNo, b.seqNo}
  {
    var t1: seq<Observation> := [Fed(a), Fed(b), Confirmed(nextSeq)];
    var t2: seq<Observation> := [Fed(b), Confirmed(nextSeq)];
    var v1 := Saw(Fresh(0), Fed(a));
    var v2 := Saw(v1, Fed(b));
    assert ([Polled] + t1)[1..] == t1 && t1[1..] == t2 && t2[1..] == [Confirmed(nextSeq)];
    assert [Polled, Fed(a), Fed(b), Confirmed(nextSeq)] == [Polled] + t1;
    assert SawAll(v2, [Confirmed(nextSeq)]) == Saw(v2, Confirmed(nextSeq));
    assert SawAll(v1, t2) == SawAll(v2, [Confirmed(nextSeq)]);
    assert SawAll(Fresh(0), t1) == SawAll(v1, t2);
  }

  lemma TwoItemsServed(wanted: seq<int>, a: Item, b: Item, nextSeq: int)
    requires Above(wanted, 0) != [] && Above(wanted, 0)[0] == a.seqNo
    requires Above(wanted, 0)[1..] != [] && Above(wanted, 0)[1] == b.seqNo
    ensures ServedFrom(wanted, 0, [], [Polled, Fed(a), Fed(b), Confirmed(nextSeq)])
  {
    var t: seq<Observation> := [Polled, Fed(a), Fed(b), Confirmed(nextSeq)];
    var t1: seq<Observation> := [Fed(a), Fed(b), Confirmed(nextSeq)];
    var t2: seq<Observation> := [Fed(b), Confirmed(nextSeq)];
    var pending := Above(wanted, 0);
    assert t[1..] == t1 && t1[1..] == t2 && t2[1..] == [Confirmed(nextSeq)] && [Confirmed(nextSeq)][1..] == [];
    assert ServedFrom(wanted, 0, pending[1..][1..], [Confirmed(nextSeq)]);
    assert ServedFrom(wanted, 0, pending[1..], t2);
    assert ServedFrom(wanted, 0, pending, t1);
  }

  /** A batch of two items whose confirm reaches another entry of the log. */
  lemma TwoItemsLose(types: seq<string>, all: bool, log: seq<Logged>, a: Item, b: Item, nextSeq: int, lost: Logged)
    requires a.reply == b.reply == Completed(Handled) && InOrder(log)
    requires var pending := Above(Wanted(types, log), 0);
      |pending| >= 2 && pending[0] == a.seqNo && pending[1] == b.seqNo
    requires lost in log && Matters(types, all, lost) && 0 < lost.seqNo <= nextSeq && lost.seqNo !in {a.seqNo, b.seqNo}
    ensures var life := LifeTrace(AUTO, [[Fetched([a, b], nextSeq, false, false)]]);
      && life == [Polled, Fed(a), Fed(b), Confirmed(nextSeq)]
      && Serves(types, log, 0, life) && !NothingLost(types, all, log, 0, SawAll(Fresh(0), life))
  {
    TwoItemLife(a, b, nextSeq);
    TwoItemsServed(Wanted(types, log), a, b, nextSeq);
    TwoItemsSeen(a, b, nextSeq);
  }

  /** With `nextSeq` one above the last item, as captured from a server, an inclusive confirm reaches
      the event that is appended next: 1 and 2 are fed, 3 is confirmed, and then 3 is appended. */
  lemma NextEventCanBeLost()
    ensures var log := [Logged(1, "new_lot"), Logged(2, "price_dropped"), Logged(3, "new_lot")];
      var life := LifeTrace(AUTO, [[Fetched([FIRST, SECOND], 3, false, false)]]);
      && life == [Polled, Fed(FIRST), Fed(SECOND), Confirmed(3)]
      && Serves([], log, 0, life) && !NothingLost([], false, log, 0, SawAll(Fresh(0), life))
  {
    var log := [Logged(1, "new_lot"), Logged(2, "price_dropped"), Logged(3, "new_lot")];
    AllAreWanted(log[0], log[1], log[2]);
    assert [1, 2, 3][1..] == [2, 3] && [2, 3][1..] == [3];
    assert Above([3], 0) == [3] && Above([2, 3], 0) == [2, 3] && Above([1, 2, 3], 0) == [1, 2, 3];
    TwoItemsLose([], false, log, FIRST, SECOND, 3, log[2]);
  }

  lemma AllAreWanted(a: Logged, b: Logged, c: Logged)
    ensures Wanted([], [a, b, c]) == [a.seqNo, b.seqNo, c.seqNo]
  {
    assert [a, b, c][1..] == [b, c] && [b, c][1..] == [c] && [c][1..] == [];
    assert Wanted([], [c]) == [c.seqNo] && Wanted([], [b, c]) == [b.seqNo, c.seqNo];
  }

  lemma OnlyNewLots(a: Logged, b: Logged, c: Logged)
    requires a.eventType == c.eventType == "new_lot" != b.eventType
    ensures Wanted(["new_lot"], [a, b, c]) == [a.seqNo, c.seqNo]
  {
    assert [a, b, c][1..] == [b, c] && [b, c][1..] == [c] && [c][1..] == [];
    assert Wanted(["new_lot"], [c]) == [c.seqNo] && Wanted(["new_lot"], [b, c]) == [c.seqNo];
  }

  /** A source that asks for one type confirms past an event of another type, which is marked as read
      although nothing fed it. */
  lemma UnwantedEventCanBeLost()
    ensures var log := [Logged(1, "new_lot"), Logged(2, "price_dropped"), Logged(3, "new_lot")];
      var life := LifeTrace(AUTO, [[Fetched([FIRST, THIRD], 3, false, false)]]);
      && life == [Polled, Fed(FIRST), Fed(THIRD), Confirmed(3)]
      && Serves(["new_lot"], log, 0, life) && !NothingLost(["new_lot"], true, log, 0, SawAll(Fresh(0), life))
  {
    var log := [Logged(1, "new_lot"), Logged(2, "price_dropped"), Logged(3, "new_lot")];
    OnlyNewLots(log[0], log[1], log[2]);
    assert [1, 3][1..] == [3];
    assert Above([3], 0) == [3] && Above([1, 3], 0) == [1, 3];
    TwoItemsLose(["new_lot"], true, log, FIRST, THIRD, 3, log[1]);
  }
}
