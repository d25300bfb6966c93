/** Feeding one event: outer chain, search for a handler, inner chain. */
module Dispatch {
  import opened Common
  import opened Events
  import opened Handlers
  import opened Chains
  import opened Routers

  // ---- One handler ----

  /** Which names a callback gets: those it declares among the data and the event itself. */
  function BindKwargs<W>(callback: Callback<W>, event: ClientEvent, data: Data): Data {
    var full := data["event" := EventValue(event, "ClientEvent")];
    if callback.params.None? then full
    else map name | name in full && name in callback.params.value :: full[name]
  }

  /** A callback gets the event under its name, which hides a value of that name in the data, and each
      value of the data, as far as it declares the name or takes everything. */
  lemma KwargsAre<W>(callback: Callback<W>, event: ClientEvent, data: Data, name: string)
    ensures var wanted := callback.params.None? || name in callback.params.value;
      Lookup(BindKwargs(callback, event, data), name) ==
        if !wanted then None else if name == "event" then Some(EventValue(event, "ClientEvent")) else Lookup(data, name)
  {
  }

  function CallbackHandler<W>(callback: Callback<W>): Handler<W, Value> {
    (event, data, w) => callback.body(BindKwargs(callback, event, data), w)
  }

  /** What running a matched handler comes to: it passes the event on, decides, or lets an exception
      out that is not an Exception. */
  datatype Run = PassedOn | Decided(result: DispatchResult) | LetOut(exc: Exc)

  function Judge(reply: Reply<Value>, event: ClientEvent): Run {
    match reply
    case Returned(_) => Decided(DispatchResult(Handled, event, None))
    case Threw(exc) =>
      if exc == SkipHandler then PassedOn
      else if IsException(exc) then Decided(DispatchResult(Errored, event, Some(exc)))
      else LetOut(exc)
  }

  function RunHandler<W>(inner: seq<Middleware<W, Value>>, callback: Callback<W>, event: ClientEvent, data: Data,
      w: W): (Run, W) {
    var (reply, w') := Chain(inner, CallbackHandler(callback))(event, data, w);
    (Judge(reply, event), w')
  }

  // ---- Filters ----

  datatype Match = Unmatched | Matched(extra: Data) | MatchRaised(exc: Exc)

  /** Filters run in order on the same data; a dictionary they give is merged over what was gathered.
      An empty dictionary is falsy and rejects. */
  function MatchFrom<W>(filters: seq<Filter<W>>, event: ClientEvent, data: Data, extra: Data, w: W): (Match, W)
    decreases |filters|
  {
    if filters == [] then (Matched(extra), w)
    else
      var (verdict, w1) := filters[0](event, data, w);
      match verdict
      case Rejects => (Unmatched, w1)
      case FilterRaises(exc) => (MatchRaised(exc), w1)
      case Accepts => MatchFrom(filters[1..], event, data, extra, w1)
      case AcceptsWith(more) =>
        if more == map[] then (Unmatched, w1) else MatchFrom(filters[1..], event, data, extra + more, w1)
  }

  /** What filter `i` answers, if all before it accept: each sees the world the one before it left. */
  ghost function VerdictAt<W>(filters: seq<Filter<W>>, event: ClientEvent, data: Data, w: W, i: nat): Verdict
    requires i < |filters|
    decreases i
  {
    var (verdict, w1) := filters[0](event, data, w);
    if i == 0 then verdict else VerdictAt(filters[1..], event, data, w1, i - 1)
  }

  predicate Truthful(v: Verdict) {
    v.Accepts? || (v.AcceptsWith? && v.extra != map[])
  }

  ghost predicate AllTruthful<W>(filters: seq<Filter<W>>, event: ClientEvent, data: Data, w: W) {
    forall i | 0 <= i < |filters| :: Truthful(VerdictAt(filters, event, data, w, i))
  }

  lemma AllTruthfulCons<W>(filters: seq<Filter<W>>, event: ClientEvent, data: Data, w: W)
    requires filters != []
    ensures var (verdict, w1) := filters[0](event, data, w);
      AllTruthful(filters, event, data, w) <==> Truthful(verdict) && AllTruthful(filters[1..], event, data, w1)
  {
    var (verdict, w1) := filters[0](event, data, w);
    assert VerdictAt(filters, event, data, w, 0) == verdict;
    forall i | 0 <= i < |filters[1..]|
      ensures VerdictAt(filters[1..], event, data, w1, i) == VerdictAt(filters, event, data, w, i + 1)
    {
    }
    if Truthful(verdict) && AllTruthful(filters[1..], event, data, w1) {
      forall i | 0 <= i < |filters|
        ensures Truthful(VerdictAt(filters, event, data, w, i))
      {
        if i > 0 {
          assert Truthful(VerdictAt(filters[1..], event, data, w1, i - 1));
        }
      }
    }
  }

  /** A handler matches exactly when each of its filters gives something truthy; none is asked after
      one that does not. */
  lemma {:induction false} MatchedIff<W>(filters: seq<Filter<W>>, event: ClientEvent, data: Data, extra: Data, w: W)
    ensures MatchFrom(filters, event, data, extra, w).0.Matched? <==> AllTruthful(filters, event, data, w)
    decreases |filters|
  {
    if filters != [] {
      var (verdict, w1) := filters[0](event, data, w);
      AllTruthfulCons(filters, event, data, w);
      MatchedIff(filters[1..], event, data, if verdict.AcceptsWith? then extra + verdict.extra else extra, w1);
    }
  }

  /** The world in which filter `i` is asked. */
  ghost function AskedIn<W>(filters: seq<Filter<W>>, event: ClientEvent, data: Data, w: W, i: nat): W
    requires i <= |filters|
    decreases i
  {
    if i == 0 then w else AskedIn(filters[1..], event, data, filters[0](event, data, w).1, i - 1)
  }

  /** The filters are asked up to the first that gives nothing truthy. If that one raises, so does the
      match, and otherwise the handler does not match; the filters after it are not asked. */
  lemma {:induction false} MatchStopsAt<W>(filters: seq<Filter<W>>, event: ClientEvent, data: Data, extra: Data, w: W,
                                           i: nat)
    requires i < |filters| && !Truthful(VerdictAt(filters, event, data, w, i))
    requires forall j | 0 <= j < i :: Truthful(VerdictAt(filters, event, data, w, j))
    ensures MatchFrom(filters, event, data, extra, w) ==
      (match VerdictAt(filters, event, data, w, i) case FilterRaises(exc) => MatchRaised(exc) case _ => Unmatched,
       AskedIn(filters, event, data, w, i + 1))
    decreases i
  {
    var (verdict, w1) := filters[0](event, data, w);
    assert VerdictAt(filters, event, data, w, 0) == verdict;
    if i > 0 {
      assert forall j | 0 <= j < i - 1 ::
        VerdictAt(filters[1..], event, data, w1, j) == VerdictAt(filters, event, data, w, j + 1);
      MatchStopsAt(filters[1..], event, data, if verdict.AcceptsWith? then extra + verdict.extra else extra, w1, i - 1);
    }
  }

  /** The dictionaries the filters give, in order. */
  ghost function Extras<W>(filters: seq<Filter<W>>, event: ClientEvent, data: Data, w: W): seq<Data>
    decreases |filters|
  {
    if filters == [] then []
    else
      var (verdict, w1) := filters[0](event, data, w);
      (if verdict.AcceptsWith? then [verdict.extra] else []) + Extras(filters[1..], event, data, w1)
  }

  /** The value a name has after layering dictionaries: that of the last one that has it. */
  ghost function LastOf(dicts: seq<Data>, name: string): Option<Value> {
    if dicts == [] then None
    else if name in dicts[|dicts| - 1] then Some(dicts[|dicts| - 1][name])
    else LastOf(dicts[..|dicts| - 1], name)
  }

  lemma {:induction false} LastOfCons(d: Data, dicts: seq<Data>, name: string)
    ensures LastOf([d] + dicts, name) ==
      if LastOf(dicts, name).Some? then LastOf(dicts, name) else Lookup(d, name)
    decreases |dicts|
  {
    if dicts == [] {
      assert [d] + dicts == [d] && [d][..0] == [];
    } else {
      assert ([d] + dicts)[..|dicts|] == [d] + dicts[..|dicts| - 1];
      LastOfCons(d, dicts[..|dicts| - 1], name);
    }
  }

  /** A matched handler's data is the base data, overridden by its own filters' dictionaries, the
      later of which win. */
  lemma {:induction false} LaterExtrasWin<W>(filters: seq<Filter<W>>, event: ClientEvent, data: Data, extra: Data,
      w: W, name: string)
    requires MatchFrom(filters, event, data, extra, w).0.Matched?
    ensures Lookup(MatchFrom(filters, event, data, extra, w).0.extra, name) ==
      LastOf([extra] + Extras(filters, event, data, w), name)
    decreases |filters|
  {
    LastOfCons(extra, Extras(filters, event, data, w), name);
    if filters != [] {
      var (verdict, w1) := filters[0](event, data, w);
      var rest := Extras(filters[1..], event, data, w1);
      if verdict.AcceptsWith? {
        LaterExtrasWin(filters[1..], event, data, extra + verdict.extra, w1, name);
        LastOfCons(extra + verdict.extra, rest, name);
        LastOfCons(verdict.extra, rest, name);
      } else {
        LaterExtrasWin(filters[1..], event, data, extra, w1, name);
        LastOfCons(extra, rest, name);
        assert [] + rest == rest;
      }
    }
  }

  // ---- The search ----

  /** What trying one handler comes to. */
  datatype Trial<+W> = Trial(entered: bool, data: Data, outcome: TrialOutcome, w: W)

  datatype TrialOutcome = GoOn | Finish(reply: Reply<DispatchResult>)

  function Try<W>(inner: seq<Middleware<W, Value>>, h: HandlerObject<W>, event: ClientEvent, data: Data,
      w: W): Trial<W> {
    var (m, w1) := MatchFrom(h.filters, event, data, map[], w);
    match m
    case Unmatched => Trial(false, data, GoOn, w1)
    case MatchRaised(exc) => Trial(false, data, Finish(Threw(exc)), w1)
    case Matched(extra) =>
      var (run, w2) := RunHandler(inner, h.callback, event, data + extra, w1);
      match run
      case PassedOn => Trial(true, data + extra, GoOn, w2)
      case Decided(result) => Trial(true, data + extra, Finish(Returned(result)), w2)
      case LetOut(exc) => Trial(true, data + extra, Finish(Threw(exc)), w2)
  }

  /** One entry into a handler: which one of the list, and with what data. */
  datatype Entry = Entry(index: nat, data: Data)

  datatype Found<+W> = Found(reply: Reply<DispatchResult>, w: W, entries: seq<Entry>)

  /** The search over a flat list, whose first handler has number `n`. */
  function Search<W>(inner: seq<Middleware<W, Value>>, hs: seq<HandlerObject<W>>, n: nat, event: ClientEvent,
      data: Data, w: W): Found<W>
    decreases |hs|
  {
    if hs == [] then Found(Returned(DispatchResult(Skipped, event, None)), w, [])
    else
      var t := Try(inner, hs[0], event, data, w);
      var entry := if t.entered then [Entry(n, t.data)] else [];
      if t.outcome.Finish? then Found(t.outcome.reply, t.w, entry)
      else
        var rest := Search(inner, hs[1..], n + 1, event, data, t.w);
        rest.(entries := entry + rest.entries)
  }

  /** The world in which handler `k` is tried, if all before it go on. */
  ghost function WorldAt<W>(inner: seq<Middleware<W, Value>>, hs: seq<HandlerObject<W>>, event: ClientEvent,
      data: Data, w: W, k: nat): W
    requires k <= |hs|
    decreases k
  {
    if k == 0 then w
    else Try(inner, hs[k - 1], event, data, WorldAt(inner, hs, event, data, w, k - 1)).w
  }

  ghost function TrialAt<W>(inner: seq<Middleware<W, Value>>, hs: seq<HandlerObject<W>>, event: ClientEvent,
      data: Data, w: W, k: nat): Trial<W>
    requires k < |hs|
  {
    Try(inner, hs[k], event, data, WorldAt(inner, hs, event, data, w, k))
  }

  /** The entries made by the first `k` handlers. */
  ghost function EntriesBefore<W>(inner: seq<Middleware<W, Value>>, hs: seq<HandlerObject<W>>, event: ClientEvent,
      data: Data, w: W, k: nat): seq<Entry>
    requires k <= |hs|
    decreases k
  {
    if k == 0 then []
    else
      var t := TrialAt(inner, hs, event, data, w, k - 1);
      EntriesBefore(inner, hs, event, data, w, k - 1) + (if t.entered then [Entry(k - 1, t.data)] else [])
  }

  /** `k` is where the search ends: the first handler that finishes it, or the end of the list. */
  ghost predicate EndsAt<W>(inner: seq<Middleware<W, Value>>, hs: seq<HandlerObject<W>>, event: ClientEvent,
      data: Data, w: W, k: nat) {
    && k <= |hs|
    && (forall i | 0 <= i < k :: TrialAt(inner, hs, event, data, w, i).outcome.GoOn?)
    && (k < |hs| ==> TrialAt(inner, hs, event, data, w, k).outcome.Finish?)
  }

  /** What the search answers when it ends at `k`. */
  ghost function ReplyAt<W>(inner: seq<Middleware<W, Value>>, hs: seq<HandlerObject<W>>, event: ClientEvent,
      data: Data, w: W, k: nat): Reply<DispatchResult>
    requires EndsAt(inner, hs, event, data, w, k)
  {
    if k == |hs| then Returned(DispatchResult(Skipped, event, None))
    else TrialAt(inner, hs, event, data, w, k).outcome.reply
  }

  /** How many handlers are tried when the search ends at `k`. */
  function TriedTo(k: nat, n: nat): nat {
    if k < n then k + 1 else k
  }

  lemma {:induction false} SearchFrom<W>(inner: seq<Middleware<W, Value>>, hs: seq<HandlerObject<W>>,
      event: ClientEvent, data: Data, w: W, j: nat, k: nat)
    requires EndsAt(inner, hs, event, data, w, k) && j <= k
    ensures var found := Search(inner, hs[j..], j, event, data, WorldAt(inner, hs, event, data, w, j));
      var tried := TriedTo(k, |hs|);
      && found.reply == ReplyAt(inner, hs, event, data, w, k) && found.w == WorldAt(inner, hs, event, data, w, tried)
      && EntriesBefore(inner, hs, event, data, w, j) + found.entries == EntriesBefore(inner, hs, event, data, w, tried)
    decreases k - j
  {
    if j < |hs| {
      var t := TrialAt(inner, hs, event, data, w, j);
      var before := EntriesBefore(inner, hs, event, data, w, j);
      assert hs[j..] == [hs[j]] + hs[j + 1..];
      SearchStep(inner, hs[j], hs[j + 1..], j, event, data, WorldAt(inner, hs, event, data, w, j), before);
      assert EntriesBefore(inner, hs, event, data, w, j + 1) == before + EntryOf(j, t);
      if j < k {
        assert t.outcome.GoOn?;
        assert WorldAt(inner, hs, event, data, w, j + 1) == t.w;
        SearchFrom(inner, hs, event, data, w, j + 1, k);
      }
    }
  }

  ghost function EntryOf<W>(n: nat, t: Trial<W>): seq<Entry> {
    if t.entered then [Entry(n, t.data)] else []
  }

  /** One step of the search, after some entries were made. */
  lemma SearchStep<W>(inner: seq<Middleware<W, Value>>, h: HandlerObject<W>, rest: seq<HandlerObject<W>>, n: nat,
                      event: ClientEvent, data: Data, w: W, entries: seq<Entry>)
    ensures var t := Try(inner, h, event, data, w);
      var found := Search(inner, [h] + rest, n, event, data, w);
      if t.outcome.Finish? then found.reply == t.outcome.reply && found.w == t.w && found.entries == EntryOf(n, t)
      else
        var next := Search(inner, rest, n + 1, event, data, t.w);
        && found.reply == next.reply && found.w == next.w
        && entries + found.entries == (entries + EntryOf(n, t)) + next.entries
  {
    assert ([h] + rest)[0] == h && ([h] + rest)[1..] == rest;
  }

  /**
   The handlers entered are exactly the matching ones up to and including the first whose inner chain
   does not end in SkipHandler; that one decides. The answer is Skipped exactly when there is no such
   handler, and no filter let an exception out.
   */
  lemma SearchEndsAt<W>(inner: seq<Middleware<W, Value>>, hs: seq<HandlerObject<W>>, event: ClientEvent, data: Data,
      w: W, k: nat)
    requires EndsAt(inner, hs, event, data, w, k)
    ensures var found := Search(inner, hs, 0, event, data, w);
      var tried := TriedTo(k, |hs|);
      && found.reply == ReplyAt(inner, hs, event, data, w, k)
      && (found.reply == Returned(DispatchResult(Skipped, event, None)) <==> k == |hs|)
      && found.w == WorldAt(inner, hs, event, data, w, tried)
      && found.entries == EntriesBefore(inner, hs, event, data, w, tried)
  {
    assert hs[0..] == hs;
    SearchFrom(inner, hs, event, data, w, 0, k);
    if k < |hs| {
      TrialNeverSkips(inner, hs[k], event, data, WorldAt(inner, hs, event, data, w, k));
    }
  }

  lemma TrialNeverSkips<W>(inner: seq<Middleware<W, Value>>, h: HandlerObject<W>, event: ClientEvent, data: Data, w: W)
    ensures var t := Try(inner, h, event, data, w);
      t.outcome.Finish? && t.outcome.reply.Returned? ==> t.outcome.reply.value.outcome in {Handled, Errored}
  {
  }

  /** There always is such a place, and only one. */
  lemma {:induction false} SearchEndsSomewhere<W>(inner: seq<Middleware<W, Value>>, hs: seq<HandlerObject<W>>,
      event: ClientEvent, data: Data, w: W, j: nat)
    returns (k: nat)
    requires j <= |hs| && forall i | 0 <= i < j :: TrialAt(inner, hs, event, data, w, i).outcome.GoOn?
    ensures EndsAt(inner, hs, event, data, w, k)
    ensures forall k' :: EndsAt(inner, hs, event, data, w, k') ==> k' == k
    decreases |hs| - j
  {
    if j == |hs| || TrialAt(inner, hs, event, data, w, j).outcome.Finish? {
      k := j;
    } else {
      k := SearchEndsSomewhere(inner, hs, event, data, w, j + 1);
    }
  }

  /** A handler that does not match is not entered, and the search goes on in the world its filters left;
      if a filter raises, the search ends with that exception. */
  lemma UnmatchedIsPassed<W>(inner: seq<Middleware<W, Value>>, h: HandlerObject<W>, event: ClientEvent, data: Data,
      w: W, i: nat)
    requires i < |h.filters| && !Truthful(VerdictAt(h.filters, event, data, w, i))
    requires forall j | 0 <= j < i :: Truthful(VerdictAt(h.filters, event, data, w, j))
    ensures var t := Try(inner, h, event, data, w);
      && !t.entered && t.w == AskedIn(h.filters, event, data, w, i + 1)
      && t.outcome == match VerdictAt(h.filters, event, data, w, i)
           case FilterRaises(exc) => Finish(Threw(exc))
           case _ => GoOn
  {
    MatchStopsAt(h.filters, event, data, map[], w, i);
  }

  /**
   What becomes of a handler that matches, under any list of the shipped inner middlewares, by how its
   callback ends. One that returns decides with Handled. The search goes on past it exactly if the callback
   raises SkipHandler and there is no error boundary in the list, wherever it stands; any other exception,
   and SkipHandler under a boundary, decides with Errored. What is not an Exception ends the search.
   */
  lemma FallsThroughIff<W>(shipped: seq<Shipped<W>>, h: HandlerObject<W>, event: ClientEvent, data: Data, w: W)
    requires MatchFrom(h.filters, event, data, map[], w).0.Matched?
    ensures var (m, w1) := MatchFrom(h.filters, event, data, map[], w);
      var handlerData := data + m.extra;
      var t := Try(MiddlewaresOf(shipped), h, event, data, w);
      var arguments := BindKwargs(h.callback, event, handlerData);
      var (reply, w2) := h.callback.body(arguments, AfterLogs(shipped, event, handlerData, w1));
      && t.entered && t.data == handlerData && t.w == w2
      && (t.outcome.GoOn? <==> reply == Threw(SkipHandler) && !HasBoundary(shipped))
      && t.outcome == match reply
           case Returned(_) => Finish(Returned(DispatchResult(Handled, event, None)))
           case Threw(Control(code)) => Finish(Threw(Control(code)))
           case Threw(exc) =>
             if HasBoundary(shipped) then
               Finish(Returned(DispatchResult(Errored, event, Some(HandlerError(event.eventType, event.seqNo)))))
             else if exc == SkipHandler then GoOn
             else Finish(Returned(DispatchResult(Errored, event, Some(exc))))
  {
    var (m, w1) := MatchFrom(h.filters, event, data, map[], w);
    ShippedChainIs(shipped, CallbackHandler(h.callback), event, data + m.extra, w1);
    var arguments := BindKwargs(h.callback, event, data + m.extra);
    var (reply, w2) := h.callback.body(arguments, AfterLogs(shipped, event, data + m.extra, w1));
    var bounded := if HasBoundary(shipped) then Bounded(reply, event) else reply;
    assert RunHandler(MiddlewaresOf(shipped), h.callback, event, data + m.extra, w1) == (Judge(bounded, event), w2);
  }

  /** The filters among the specs. */
  function Customs<W>(specs: seq<FilterSpec<W>>): seq<Filter<W>> {
    if specs == [] then []
    else (if specs[0].Custom? then [specs[0].filter] else []) + Customs(specs[1..])
  }

  predicate TypesAllow<W>(specs: seq<FilterSpec<W>>, eventType: string) {
    forall i | 0 <= i < |specs| && specs[i].OfType? :: specs[i].eventType == eventType
  }

  /** A registration matches exactly if every event type it was given is that of the event and its other
      filters match by themselves; the types add nothing to the data and touch nothing else. */
  lemma {:induction false} SpecsMatchIff<W>(specs: seq<FilterSpec<W>>, event: ClientEvent, data: Data, extra: Data,
      w: W)
    ensures TypesAllow(specs, event.eventType) ==>
      MatchFrom(Resolve(specs), event, data, extra, w) == MatchFrom(Customs(specs), event, data, extra, w)
    ensures MatchFrom(Resolve(specs), event, data, extra, w).0.Matched? <==>
      TypesAllow(specs, event.eventType) && MatchFrom(Customs(specs), event, data, extra, w).0.Matched?
  {
    if specs != [] {
      var rest := specs[1..];
      assert Resolve(specs)[1..] == Resolve(rest);
      assert forall i | 0 <= i < |rest| :: rest[i] == specs[i + 1];
      assert TypesAllow(specs, event.eventType) <==>
        (specs[0].OfType? ==> specs[0].eventType == event.eventType) && TypesAllow(rest, event.eventType);
      if specs[0].OfType? {
        assert Customs(specs) == Customs(rest);
        SpecsMatchIff(rest, event, data, extra, w);
      } else {
        assert Customs(specs)[1..] == Customs(rest);
        var (verdict, w1) := specs[0].filter(event, data, w);
        SpecsMatchIff(rest, event, data, if verdict.AcceptsWith? then extra + verdict.extra else extra, w1);
      }
    }
  }

  /** So a registration for two different event types matches no event at all. */
  lemma TwoTypesNeverMatch<W>(specs: seq<FilterSpec<W>>, i: nat, j: nat, event: ClientEvent, data: Data, w: W)
    requires i < |specs| && j < |specs| && specs[i].OfType? && specs[j].OfType?
    requires specs[i].eventType != specs[j].eventType
    ensures !MatchFrom(Resolve(specs), event, data, map[], w).0.Matched?
  {
    SpecsMatchIff(specs, event, data, map[], w);
  }

  // ---- The dispatcher ----

  datatype AccountContext = AccountContext(ctx: Value, client: Value, subscriptionId: string)

  function BaseData(account: AccountContext, payload: Option<Value>): Data {
    var data := map["ctx" := account.ctx, "client" := account.client, SUBSCRIPTION_ID := Str(account.subscriptionId)];
    if payload.Some? then data["payload" := payload.value] else data
  }

  /** The innermost handler of the outer chain. */
  function WalkHandler<W>(inner: seq<Middleware<W, Value>>, hs: seq<HandlerObject<W>>): Handler<W, DispatchResult> {
    (event, data, w) => var found := Search(inner, hs, 0, event, data, w); (found.reply, found.w)
  }

  /** The data an event is fed with: these names, and the payload if there is one. */
  lemma BaseDataIs(account: AccountContext, payload: Option<Value>, name: string)
    ensures Lookup(BaseData(account, payload), name) ==
      match name
      case "ctx" => Some(account.ctx)
      case "client" => Some(account.client)
      case "subscription_id" => Some(Str(account.subscriptionId))
      case "payload" => payload
      case _ => None
  {
  }

  /** The core of the outer chain answers as the search does: by the handler at which it ends, or Skipped
      exactly if it gets past them all; and it leaves the world as the last handler tried left it. */
  lemma CoreSearches<W>(inner: seq<Middleware<W, Value>>, hs: seq<HandlerObject<W>>, event: ClientEvent, data: Data,
      w: W, k: nat)
    requires EndsAt(inner, hs, event, data, w, k)
    ensures var (reply, w') := WalkHandler(inner, hs)(event, data, w);
      && reply == ReplyAt(inner, hs, event, data, w, k)
      && (reply == Returned(DispatchResult(Skipped, event, None)) <==> k == |hs|)
      && w' == WorldAt(inner, hs, event, data, w, TriedTo(k, |hs|))
  {
    SearchEndsAt(inner, hs, event, data, w, k);
  }

  /** So with any list of the shipped middlewares outside, feeding an event logs it and then searches; an
      exception is turned into a HandlerError exactly if there is a boundary. */
  lemma FeedSearches<W>(shipped: seq<Shipped<W>>, inner: seq<Middleware<W, Value>>, hs: seq<HandlerObject<W>>,
                        event: ClientEvent, data: Data, w: W, k: nat)
    requires EndsAt(inner, hs, event, data, AfterLogs(shipped, event, data, w), k)
    ensures var logged := AfterLogs(shipped, event, data, w);
      var reply := ReplyAt(inner, hs, event, data, logged, k);
      Chain(MiddlewaresOf(shipped), WalkHandler(inner, hs))(event, data, w) ==
        (if HasBoundary(shipped) then Bounded(reply, event) else reply,
         WorldAt(inner, hs, event, data, logged, TriedTo(k, |hs|)))
  {
    ShippedChainIs(shipped, WalkHandler(inner, hs), event, data, w);
    CoreSearches(inner, hs, event, data, AfterLogs(shipped, event, data, w), k);
  }

  class Dispatcher<W> {
    const root: Router<W>
    const outer: seq<Middleware<W, DispatchResult>>
    const inner: seq<Middleware<W, Value>>
    /** The routers of the tree. */
    ghost const all: set<Router<W>>

    constructor (ghost all: set<Router<W>>, root: Router<W>, outer: seq<Middleware<W, DispatchResult>>,
        inner: seq<Middleware<W, Value>>)
      ensures this.all == all && this.root == root && this.outer == outer && this.inner == inner
    {
      this.all, this.root, this.outer, this.inner := all, root, outer, inner;
    }

    ghost predicate Valid()
      reads all
    {
      Acyclic(all) && root in all
    }

    ghost function Handlers(): seq<HandlerObject<W>>
      requires Valid()
      reads all
    {
      Flatten(Snapshot(all), root)
    }

    method MatchFilters(filters: seq<Filter<W>>, event: ClientEvent, data: Data, w: W) returns (m: Match, w': W)
      ensures (m, w') == MatchFrom(filters, event, data, map[], w)
    {
      var extra: Data := map[];
      w' := w;
      var i := 0;
      while i < |filters|
        invariant 0 <= i <= |filters|
        invariant MatchFrom(filters[i..], event, data, extra, w') == MatchFrom(filters, event, data, map[], w)
      {
        assert filters[i..][1..] == filters[i + 1..];
        var (verdict, after) := filters[i](event, data, w');
        w' := after;
        match verdict {
          case Rejects => return Unmatched, w';
          case FilterRaises(exc) => return MatchRaised(exc), w';
          case Accepts =>
          case AcceptsWith(more) =>
            if more == map[] {
              return Unmatched, w';
            }
            extra := extra + more;
        }
        i := i + 1;
      }
      m := Matched(extra);
    }

    method RunOne(callback: Callback<W>, event: ClientEvent, data: Data, w: W) returns (run: Run, w': W)
      ensures (run, w') == RunHandler(inner, callback, event, data, w)
    {
      var call := Fold(inner, CallbackHandler(callback));
      var (reply, after) := call(event, data, w);
      w' := after;
      match reply {
        case Returned(_) => run := Decided(DispatchResult(Handled, event, None));
        case Threw(exc) =>
          if exc == SkipHandler {
            run := PassedOn;
          } else if IsException(exc) {
            run := Decided(DispatchResult(Errored, event, Some(exc)));
          } else {
            run := LetOut(exc);
          }
      }
    }

    /** Try one handler; `done` tells that the search is over. `n` is its number in the flat list. */
    method TryHandler(h: HandlerObject<W>, n: nat, event: ClientEvent, data: Data, w: W)
      returns (done: bool, reply: Reply<DispatchResult>, w': W, entries: seq<Entry>)
      ensures var t := Try(inner, h, event, data, w);
        && done == t.outcome.Finish? && w' == t.w && entries == (if t.entered then [Entry(n, t.data)] else [])
        && (done ==> reply == t.outcome.reply)
    {
      done, entries, reply := false, [], Returned(DispatchResult(Skipped, event, None));
      var m;
      m, w' := MatchFilters(h.filters, event, data, w);
      match m {
        case Unmatched =>
        case MatchRaised(exc) => done, reply := true, Threw(exc);
        case Matched(extra) =>
          var handlerData := data + extra;
          entries := [Entry(n, handlerData)];
          var run;
          run, w' := RunOne(h.callback, event, handlerData, w');
          match run {
            case PassedOn =>
            case Decided(result) => done, reply := true, Returned(result);
            case LetOut(exc) => done, reply := true, Threw(exc);
          }
      }
    }

    /** Try the handlers of one router in order; `later` are those of the routers after it. */
    method TryEach(hs: seq<HandlerObject<W>>, ghost later: seq<HandlerObject<W>>, n: nat, event: ClientEvent,
        data: Data, w: W)
      returns (done: bool, reply: Reply<DispatchResult>, w': W, entries: seq<Entry>)
      ensures var whole := Search(inner, hs + later, n, event, data, w);
        if done then whole == Found(reply, w', entries)
        else Extends(whole, entries, Search(inner, later, n + |hs|, event, data, w'))
    {
      entries, w' := [], w;
      ghost var whole := Search(inner, hs + later, n, event, data, w);
      var left, k := hs, n;
      while left != []
        invariant k + |left| == n + |hs|
        invariant Extends(whole, entries, Search(inner, left + later, k, event, data, w'))
        decreases |left|
      {
        ghost var rest := left[1..] + later;
        assert left + later == [left[0]] + rest;
        SearchStep(inner, left[0], rest, k, event, data, w', entries);
        var more;
        done, reply, w', more := TryHandler(left[0], k, event, data, w');
        entries := entries + more;
        if done {
          return;
        }
        left, k := left[1..], k + 1;
      }
      assert left + later == later;
      done, reply := false, Returned(DispatchResult(Skipped, event, None));
    }

    /** Go through the routers in order, and through the handlers of each. */
    method TryRouters(routers: seq<Router<W>>, event: ClientEvent, data: Data, w: W)
      returns (reply: Reply<DispatchResult>, w': W, entries: seq<Entry>)
      ensures Found(reply, w', entries) == Search(inner, HandlersOf(routers), 0, event, data, w)
    {
      entries, w' := [], w;
      ghost var flat := HandlersOf(routers);
      ghost var whole := Search(inner, flat, 0, event, data, w);
      var rest := routers;
      var n: nat := 0;
      while rest != []
        invariant flat == HandlersOf(rest) && Extends(whole, entries, Search(inner, flat, n, event, data, w'))
        decreases |rest|
      {
        var handlers := rest[0].handlers;
        ghost var later := HandlersOf(rest[1..]);
        ghost var left := Search(inner, flat, n, event, data, w');
        var done, more;
        done, reply, w', more := TryEach(handlers, later, n, event, data, w');
        ghost var beyond := if done then Found(reply, w', [])
          else Search(inner, later, n + |handlers|, event, data, w');
        ExtendsMore(whole, entries, left, more, beyond);
        entries := entries + more;
        if done {
          return;
        }
        rest, n, flat := rest[1..], n + |handlers|, later;
      }
      reply := Returned(DispatchResult(Skipped, event, None));
    }

    /** Walking the routers and going through each one's handlers is the search over the flattened
        list. */
    method WalkAndHandle(event: ClientEvent, data: Data, w: W)
        returns (reply: Reply<DispatchResult>, w': W, entries: seq<Entry>)
      requires Valid()
      ensures Found(reply, w', entries) == Search(inner, Handlers(), 0, event, data, w)
    {
      var routers := root.Walk(all);
      reply, w', entries := TryRouters(routers, event, data, w);
      assert routers == root.Walk(all);
      root.WalkFlattens(all);
    }

    /** Feed one event: the outer chain around the search, on the account's data. */
    method Feed(event: ClientEvent, account: AccountContext, payload: Option<Value>, w: W)
        returns (reply: Reply<DispatchResult>, w': W)
      requires Valid()
      ensures (reply, w') == Chain(outer, WalkHandler(inner, Handlers()))(event, BaseData(account, payload), w)
      ensures outer == [] ==> forall k | EndsAt(inner, Handlers(), event, BaseData(account, payload), w, k) ::
          && reply == ReplyAt(inner, Handlers(), event, BaseData(account, payload), w, k)
          && (reply == Returned(DispatchResult(Skipped, event, None)) <==> k == |Handlers()|)
          && w' == WorldAt(inner, Handlers(), event, BaseData(account, payload), w, TriedTo(k, |Handlers()|))
    {
      forall k | EndsAt(inner, Handlers(), event, BaseData(account, payload), w, k)
        ensures var (r, v) := WalkHandler(inner, Handlers())(event, BaseData(account, payload), w);
          && r == ReplyAt(inner, Handlers(), event, BaseData(account, payload), w, k)
          && (r == Returned(DispatchResult(Skipped, event, None)) <==> k == |Handlers()|)
          && v == WorldAt(inner, Handlers(), event, BaseData(account, payload), w, TriedTo(k, |Handlers()|))
      {
        CoreSearches(inner, Handlers(), event, BaseData(account, payload), w, k);
      }
      root.WalkFlattens(all);
      var handlers := HandlersOf(root.Walk(all));
      var chain := Fold(outer, WalkHandler(inner, handlers));
      var (r, after) := chain(event, BaseData(account, payload), w);
      reply, w' := r, after;
    }
  }

  lemma ExtendsMore<W>(whole: Found<W>, entries: seq<Entry>, left: Found<W>, more: seq<Entry>, rest: Found<W>)
    requires Extends(whole, entries, left) && Extends(left, more, rest)
    ensures Extends(whole, entries + more, rest)
  {
    assert entries + (more + rest.entries) == (entries + more) + rest.entries;
  }

  /** The search made so far, with what is left of it, is the whole search. */
  ghost predicate Extends<W>(whole: Found<W>, entries: seq<Entry>, rest: Found<W>) {
    whole == rest.(entries := entries + rest.entries)
  }
}
