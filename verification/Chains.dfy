/** Middleware chains: built by folding from the innermost outwards, run like the layers of an onion. */
module Chains {
  import opened Common
  import opened Events
  import opened Handlers

  function Wrap<W, R>(middleware: Middleware<W, R>, next: Handler<W, R>): Handler<W, R> {
    (event, data, w) => middleware(next, event, data, w)
  }

  /** The first middleware is outermost and sees the rest of the chain as its next handler. */
  function Chain<W, R>(middlewares: seq<Middleware<W, R>>, core: Handler<W, R>): Handler<W, R> {
    if middlewares == [] then core else Wrap(middlewares[0], Chain(middlewares[1..], core))
  }

  /** The loop over the reversed list. */
  method Fold<W, R>(middlewares: seq<Middleware<W, R>>, core: Handler<W, R>) returns (chain: Handler<W, R>)
    ensures chain == Chain(middlewares, core)
  {
    chain := core;
    var i := |middlewares|;
    while i > 0
      invariant 0 <= i <= |middlewares|
      invariant chain == Chain(middlewares[i..], core)
    {
      i := i - 1;
      assert middlewares[i..][1..] == middlewares[i + 1..];
      chain := Wrap(middlewares[i], chain);
    }
  }

  /** A longer chain is one chain around another. */
  lemma {:induction false} ChainAppend<W, R>(
    outer: seq<Middleware<W, R>>, inner: seq<Middleware<W, R>>, core: Handler<W, R>)
    ensures Chain(outer + inner, core) == Chain(outer, Chain(inner, core))
  {
    if outer == [] {
      assert outer + inner == inner;
    } else {
      assert (outer + inner)[1..] == outer[1..] + inner;
      ChainAppend(outer[1..], inner, core);
    }
  }

  lemma ChainCons<W, R>(m: Middleware<W, R>, ms: seq<Middleware<W, R>>, core: Handler<W, R>)
    ensures Chain([m] + ms, core) == Wrap(m, Chain(ms, core))
  {
    assert ([m] + ms)[1..] == ms;
  }

  // ---- Layers ----

  /** What a middleware does next: answer, or call its handler with these arguments. */
  datatype Decision<+W, +R> = Stop(reply: Reply<R>, w: W) | Go(event: ClientEvent, data: Data, w: W)

  /**
   A middleware as what it decides from the replies of its handler so far. It calls its handler as often
   as it likes, with whatever arguments, but not for ever: after `most` calls it finishes.
   */
  datatype Layer<!W, !R> = Layer(
    most: (ClientEvent, Data, W) -> nat,
    next: (ClientEvent, Data, seq<Reply<R>>, W) -> Decision<W, R>,
    finish: (ClientEvent, Data, seq<Reply<R>>, W) -> (Reply<R>, W)
  )

  function RunLayer<W, R>(l: Layer<W, R>, handler: Handler<W, R>, event: ClientEvent, data: Data,
                          replies: seq<Reply<R>>, left: nat, w: W): (Reply<R>, W)
    decreases left
  {
    if left == 0 then l.finish(event, data, replies, w)
    else
      match l.next(event, data, replies, w)
      case Stop(reply, w1) => (reply, w1)
      case Go(event1, data1, w1) =>
        var (reply, w2) := handler(event1, data1, w1);
        RunLayer(l, handler, event, data, replies + [reply], left - 1, w2)
  }

  function AsMiddleware<W, R>(l: Layer<W, R>): Middleware<W, R> {
    (handler: Handler<W, R>, event: ClientEvent, data: Data, w: W) =>
      RunLayer(l, handler, event, data, [], l.most(event, data, w), w)
  }

  function AsMiddlewares<W, R>(ls: seq<Layer<W, R>>): seq<Middleware<W, R>> {
    if ls == [] then [] else [AsMiddleware(ls[0])] + AsMiddlewares(ls[1..])
  }

  function LayerChain<W, R>(ls: seq<Layer<W, R>>, core: Handler<W, R>): Handler<W, R> {
    Chain(AsMiddlewares(ls), core)
  }

  /** A layer that calls its handler at most once. */
  function Once<W, R>(before: (ClientEvent, Data, W) -> Decision<W, R>,
                      after: (ClientEvent, Data, Reply<R>, W) -> (Reply<R>, W)): Layer<W, R>
  {
    Layer(
      (event, data, w) => 1,
      (event: ClientEvent, data: Data, replies: seq<Reply<R>>, w: W) => before(event, data, w),
      (event: ClientEvent, data: Data, replies: seq<Reply<R>>, w: W) =>
        if replies == [] then (Threw(SkipHandler), w) else after(event, data, replies[0], w)
    )
  }

  lemma OnceIs<W, R>(before: (ClientEvent, Data, W) -> Decision<W, R>,
                     after: (ClientEvent, Data, Reply<R>, W) -> (Reply<R>, W),
                     handler: Handler<W, R>, event: ClientEvent, data: Data, w: W)
    ensures AsMiddleware(Once(before, after))(handler, event, data, w) ==
      match before(event, data, w)
      case Stop(reply, w1) => (reply, w1)
      case Go(event1, data1, w1) => var (reply, w2) := handler(event1, data1, w1); after(event, data, reply, w2)
  {
    var l := Once(before, after);
    var d := before(event, data, w);
    assert l.most(event, data, w) == 1 && l.next(event, data, [], w) == d;
    if d.Go? {
      var (reply, w2) := handler(d.event, d.data, d.w);
      assert [] + [reply] == [reply];
      assert RunLayer(l, handler, event, data, [reply], 0, w2) == after(event, data, reply, w2);
    }
  }

  // ---- Who calls whom ----

  /** The calls of one run: a layer with the calls it made, in order, or the core. */
  datatype Calls = CoreCalled | LayerCalled(inside: seq<Calls>)

  function CallsOf<W, R>(ls: seq<Layer<W, R>>, core: Handler<W, R>, event: ClientEvent, data: Data, w: W): Calls
    decreases |ls|, 0, 0
  {
    if ls == [] then CoreCalled
    else LayerCalled(CallsFrom(ls[0], ls[1..], core, event, data, [], ls[0].most(event, data, w), w))
  }

  function CallsFrom<W, R>(l: Layer<W, R>, rest: seq<Layer<W, R>>, core: Handler<W, R>, event: ClientEvent, data: Data,
                           replies: seq<Reply<R>>, left: nat, w: W): seq<Calls>
    decreases |rest|, 1, left
  {
    if left == 0 then []
    else
      match l.next(event, data, replies, w)
      case Stop(_, _) => []
      case Go(event1, data1, w1) =>
        var (reply, w2) := LayerChain(rest, core)(event1, data1, w1);
        [CallsOf(rest, core, event1, data1, w1)]
        + CallsFrom(l, rest, core, event, data, replies + [reply], left - 1, w2)
  }

  /** No call goes deeper than `n` layers, the core counting as one. */
  predicate WithinDepth(c: Calls, n: nat)
    decreases n
  {
    n > 0 && (c.LayerCalled? ==> forall i | 0 <= i < |c.inside| :: WithinDepth(c.inside[i], n - 1))
  }

  predicate AllWithinDepth(cs: seq<Calls>, n: nat) {
    forall i | 0 <= i < |cs| :: WithinDepth(cs[i], n)
  }

  lemma AllWithinCons(first: Calls, more: seq<Calls>, n: nat)
    requires AllWithinDepth([first] + more, n)
    ensures WithinDepth(first, n) && AllWithinDepth(more, n)
  {
    var all := [first] + more;
    assert all[0] == first;
    forall i | 0 <= i < |more|
      ensures WithinDepth(more[i], n)
    {
      assert all[i + 1] == more[i];
    }
  }

  /** If the calls of a run do not get past layer `k`, because it answers each time without calling its
      handler, then what is inside it makes no difference, while the layers outside it still work on its
      answers. */
  lemma {:induction false} StopHidesTheInside<W, R>(
    ls: seq<Layer<W, R>>, ls': seq<Layer<W, R>>, core: Handler<W, R>, core': Handler<W, R>,
    event: ClientEvent, data: Data, w: W, k: nat)
    requires k < |ls| && k < |ls'| && ls[..k + 1] == ls'[..k + 1]
    requires WithinDepth(CallsOf(ls, core, event, data, w), k + 1)
    ensures LayerChain(ls, core)(event, data, w) == LayerChain(ls', core')(event, data, w)
    ensures CallsOf(ls, core, event, data, w) == CallsOf(ls', core', event, data, w)
    decreases k, 1, 0
  {
    assert ls[0] == ls[..k + 1][0] == ls'[0];
    assert ls[1..][..k] == ls[..k + 1][1..] == ls'[1..][..k];
    StopHidesFrom(ls[0], ls[1..], ls'[1..], core, core', event, data, [], ls[0].most(event, data, w), w, k);
  }

  lemma {:induction false} StopHidesFrom<W, R>(
    l: Layer<W, R>, rest: seq<Layer<W, R>>, rest': seq<Layer<W, R>>, core: Handler<W, R>, core': Handler<W, R>,
    event: ClientEvent, data: Data, replies: seq<Reply<R>>, left: nat, w: W, k: nat)
    requires k <= |rest| && k <= |rest'| && rest[..k] == rest'[..k]
    requires AllWithinDepth(CallsFrom(l, rest, core, event, data, replies, left, w), k)
    ensures RunLayer(l, LayerChain(rest, core), event, data, replies, left, w)
      == RunLayer(l, LayerChain(rest', core'), event, data, replies, left, w)
    ensures CallsFrom(l, rest, core, event, data, replies, left, w)
      == CallsFrom(l, rest', core', event, data, replies, left, w)
    decreases k, 0, left
  {
    if left > 0 {
      var d := l.next(event, data, replies, w);
      if d.Go? {
        var (reply, w2) := LayerChain(rest, core)(d.event, d.data, d.w);
        var more := CallsFrom(l, rest, core, event, data, replies + [reply], left - 1, w2);
        AllWithinCons(CallsOf(rest, core, d.event, d.data, d.w), more, k);
        assert k > 0;
        StopHidesTheInside(rest, rest', core, core', d.event, d.data, d.w, k - 1);
        StopHidesFrom(l, rest, rest', core, core', event, data, replies + [reply], left - 1, w2, k);
      }
    }
  }

  // ---- Traces ----

  datatype Mark = Entered(level: nat) | CoreRan | Left(level: nat)

  /** The marks of a run: each layer is entered before and left after all that it calls. */
  function Onion(level: nat, c: Calls): seq<Mark>
    decreases c
  {
    match c
    case CoreCalled => [CoreRan]
    case LayerCalled(inside) => [Entered(level)] + Onions(level + 1, inside) + [Left(level)]
  }

  function Onions(level: nat, cs: seq<Calls>): seq<Mark>
    decreases cs
  {
    if cs == [] then [] else Onion(level, cs[0]) + Onions(level, cs[1..])
  }

  /** The same decisions beside a list of marks. */
  function Beside<W, R>(l: Layer<W, R>): Layer<(W, seq<Mark>), R> {
    Layer(
      (event: ClientEvent, data: Data, w: (W, seq<Mark>)) => l.most(event, data, w.0),
      (event: ClientEvent, data: Data, replies: seq<Reply<R>>, w: (W, seq<Mark>)) =>
        match l.next(event, data, replies, w.0)
        case Stop(reply, w1) => Stop(reply, (w1, w.1))
        case Go(event1, data1, w1) => Go(event1, data1, (w1, w.1)),
      (event: ClientEvent, data: Data, replies: seq<Reply<R>>, w: (W, seq<Mark>)) =>
        var (reply, w1) := l.finish(event, data, replies, w.0); (reply, (w1, w.1))
    )
  }

  /** A layer that also notes when it is entered and left. */
  function Noting<W, R>(level: nat, l: Layer<W, R>): Middleware<(W, seq<Mark>), R> {
    (handler: Handler<(W, seq<Mark>), R>, event: ClientEvent, data: Data, w: (W, seq<Mark>)) =>
      var entered := (w.0, w.1 + [Entered(level)]);
      var (reply, w1) := RunLayer(Beside(l), handler, event, data, [], l.most(event, data, w.0), entered);
      (reply, (w1.0, w1.1 + [Left(level)]))
  }

  function NotingAll<W, R>(level: nat, ls: seq<Layer<W, R>>): seq<Middleware<(W, seq<Mark>), R>>
    decreases |ls|
  {
    if ls == [] then [] else [Noting(level, ls[0])] + NotingAll(level + 1, ls[1..])
  }

  function NotingCore<W, R>(core: Handler<W, R>): Handler<(W, seq<Mark>), R> {
    (event, data, w: (W, seq<Mark>)) => var (reply, w1) := core(event, data, w.0); (reply, (w1, w.1 + [CoreRan]))
  }

  function NotingChain<W, R>(level: nat, ls: seq<Layer<W, R>>, core: Handler<W, R>): Handler<(W, seq<Mark>), R> {
    Chain(NotingAll(level, ls), NotingCore(core))
  }

  /**
   Every layer is entered before and left after whatever it calls, and it calls the next one of the list
   or, if it is the last, the core: the trace of a run is well nested, in list order, however often each
   layer calls its handler. Noting this changes neither the answer nor the rest of the world.
   */
  lemma {:induction false} RunsLikeAnOnion<W, R>(
    level: nat, ls: seq<Layer<W, R>>, core: Handler<W, R>, event: ClientEvent, data: Data, w: W, marks: seq<Mark>)
    ensures var (reply, w') := LayerChain(ls, core)(event, data, w);
      NotingChain(level, ls, core)(event, data, (w, marks))
        == (reply, (w', marks + Onion(level, CallsOf(ls, core, event, data, w))))
    decreases |ls|, 0, 0
  {
    if ls != [] {
      var entered := marks + [Entered(level)];
      var calls := CallsFrom(ls[0], ls[1..], core, event, data, [], ls[0].most(event, data, w), w);
      ChainCons(AsMiddleware(ls[0]), AsMiddlewares(ls[1..]), core);
      ChainCons(Noting(level, ls[0]), NotingAll(level + 1, ls[1..]), NotingCore(core));
      RunsLikeOnions(level + 1, ls[0], ls[1..], core, event, data, [], ls[0].most(event, data, w), w, entered);
      Regroup(marks, [Entered(level)], Onions(level + 1, calls), [Left(level)]);
    }
  }

  lemma Regroup<T>(a: seq<T>, b: seq<T>, c: seq<T>, d: seq<T>)
    ensures a + b + c + d == a + (b + c + d)
  {
  }

  lemma {:induction false} RunsLikeOnions<W, R>(
    level: nat, l: Layer<W, R>, rest: seq<Layer<W, R>>, core: Handler<W, R>, event: ClientEvent, data: Data,
    replies: seq<Reply<R>>, left: nat, w: W, marks: seq<Mark>)
    ensures var (reply, w') := RunLayer(l, LayerChain(rest, core), event, data, replies, left, w);
      RunLayer(Beside(l), NotingChain(level, rest, core), event, data, replies, left, (w, marks))
        == (reply, (w', marks + Onions(level, CallsFrom(l, rest, core, event, data, replies, left, w))))
    decreases |rest|, 1, left
  {
    if left == 0 || l.next(event, data, replies, w).Stop? {
      assert marks + [] == marks;
    } else {
      var d := l.next(event, data, replies, w);
      var (reply, w2) := LayerChain(rest, core)(d.event, d.data, d.w);
      var first := CallsOf(rest, core, d.event, d.data, d.w);
      var more := CallsFrom(l, rest, core, event, data, replies + [reply], left - 1, w2);
      RunsLikeAnOnion(level, rest, core, d.event, d.data, d.w, marks);
      RunsLikeOnions(level, l, rest, core, event, data, replies + [reply], left - 1, w2, marks + Onion(level, first));
      assert ([first] + more)[1..] == more;
      assert marks + Onion(level, first) + Onions(level, more) == marks + (Onion(level, first) + Onions(level, more));
    }
  }

  // ---- The middlewares that come with the package ----

  predicate IsException(exc: Exc) {
    !exc.Control?
  }

  function Bounded<R>(reply: Reply<R>, event: ClientEvent): Reply<R> {
    if reply.Threw? && IsException(reply.exc) then Threw(HandlerError(event.eventType, event.seqNo)) else reply
  }

  /** Turns any exception of the handler, SkipHandler included, into a HandlerError. */
  function ErrorBoundary<W, R>(): Middleware<W, R> {
    (handler: Handler<W, R>, event: ClientEvent, data: Data, w: W) =>
      var (reply, w') := handler(event, data, w); (Bounded(reply, event), w')
  }

  /** Sees every event and changes nothing. */
  function Logging<W, R>(log: (ClientEvent, Data, W) -> W): Middleware<W, R> {
    (handler: Handler<W, R>, event: ClientEvent, data: Data, w: W) => handler(event, data, log(event, data, w))
  }

  /** Both are layers, so the onion is theirs too. */
  lemma ShippedMiddlewaresAreLayers<W, R>(
    handler: Handler<W, R>, log: (ClientEvent, Data, W) -> W, event: ClientEvent, data: Data, w: W)
    ensures ErrorBoundary<W, R>()(handler, event, data, w) ==
      AsMiddleware(Once(
        (e, d, w0) => Go(e, d, w0),
        (e: ClientEvent, d: Data, reply: Reply<R>, w0: W) => (Bounded(reply, e), w0)
      ))(handler, event, data, w)
    ensures Logging<W, R>(log)(handler, event, data, w) ==
      AsMiddleware(Once(
        (e: ClientEvent, d: Data, w0: W) => Go(e, d, log(e, d, w0)),
        (e: ClientEvent, d: Data, reply: Reply<R>, w0: W) => (reply, w0)
      ))(handler, event, data, w)
  {
    OnceIs<W, R>((e, d, w0) => Go(e, d, w0),
                 (e: ClientEvent, d: Data, reply: Reply<R>, w0: W) => (Bounded(reply, e), w0), handler, event, data, w);
    OnceIs<W, R>((e: ClientEvent, d: Data, w0: W) => Go(e, d, log(e, d, w0)),
                 (e: ClientEvent, d: Data, reply: Reply<R>, w0: W) => (reply, w0), handler, event, data, w);
  }

  /** The middlewares of the package that fit around a callback. */
  datatype Shipped<!W> = Boundary | Log(log: (ClientEvent, Data, W) -> W)

  function MiddlewareOf<W, R>(s: Shipped<W>): Middleware<W, R> {
    match s
    case Boundary => ErrorBoundary()
    case Log(log) => Logging(log)
  }

  function MiddlewaresOf<W, R>(ss: seq<Shipped<W>>): seq<Middleware<W, R>> {
    if ss == [] then [] else [MiddlewareOf(ss[0])] + MiddlewaresOf(ss[1..])
  }

  predicate HasBoundary<W>(ss: seq<Shipped<W>>) {
    exists i | 0 <= i < |ss| :: ss[i].Boundary?
  }

  /** The world after all log lines were written, the outermost first. */
  function AfterLogs<W>(ss: seq<Shipped<W>>, event: ClientEvent, data: Data, w: W): W {
    if ss == [] then w
    else AfterLogs(ss[1..], event, data, if ss[0].Log? then ss[0].log(event, data, w) else w)
  }

  /** Where the boundaries stand and how many there are makes no difference: the core sees the event after
      all log lines, and what it ends in is turned into a HandlerError exactly if there is a boundary. */
  lemma {:induction false} ShippedChainIs<W, R>(
    ss: seq<Shipped<W>>, core: Handler<W, R>, event: ClientEvent, data: Data, w: W)
    ensures var (reply, w') := core(event, data, AfterLogs(ss, event, data, w));
      Chain(MiddlewaresOf(ss), core)(event, data, w) == (if HasBoundary(ss) then Bounded(reply, event) else reply, w')
  {
    if ss != [] {
      var rest := ss[1..];
      ChainCons(MiddlewareOf<W, R>(ss[0]), MiddlewaresOf(rest), core);
      ShippedChainIs(rest, core, event, data, if ss[0].Log? then ss[0].log(event, data, w) else w);
      assert forall i | 0 <= i < |rest| :: rest[i] == ss[i + 1];
      assert HasBoundary(rest) ==> HasBoundary(ss);
      assert HasBoundary(ss) ==> ss[0].Boundary? || HasBoundary(rest);
    }
  }

  /** With a boundary anywhere in a chain of any middlewares, no SkipHandler reaches those outside it. */
  lemma BoundaryHidesSkip<W, R>(pre: seq<Middleware<W, R>>, rest: seq<Middleware<W, R>>, core: Handler<W, R>,
                                event: ClientEvent, data: Data, w: W)
    ensures Chain(pre + ([ErrorBoundary()] + rest), core) == Chain(pre, Chain([ErrorBoundary()] + rest, core))
    ensures var reply := Chain([ErrorBoundary()] + rest, core)(event, data, w).0;
      reply.Threw? ==> reply.exc.Control? || reply.exc == HandlerError(event.eventType, event.seqNo)
  {
    ChainAppend(pre, [ErrorBoundary()] + rest, core);
    ChainCons(ErrorBoundary<W, R>(), rest, core);
    var inside := Chain(rest, core);
    assert ErrorBoundary<W, R>()(inside, event, data, w).0 == Bounded(inside(event, data, w).0, event);
    assert Chain([ErrorBoundary()] + rest, core)(event, data, w) == ErrorBoundary<W, R>()(inside, event, data, w);
  }
}
