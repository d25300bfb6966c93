/** The tree of routers and the order in which their handlers are tried. */
module Routers {
  import opened Common
  import opened Events
  import opened Handlers

  /** What a filter gives: a falsy value, a truthy one, a dictionary, or an exception. */
  datatype Verdict = Rejects | Accepts | AcceptsWith(extra: Data) | FilterRaises(exc: Exc)

  type Filter<!W> = (ClientEvent, Data, W) -> (Verdict, W)

  /** `params` are the names a callback declares; `None` if it takes everything. */
  datatype Callback<!W> = Callback(params: Option<set<string>>, body: (Data, W) -> (Reply<Value>, W))

  datatype HandlerObject<!W> = HandlerObject(callback: Callback<W>, filters: seq<Filter<W>>)

  function EventTypeFilter<W>(types: set<string>): Filter<W> {
    (event: ClientEvent, data: Data, w: W) => (if event.eventType in types then Accepts else Rejects, w)
  }

  /** A filter as it is given to `On`: an event type, or a filter proper. */
  datatype FilterSpec<!W> = OfType(eventType: string) | Custom(filter: Filter<W>)

  function Resolve<W>(specs: seq<FilterSpec<W>>): seq<Filter<W>> {
    if specs == [] then []
    else [match specs[0] case OfType(t) => EventTypeFilter({t}) case Custom(f) => f] + Resolve(specs[1..])
  }

  /** Every child of a router of the universe is in it and ranks below its parent: no cycles. */
  ghost predicate Acyclic<W>(all: set<Router<W>>)
    reads all
  {
    forall r, i | r in all && 0 <= i < |r.children| :: r.children[i] in all && r.children[i].rank < r.rank
  }

  function HandlersOf<W>(routers: seq<Router<W>>): seq<HandlerObject<W>>
    reads routers
  {
    if routers == [] then [] else routers[0].handlers + HandlersOf(routers[1..])
  }

  lemma {:induction false} HandlersOfAppend<W>(a: seq<Router<W>>, b: seq<Router<W>>)
    ensures HandlersOf(a + b) == HandlersOf(a) + HandlersOf(b)
  {
    if a == [] {
      assert a + b == b;
    } else {
      assert (a + b)[1..] == a[1..] + b;
      HandlersOfAppend(a[1..], b);
    }
  }

  // ---- The tree as a value ----

  /** What the lists of every router of a universe hold at one moment. */
  datatype Tree<!W> = Tree(handlers: map<Router<W>, seq<HandlerObject<W>>>, children: map<Router<W>, seq<Router<W>>>)

  ghost function Snapshot<W>(all: set<Router<W>>): Tree<W>
    reads all
  {
    Tree(map r | r in all :: r.handlers, map r | r in all :: r.children)
  }

  ghost predicate Ranked<W>(t: Tree<W>) {
    && t.handlers.Keys == t.children.Keys
    && forall r, i | r in t.children && 0 <= i < |t.children[r]| ::
      t.children[r][i] in t.children && t.children[r][i].rank < r.rank
  }

  /** The handlers below a router in preorder: its own before its children's. */
  ghost function Flatten<W>(t: Tree<W>, r: Router<W>): seq<HandlerObject<W>>
    requires Ranked(t) && r in t.children
    decreases r.rank, 1, 0
  {
    t.handlers[r] + FlattenFrom(t, r, 0)
  }

  ghost function FlattenFrom<W>(t: Tree<W>, r: Router<W>, i: nat): seq<HandlerObject<W>>
    requires Ranked(t) && r in t.children && i <= |t.children[r]|
    decreases r.rank, 0, |t.children[r]| - i
  {
    if i == |t.children[r]| then [] else Flatten(t, t.children[r][i]) + FlattenFrom(t, r, i + 1)
  }

  /** Below a rank, both trees have the same routers with the same lists. */
  ghost predicate SameBelow<W>(t: Tree<W>, t': Tree<W>, rank: nat) {
    forall r | r in t.children && r.rank < rank ::
      && r in t'.children && t.children[r] == t'.children[r]
      && r in t.handlers && r in t'.handlers && t.handlers[r] == t'.handlers[r]
  }

  lemma {:induction false} FlattenSame<W>(t: Tree<W>, t': Tree<W>, r: Router<W>, rank: nat)
    requires Ranked(t) && Ranked(t') && r in t.children && r.rank < rank && SameBelow(t, t', rank)
    ensures r in t'.children && Flatten(t', r) == Flatten(t, r)
    decreases r.rank, 1, 0
  {
    FlattenFromSame(t, t', r, 0);
  }

  lemma {:induction false} FlattenFromSame<W>(t: Tree<W>, t': Tree<W>, r: Router<W>, i: nat)
    requires Ranked(t) && Ranked(t') && r in t.children && SameBelow(t, t', r.rank)
    requires r in t'.children && t.children[r] == t'.children[r] && i <= |t.children[r]|
    ensures FlattenFrom(t', r, i) == FlattenFrom(t, r, i)
    decreases r.rank, 0, |t.children[r]| - i
  {
    if i < |t.children[r]| {
      FlattenSame(t, t', t.children[r][i], r.rank);
      FlattenFromSame(t, t', r, i + 1);
    }
  }

  lemma {:induction false} FlattenAppended<W>(t: Tree<W>, t': Tree<W>, r: Router<W>, child: Router<W>, i: nat)
    requires Ranked(t) && Ranked(t') && r in t.children && SameBelow(t, t', r.rank)
    requires child in t.children && child.rank < r.rank
    requires r in t'.children && t'.children[r] == t.children[r] + [child] && i <= |t.children[r]|
    ensures FlattenFrom(t', r, i) == FlattenFrom(t, r, i) + Flatten(t, child)
    decreases |t.children[r]| - i
  {
    if i == |t.children[r]| {
      FlattenSame(t, t', child, r.rank);
      assert FlattenFrom(t', r, i) == Flatten(t', child) + FlattenFrom(t', r, i + 1);
    } else {
      FlattenSame(t, t', t.children[r][i], r.rank);
      FlattenAppended(t, t', r, child, i + 1);
    }
  }

  class Router<W> {
    var handlers: seq<HandlerObject<W>>
    var children: seq<Router<W>>
    /** Where this router stands in a tree; any number larger than those of the routers below it. */
    ghost const rank: nat

    constructor (ghost rank: nat)
      ensures handlers == [] && children == [] && this.rank == rank
    {
      handlers, children, this.rank := [], [], rank;
    }

    /** This router, then everything below each child in turn. */
    function Walk(ghost all: set<Router<W>>): (routers: seq<Router<W>>)
      requires Acyclic(all) && this in all
      reads all
      ensures forall r | r in routers :: r in all
      decreases rank, 1, 0
    {
      [this] + WalkFrom(all, 0)
    }

    function WalkFrom(ghost all: set<Router<W>>, i: nat): (routers: seq<Router<W>>)
      requires Acyclic(all) && this in all && i <= |children|
      reads all
      ensures forall r | r in routers :: r in all
      decreases rank, 0, |children| - i
    {
      if i == |children| then [] else children[i].Walk(all) + WalkFrom(all, i + 1)
    }

    /** Walking the routers and trying each one's handlers is trying the flattened list. */
    lemma {:induction false} WalkFlattens(all: set<Router<W>>)
      requires Acyclic(all) && this in all
      ensures HandlersOf(Walk(all)) == Flatten(Snapshot(all), this)
      decreases rank, 1, 0
    {
      WalkFromFlattens(all, 0);
      assert Walk(all)[1..] == WalkFrom(all, 0);
    }

    lemma {:induction false} WalkFromFlattens(all: set<Router<W>>, i: nat)
      requires Acyclic(all) && this in all && i <= |children|
      ensures HandlersOf(WalkFrom(all, i)) == FlattenFrom(Snapshot(all), this, i)
      decreases rank, 0, |children| - i
    {
      if i < |children| {
        children[i].WalkFlattens(all);
        WalkFromFlattens(all, i + 1);
        HandlersOfAppend(children[i].Walk(all), WalkFrom(all, i + 1));
      }
    }

    /** Register a handler: it comes after this router's own handlers and before its children's. */
    method On(ghost all: set<Router<W>>, specs: seq<FilterSpec<W>>, callback: Callback<W>)
      requires Acyclic(all) && this in all
      modifies this`handlers
      ensures Acyclic(all)
      ensures Flatten(Snapshot(all), this)
        == old(handlers) + [HandlerObject(callback, Resolve(specs))] + old(FlattenFrom(Snapshot(all), this, 0))
    {
      ghost var before := Snapshot(all);
      handlers := handlers + [HandlerObject(callback, Resolve(specs))];
      FlattenFromSame(before, Snapshot(all), this, 0);
    }

    /** Include a child: everything below it comes last. */
    method IncludeRouter(ghost all: set<Router<W>>, child: Router<W>)
      requires Acyclic(all) && this in all && child in all && child.rank < rank
      modifies this`children
      ensures Acyclic(all)
      ensures Flatten(Snapshot(all), this) == old(Flatten(Snapshot(all), this)) + old(Flatten(Snapshot(all), child))
    {
      ghost var before := Snapshot(all);
      children := children + [child];
      FlattenAppended(before, Snapshot(all), this, child, 0);
    }
  }
}
