/** Deduplication of at-least-once delivery: the store's façade and the middleware on top of it. */
module Idempotency {
  import opened Common
  import opened Events
  import opened Handlers
  import opened Chains
  import opened TimedMap
  import opened MemoryStorages

  class IdempotencyStore {
    const storage: MemoryStorage<string, bool>

    constructor (storage: MemoryStorage<string, bool>)
      ensures this.storage == storage
    {
      this.storage := storage;
    }

    /** The deadlines a caller may rely on, by key. */
    ghost function Marks(): map<string, Entry<bool>>
      reads storage
    {
      storage.ideal
    }

    method Seen(key: string) returns (seen: bool, ghost at: Readings)
      requires storage.Valid()
      modifies storage, storage.clock
      ensures storage.Valid() && Ordered(old(storage.clock.now), at) && at.sweep == storage.clock.now
      ensures Marks() == old(Marks())
      ensures seen <==> Live(Marks(), key, at.check)
    {
      var value, t := storage.Get(key);
      seen := value.Some?;
      at := t;
    }

    method Mark(key: string, ttl: Option<real>) returns (ghost at: Readings)
      requires storage.Valid()
      modifies storage, storage.clock
      ensures storage.Valid() && Ordered(old(storage.clock.now), at) && at.sweep == storage.clock.now
      ensures Marks() == old(Marks())[key := Fresh(true, ttl, at.write)]
    {
      at := storage.Put(key, true, ttl);
    }

    method MarkIfNew(key: string, ttl: Option<real>) returns (isNew: bool, ghost at: Readings)
      requires storage.Valid()
      modifies storage, storage.clock
      ensures storage.Did(PutIfNew(key, true, ttl), Wrote(isNew), at)
      ensures isNew <==> !Live(old(Marks()), key, at.check)
      ensures Marks() == if isNew then old(Marks())[key := Fresh(true, ttl, at.write)] else old(Marks())
    {
      var wrote, t := storage.PutIfNew(key, true, ttl);
      isNew := wrote;
      at := t;
    }
  }

  type MarkMap = map<string, Entry<bool>>

  /** The middleware as a layer of a chain, at the clock readings of one call: the marks are part of the
      world. */
  function DedupLayer<V>(ttl: Option<real>, at: Readings): Layer<(V, MarkMap), DispatchResult> {
    Once(
      (event: ClientEvent, data: Data, w: (V, MarkMap)) =>
        var key := DedupKey(event, data);
        if Live(w.1, key, at.check) then Stop(Returned(DispatchResult(Duplicate, event, None)), w)
        else Go(event, data, (w.0, w.1[key := Fresh(true, ttl, at.write)])),
      (event: ClientEvent, data: Data, reply: Reply<DispatchResult>, w: (V, MarkMap)) => (reply, w)
    )
  }

  lemma DedupLayerIs<V>(ttl: Option<real>, at: Readings, handler: Handler<(V, MarkMap), DispatchResult>,
                        event: ClientEvent, data: Data, w: V, marks: MarkMap)
    ensures var key := DedupKey(event, data);
      AsMiddleware(DedupLayer(ttl, at))(handler, event, data, (w, marks)) ==
        if Live(marks, key, at.check) then (Returned(DispatchResult(Duplicate, event, None)), (w, marks))
        else handler(event, data, (w, marks[key := Fresh(true, ttl, at.write)]))
  {
    OnceIs<(V, MarkMap), DispatchResult>(
      (event: ClientEvent, data: Data, w: (V, MarkMap)) =>
        var key := DedupKey(event, data);
        if Live(w.1, key, at.check) then Stop(Returned(DispatchResult(Duplicate, event, None)), w)
        else Go(event, data, (w.0, w.1[key := Fresh(true, ttl, at.write)])),
      (event: ClientEvent, data: Data, reply: Reply<DispatchResult>, w: (V, MarkMap)) => (reply, w),
      handler, event, data, (w, marks));
  }

  /** A handler that leaves the marks alone. */
  function BesideMarks<V>(handler: Handler<V, DispatchResult>): Handler<(V, MarkMap), DispatchResult> {
    (event, data, w: (V, MarkMap)) => var (reply, w1) := handler(event, data, w.0); (reply, (w1, w.1))
  }

  class IdempotencyMiddleware {
    const store: IdempotencyStore
    const ttl: Option<real>

    constructor (store: IdempotencyStore, ttl: Option<real>)
      ensures this.store == store && this.ttl == ttl
    {
      this.store, this.ttl := store, ttl;
    }

    /**
     An event whose key is marked and not yet out of date is answered with Duplicate and the next
     handler does not run. Any other event's key is marked, for `ttl` from the write, and then the
     next handler runs: however that ends, the mark stays. So the middleware is a layer of a chain.
     */
    method Call<W>(handler: Handler<W, DispatchResult>, event: ClientEvent, data: Data, w: W)
      returns (reply: Reply<DispatchResult>, w': W, ghost at: Readings)
      requires store.storage.Valid()
      modifies store.storage, store.storage.clock
      ensures store.storage.Did(PutIfNew(DedupKey(event, data), true, ttl),
                                Wrote(!Live(old(store.Marks()), DedupKey(event, data), at.check)), at)
      ensures Live(old(store.Marks()), DedupKey(event, data), at.check) ==>
        reply == Returned(DispatchResult(Duplicate, event, None)) && w' == w && store.Marks() == old(store.Marks())
      ensures !Live(old(store.Marks()), DedupKey(event, data), at.check) ==>
        && (reply, w') == handler(event, data, w)
        && store.Marks() == old(store.Marks())[DedupKey(event, data) := Fresh(true, ttl, at.write)]
      ensures (reply, (w', store.Marks()))
        == AsMiddleware(DedupLayer(ttl, at))(BesideMarks(handler), event, data, (w, old(store.Marks())))
    {
      var key := DedupKey(event, data);
      var isNew, t := store.MarkIfNew(key, ttl);
      at := t;
      DedupLayerIs(ttl, at, BesideMarks(handler), event, data, w, old(store.Marks()));
      if !isNew {
        return Returned(DispatchResult(Duplicate, event, None)), w, t;
      }
      var (r, after) := handler(event, data, w);
      reply, w' := r, after;
    }
  }
}
