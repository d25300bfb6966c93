/** The local resume cursor of each subscription and transport. */
module Cursors {
  import opened Common
  import opened Events
  import opened Clocks
  import opened TimedMap
  import opened MemoryStorages

  function TransportText(t: Transport): string {
    match t
    case Webhook => "webhook"
    case SSE => "sse"
    case WS => "ws"
    case Polling => "polling"
  }

  function CursorKey(subscription: string, transport: Transport): string {
    subscription + ":" + TransportText(transport)
  }

  /** No two pairs of subscription and transport share an entry, whatever the subscription is called. */
  lemma CursorKeyInjective(s1: string, t1: Transport, s2: string, t2: Transport)
    ensures CursorKey(s1, t1) == CursorKey(s2, t2) <==> s1 == s2 && t1 == t2
  {
    if CursorKey(s1, t1) == CursorKey(s2, t2) {
      ColonSplits(s1, TransportText(t1), s2, TransportText(t2));
      assert TransportText(t1)[0] == TransportText(t2)[0] && |TransportText(t1)| == |TransportText(t2)|;
    }
  }

  /** One call of `Advance`. */
  datatype Advanced = Advanced(subscription: string, transport: Transport, seqNo: int)

  /** The largest sequence number the calls gave for this pair, and 0 if that is smaller or absent. */
  ghost function Cursor(calls: seq<Advanced>, subscription: string, transport: Transport): int {
    if calls == [] then 0
    else
      var c := calls[|calls| - 1];
      var before := Cursor(calls[..|calls| - 1], subscription, transport);
      if c.subscription == subscription && c.transport == transport then Max(before, c.seqNo) else before
  }

  ghost predicate Mine(c: Advanced, subscription: string, transport: Transport) {
    c.subscription == subscription && c.transport == transport
  }

  /** The order and repetition of calls do not matter: the cursor is the one number that is 0 or was
      given for the pair, and that no number given for the pair, nor 0, exceeds. */
  lemma {:induction false} CursorIsMaximum(calls: seq<Advanced>, subscription: string, transport: Transport, n: int)
    ensures n == Cursor(calls, subscription, transport) <==>
      && 0 <= n && (forall i | 0 <= i < |calls| && Mine(calls[i], subscription, transport) :: calls[i].seqNo <= n)
      && (n == 0 || exists i | 0 <= i < |calls| :: Mine(calls[i], subscription, transport) && calls[i].seqNo == n)
  {
    CursorBounds(calls, subscription, transport);
  }

  lemma {:induction false} CursorBounds(calls: seq<Advanced>, subscription: string, transport: Transport)
    ensures var c := Cursor(calls, subscription, transport);
      && 0 <= c && (forall i | 0 <= i < |calls| && Mine(calls[i], subscription, transport) :: calls[i].seqNo <= c)
      && (c == 0 || exists i | 0 <= i < |calls| :: Mine(calls[i], subscription, transport) && calls[i].seqNo == c)
  {
    if calls != [] {
      var front, last := calls[..|calls| - 1], calls[|calls| - 1];
      CursorBounds(front, subscription, transport);
      var c := Cursor(front, subscription, transport);
      if c != 0 {
        var i :| 0 <= i < |front| && Mine(front[i], subscription, transport) && front[i].seqNo == c;
        assert Mine(calls[i], subscription, transport);
      }
      assert calls == front + [last];
      assert Mine(last, subscription, transport) ==> Mine(calls[|calls| - 1], subscription, transport);
    }
  }

  /** Each entry is the maximum for its pair, was written without a ttl, and is there unless that is 0. */
  ghost predicate Agrees(entries: map<string, Entry<int>>, calls: seq<Advanced>) {
    forall s, t {:trigger CursorKey(s, t)} ::
      if CursorKey(s, t) in entries
      then entries[CursorKey(s, t)] == Entry(Cursor(calls, s, t), None) && Cursor(calls, s, t) > 0
      else Cursor(calls, s, t) == 0
  }

  lemma AdvanceAgrees(entries: map<string, Entry<int>>, calls: seq<Advanced>, c: Advanced)
    requires Agrees(entries, calls)
    ensures var key := CursorKey(c.subscription, c.transport);
      var higher := c.seqNo > Cursor(calls, c.subscription, c.transport);
      Agrees(if higher then entries[key := Entry(c.seqNo, None)] else entries, calls + [c])
  {
    var key := CursorKey(c.subscription, c.transport);
    var higher := c.seqNo > Cursor(calls, c.subscription, c.transport);
    var after := if higher then entries[key := Entry(c.seqNo, None)] else entries;
    assert (calls + [c])[..|calls|] == calls;
    forall s, t {:trigger CursorKey(s, t)}
      ensures if CursorKey(s, t) in after
        then after[CursorKey(s, t)] == Entry(Cursor(calls + [c], s, t), None) && Cursor(calls + [c], s, t) > 0
        else Cursor(calls + [c], s, t) == 0
    {
      CursorKeyInjective(s, t, c.subscription, c.transport);
      CursorBounds(calls, s, t);
    }
  }

  class CursorStore {
    const storage: MemoryStorage<string, int>
    /** Every call of `Advance` so far. */
    ghost var calls: seq<Advanced>

    ghost predicate Valid()
      reads this, storage, storage.clock
    {
      storage.Valid() && Agrees(storage.ideal, calls)
    }

    constructor (storage: MemoryStorage<string, int>)
      requires storage.Valid() && storage.ideal == map[]
      ensures Valid() && this.storage == storage && calls == []
    {
      this.storage := storage;
      calls := [];
    }

    method Get(subscription: string, transport: Transport) returns (seqNo: int)
      requires Valid()
      modifies storage, storage.clock
      ensures Valid() && old(storage.clock.now) <= storage.clock.now && storage.ideal == old(storage.ideal)
      ensures seqNo == Cursor(calls, subscription, transport)
    {
      var value, _ := storage.Get(CursorKey(subscription, transport));
      seqNo := if value.Some? then value.value else 0;
    }

    method Advance(subscription: string, transport: Transport, seqNo: int)
      requires Valid()
      modifies this`calls, storage, storage.clock
      ensures Valid() && old(storage.clock.now) <= storage.clock.now
      ensures calls == old(calls) + [Advanced(subscription, transport, seqNo)]
    {
      var current := Get(subscription, transport);
      AdvanceAgrees(storage.ideal, calls, Advanced(subscription, transport, seqNo));
      if seqNo > current {
        var _ := storage.Put(CursorKey(subscription, transport), seqNo, None);
      }
      calls := calls + [Advanced(subscription, transport, seqNo)];
    }
  }
}
