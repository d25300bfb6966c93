/** The in-memory storage: a dictionary changed in place, with lazy and active expiry. */
module MemoryStorages {
  import opened Common
  import opened Clocks
  import opened TimedMap

  class MemoryStorage<K(==), V> {
    const clock: Clock
    var data: map<K, Entry<V>>
    var writes: nat

    /** The map a caller may think of instead of `data`. */
    ghost var ideal: map<K, Entry<V>>
    /** The clock at the end of the latest operation. */
    ghost var seenAt: real
    /** How many entries the latest sweep found live. */
    ghost var liveAtSweep: nat

    ghost function Model(): Store<K, V>
      reads this
    {
      Store(data, writes)
    }

    ghost predicate Valid()
      reads this, clock
    {
      && Refines(Model(), ideal, seenAt)
      && seenAt <= clock.now
      && |data| <= liveAtSweep + writes % SWEEP_INTERVAL
    }

    /** `this` and its clock as they were, after one operation of the ideal map. */
    twostate predicate Did(op: Op<K, V>, new answer: Answer<V>, at: Readings)
      reads this, clock
    {
      && Valid()
      && Ordered(old(clock.now), at) && at.sweep == clock.now == seenAt
      && (Model(), answer) == Step(old(Model()), op, at)
      && (ideal, answer) == IdealStep(old(ideal), op, at)
      && liveAtSweep == if Sweeps(old(Model()), Model()) then |LiveKeys(ideal, at.sweep)| else old(liveAtSweep)
    }

    constructor (clock: Clock)
      ensures Valid() && this.clock == clock && ideal == map[] && Model() == Empty()
    {
      this.clock := clock;
      data, writes := map[], 0;
      ideal, seenAt, liveAtSweep := map[], clock.now, 0;
    }

    /** The ghost side of every operation below. */
    ghost method Settle(before: Store<K, V>, op: Op<K, V>, at: Readings)
      requires Refines(before, ideal, seenAt) && seenAt <= at.check && Ordered(at.check, at) && at.sweep == clock.now
      requires |before.data| <= liveAtSweep + before.writes % SWEEP_INTERVAL
      requires Model() == Step(before, op, at).0
      modifies `ideal, `seenAt, `liveAtSweep
      ensures Valid() && seenAt == at.sweep
      ensures (ideal, Step(before, op, at).1) == IdealStep(old(ideal), op, at)
      ensures liveAtSweep == if Sweeps(before, Model()) then |LiveKeys(ideal, at.sweep)| else old(liveAtSweep)
    {
      StepRefines(before, ideal, seenAt, op, at);
      StepSize(before, ideal, seenAt, op, at);
      ideal := IdealStep(ideal, op, at).0;
      seenAt := at.sweep;
      if Sweeps(before, Model()) {
        liveAtSweep := |LiveKeys(ideal, at.sweep)|;
      }
    }

    method Get(key: K) returns (value: Option<V>, ghost at: Readings)
      requires Valid()
      modifies this, clock
      ensures Did(TimedMap.Op.Get(key), Found(value), at)
    {
      ghost var before := Model();
      at := Readings(clock.now, clock.now, clock.now);
      value := None;
      if key in data {
        var entry := data[key];
        value := Some(entry.value);
        if entry.expiresAt.Some? {
          var now := clock.Read();
          at := Readings(now, now, now);
          if entry.expiresAt.value < now {
            data := data - {key};
            value := None;
          }
        }
      }
      assert key !in before.data ==> before.data - {key} == before.data;
      Settle(before, TimedMap.Op.Get(key), at);
    }

    /** Count the write; at every 500th one, delete what has expired. */
    method MaybeSweep() returns (ghost at: real)
      modifies this`data, this`writes, clock
      ensures old(clock.now) <= at == clock.now
      ensures writes == old(writes) + 1
      ensures data == if writes % 500 == 0 then map k | k in old(data) && !Expired(old(data)[k], at) :: old(data)[k]
        else old(data)
    {
      at := clock.now;
      writes := writes + 1;
      if writes % SWEEP_INTERVAL != 0 {
        return;
      }
      var now := clock.Read();
      at := now;
      var expired := set k | k in data && Expired(data[k], now);
      ghost var before := data;
      while expired != {}
        invariant expired <= data.Keys
        invariant forall k | k in data :: k in before && data[k] == before[k]
        invariant forall k | k in before :: k in data <==> k in expired || !Expired(before[k], now)
        invariant forall k | k in expired :: Expired(before[k], now)
        modifies this`data
        decreases |expired|
      {
        var key :| key in expired;
        data := data - {key};
        expired := expired - {key};
      }
      assert data == Sweep(before, now);
    }

    method WriteEntry(key: K, value: V, ttl: Option<real>) returns (ghost write: real, ghost sweep: real)
      modifies this`data, this`writes, clock
      ensures old(clock.now) <= write <= sweep == clock.now
      ensures Model() == Write(old(Model()), key, Fresh(value, ttl, write), sweep)
    {
      write := clock.now;
      var expiresAt := None;
      if ttl.Some? {
        var now := clock.Read();
        write := now;
        expiresAt := Some(now + ttl.value);
      }
      data := data[key := Entry(value, expiresAt)];
      sweep := MaybeSweep();
    }

    method Put(key: K, value: V, ttl: Option<real>) returns (ghost at: Readings)
      requires Valid()
      modifies this, clock
      ensures Did(TimedMap.Op.Put(key, value, ttl), Nothing, at)
    {
      ghost var before := Model();
      ghost var start := clock.now;
      ghost var write, sweep := WriteEntry(key, value, ttl);
      at := Readings(start, write, sweep);
      Settle(before, TimedMap.Op.Put(key, value, ttl), at);
    }

    /** Nothing is awaited between the check and the write. */
    method PutIfNew(key: K, value: V, ttl: Option<real>) returns (isNew: bool, ghost at: Readings)
      requires Valid()
      modifies this, clock
      ensures Did(TimedMap.Op.PutIfNew(key, value, ttl), Wrote(isNew), at)
    {
      ghost var before := Model();
      ghost var check := clock.now;
      isNew := true;
      if key in data {
        var entry := data[key];
        isNew := false;
        if entry.expiresAt.Some? {
          var now := clock.Read();
          check := now;
          isNew := entry.expiresAt.value < now;
        }
      }
      at := Readings(check, clock.now, clock.now);
      if isNew {
        ghost var write, sweep := WriteEntry(key, value, ttl);
        at := Readings(check, write, sweep);
      }
      Settle(before, TimedMap.Op.PutIfNew(key, value, ttl), at);
    }

    method Delete(key: K) returns (ghost at: Readings)
      requires Valid()
      modifies this, clock
      ensures Did(TimedMap.Op.Delete(key), Nothing, at)
    {
      ghost var before := Model();
      data := data - {key};
      at := Readings(clock.now, clock.now, clock.now);
      Settle(before, TimedMap.Op.Delete(key), at);
    }
  }
}
