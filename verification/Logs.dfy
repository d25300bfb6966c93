/** A server's log: sequence numbers in increasing order, read from some number on. */
module Logs {

  ghost predicate Increasing(log: seq<int>) {
    forall i, j | 0 <= i < j < |log| :: log[i] < log[j]
  }

  /** The part of the log above a number. */
  function Above(log: seq<int>, hint: int): seq<int> {
    if log == [] then []
    else if log[0] > hint then [log[0]] + Above(log[1..], hint)
    else Above(log[1..], hint)
  }

  lemma {:induction false} AboveIs(log: seq<int>, hint: int)
    requires Increasing(log)
    ensures Increasing(Above(log, hint))
    ensures forall s :: s in Above(log, hint) <==> s in log && s > hint
  {
    if log != [] {
      AboveIs(log[1..], hint);
      assert log == [log[0]] + log[1..];
      assert forall s | s in log[1..] :: log[0] < s;
      assert forall i | 0 <= i < |Above(log[1..], hint)| :: Above(log[1..], hint)[i] in Above(log[1..], hint);
    }
  }

  // ---- A log whose entries have types ----

  datatype Logged = Logged(seqNo: int, eventType: string)

  /** A fetch asks for some event types; asking for none in particular gives all. */
  predicate Wants(types: seq<string>, e: Logged) {
    types == [] || e.eventType in types
  }

  function Wanted(types: seq<string>, log: seq<Logged>): seq<int> {
    if log == [] then []
    else if Wants(types, log[0]) then [log[0].seqNo] + Wanted(types, log[1..])
    else Wanted(types, log[1..])
  }

  ghost predicate InOrder(log: seq<Logged>) {
    forall i, j | 0 <= i < j < |log| :: log[i].seqNo < log[j].seqNo
  }

  lemma {:induction false} WantedIs(types: seq<string>, log: seq<Logged>)
    requires InOrder(log)
    ensures Increasing(Wanted(types, log))
    ensures forall x :: x in Wanted(types, log) <==> exists e | e in log :: Wants(types, e) && e.seqNo == x
  {
    if log != [] {
      var rest := Wanted(types, log[1..]);
      WantedIs(types, log[1..]);
      assert log == [log[0]] + log[1..];
      assert forall e | e in log[1..] :: log[0].seqNo < e.seqNo;
      assert forall i | 0 <= i < |rest| :: rest[i] in rest;
    }
  }

  // ---- One more entry ----

  function InsertNumber(log: seq<int>, x: int): seq<int> {
    if log == [] || x < log[0] then [x] + log else [log[0]] + InsertNumber(log[1..], x)
  }

  lemma {:induction false} AboveInsert(log: seq<int>, x: int, hint: int)
    requires Increasing(log)
    ensures Above(InsertNumber(log, x), hint) ==
      if x > hint then InsertNumber(Above(log, hint), x) else Above(log, hint)
  {
    if log == [] || x < log[0] {
      assert ([x] + log)[1..] == log;
      AboveIs(log, hint);
      if x > hint && log != [] {
        assert Above(log, hint) == [log[0]] + Above(log[1..], hint);
      }
    } else {
      var tail := InsertNumber(log[1..], x);
      assert ([log[0]] + tail)[1..] == tail;
      AboveInsert(log[1..], x, hint);
      AboveIs(log[1..], hint);
      if log[0] > hint {
        var kept := Above(log[1..], hint);
        assert ([log[0]] + kept)[1..] == kept;
      }
    }
  }

  /** The log with one entry more, or with that entry instead of the one of the same number. */
  function PutEntry(log: seq<Logged>, e: Logged): seq<Logged> {
    if log == [] || e.seqNo < log[0].seqNo then [e] + log
    else if e.seqNo == log[0].seqNo then [e] + log[1..]
    else [log[0]] + PutEntry(log[1..], e)
  }

  lemma {:induction false} PutKeepsOrder(log: seq<Logged>, e: Logged)
    requires InOrder(log)
    ensures InOrder(PutEntry(log, e)) && e in PutEntry(log, e)
    ensures forall x :: x in PutEntry(log, e) ==> x in log || x == e
  {
    if log != [] && e.seqNo > log[0].seqNo {
      var tail := PutEntry(log[1..], e);
      PutKeepsOrder(log[1..], e);
      assert forall x | x in log[1..] :: log[0].seqNo < x.seqNo;
      assert forall i | 0 <= i < |tail| :: tail[i] in tail;
    } else {
      assert forall i | 0 <= i < |log| :: e.seqNo <= log[i].seqNo;
    }
  }

  lemma WantedCons(types: seq<string>, e: Logged, log: seq<Logged>)
    ensures Wanted(types, [e] + log) ==
      if Wants(types, e) then [e.seqNo] + Wanted(types, log) else Wanted(types, log)
  {
    assert ([e] + log)[1..] == log;
  }

  lemma InsertFirst(types: seq<string>, log: seq<Logged>, x: int)
    requires InOrder(log) && forall e | e in log :: x < e.seqNo
    ensures InsertNumber(Wanted(types, log), x) == [x] + Wanted(types, log)
  {
    WantedIs(types, log);
    if Wanted(types, log) != [] {
      assert Wanted(types, log)[0] in Wanted(types, log);
    }
  }

  lemma InsertLater(head: int, rest: seq<int>, x: int)
    requires head < x
    ensures InsertNumber([head] + rest, x) == [head] + InsertNumber(rest, x)
  {
    assert ([head] + rest)[1..] == rest;
  }

  /** Where no wanted entry had its number, an entry adds its number to what is wanted if it is wanted
      itself, and changes nothing otherwise. */
  lemma {:induction false} WantedPut(types: seq<string>, log: seq<Logged>, e: Logged)
    requires InOrder(log) && forall x | x in log && x.seqNo == e.seqNo :: !Wants(types, x)
    ensures Wanted(types, PutEntry(log, e)) ==
      if Wants(types, e) then InsertNumber(Wanted(types, log), e.seqNo) else Wanted(types, log)
  {
    if log == [] || e.seqNo <= log[0].seqNo {
      var kept := if log != [] && e.seqNo == log[0].seqNo then log[1..] else log;
      assert Wanted(types, kept) == Wanted(types, log);
      WantedCons(types, e, kept);
      InsertFirst(types, kept, e.seqNo);
    } else {
      assert log == [log[0]] + log[1..];
      WantedCons(types, log[0], PutEntry(log[1..], e));
      WantedPut(types, log[1..], e);
      if Wants(types, log[0]) {
        InsertLater(log[0].seqNo, Wanted(types, log[1..]), e.seqNo);
      }
    }
  }

  // ---- A type that is not asked for ----

  function Longest(types: seq<string>): nat {
    if types == [] then 0
    else if |types[0]| > Longest(types[1..]) then |types[0]| else Longest(types[1..])
  }

  lemma {:induction false} LongestBounds(types: seq<string>)
    ensures forall t | t in types :: |t| <= Longest(types)
  {
    if types != [] {
      LongestBounds(types[1..]);
      assert types == [types[0]] + types[1..];
    }
  }

  /** However many types are asked for, there is another. */
  function OtherType(types: seq<string>): (t: string)
    ensures t !in types
  {
    LongestBounds(types);
    seq(Longest(types) + 1, _ => 'x')
  }
}
