/** Events, the data passed along with them, and the deduplication key of an event. */
module Events {
  import opened Common

  /** A value in the data dictionary. `text` is what formatting the value into a string gives. */
  datatype Value =
    | Str(text: string)
    | Obj(id: int, text: string)
    | EventValue(event: ClientEvent, text: string)

  type Data = map<string, Value>

  datatype ClientEvent = ClientEvent(
    seqNo: int,
    eventType: string,
    data: Data,
    transport: Transport,
    eventId: Option<string>,
    idempotencyKey: Option<string>
  )

  const SUBSCRIPTION_ID := "subscription_id"

  // ---- Decimal text ----

  function Digit(d: nat): char
    requires d < 10
  {
    "0123456789"[d]
  }

  function Digits(n: nat): string {
    if n < 10 then [Digit(n)] else Digits(n / 10) + [Digit(n % 10)]
  }

  function Decimal(n: int): string {
    if n < 0 then "-" + Digits(-n) else Digits(n)
  }

  ghost function Reading(s: string): nat {
    if s == [] then 0
    else 10 * Reading(s[..|s| - 1]) + (if '0' <= s[|s| - 1] <= '9' then (s[|s| - 1] - '0') as nat else 0)
  }

  lemma {:induction false} DigitsRead(n: nat)
    ensures Reading(Digits(n)) == n
    ensures forall c | c in Digits(n) :: '0' <= c <= '9'
  {
    if n < 10 {
      assert Digits(n)[..0] == [];
    } else {
      DigitsRead(n / 10);
      assert Digits(n)[..|Digits(n)| - 1] == Digits(n / 10);
    }
  }

  lemma DecimalHead(n: int)
    ensures Decimal(n) != [] && (Decimal(n)[0] == '-' <==> n < 0)
  {
    DigitsRead(if n < 0 then -n else n);
    if n >= 0 {
      assert Decimal(n)[0] in Digits(n);
    }
  }

  lemma DecimalInjective(a: int, b: int)
    requires Decimal(a) == Decimal(b)
    ensures a == b
  {
    DecimalHead(a);
    DecimalHead(b);
    DigitsRead(if a < 0 then -a else a);
    DigitsRead(if b < 0 then -b else b);
    if a < 0 {
      assert Decimal(a)[1..] == Digits(-a) && Decimal(b)[1..] == Digits(-b);
    }
  }

  // ---- Keys of the form prefix:suffix ----

  /** With a colon-free suffix the last colon tells where the suffix starts, whatever the prefix is. */
  lemma ColonSplits(a: string, x: string, b: string, y: string)
    requires ':' !in x && ':' !in y
    requires a + ":" + x == b + ":" + y
    ensures a == b && x == y
  {
    var s, t := a + ":" + x, b + ":" + y;
    assert s[|a|] == ':' && forall i | |a| < i < |s| :: s[i] != ':';
    assert t[|b|] == ':' && forall i | |b| < i < |t| :: t[i] != ':';
    assert |a| == |b|;
    assert a == s[..|a|] && b == t[..|b|];
    assert x == s[|a| + 1..] && y == t[|b| + 1..];
  }

  // ---- Deduplication key ----

  function Formatted(v: Option<Value>): string {
    if v.Some? then v.value.text else "None"
  }

  function Lookup(data: Data, name: string): Option<Value> {
    if name in data then Some(data[name]) else None
  }

  /** True for a header that is present and not the empty string. */
  predicate Truthy(text: Option<string>) {
    text.Some? && text.value != ""
  }

  function DedupKey(event: ClientEvent, data: Data): string {
    if Truthy(event.idempotencyKey) then event.idempotencyKey.value
    else if Truthy(event.eventId) then event.eventId.value
    else Formatted(Lookup(data, SUBSCRIPTION_ID)) + ":" + Decimal(event.seqNo)
  }

  /** The key an event brings along: its idempotency key, or else its event id. */
  ghost predicate Brings(event: ClientEvent, key: string) {
    key != "" &&
    (event.idempotencyKey == Some(key)
     || (event.idempotencyKey in {None, Some("")} && event.eventId == Some(key)))
  }

  /** Two events that bring keys along share a deduplication key exactly if those are equal, whatever else
      the events carry, and whether a key came as idempotency key or as event id. An idempotency key hides
      the event id. */
  lemma BroughtKeysDecide(e1: ClientEvent, d1: Data, k1: string, e2: ClientEvent, d2: Data, k2: string)
    requires Brings(e1, k1) && Brings(e2, k2)
    ensures DedupKey(e1, d1) == DedupKey(e2, d2) <==> k1 == k2
  {
  }

  /** An event that brings a key along and one that does not share a deduplication key only if the key
      spells subscription and number of the other. */
  lemma BroughtKeyMeetsKeyless(e1: ClientEvent, d1: Data, key: string, e2: ClientEvent, d2: Data)
    requires Brings(e1, key) && Keyless(e2)
    ensures DedupKey(e1, d1) == DedupKey(e2, d2) <==>
      key == Formatted(Lookup(d2, "subscription_id")) + ":" + Decimal(e2.seqNo)
  {
  }

  predicate Keyless(event: ClientEvent) {
    !Truthy(event.idempotencyKey) && !Truthy(event.eventId)
  }

  /** Events that carry no key of their own are told apart by subscription and sequence number, and
      by nothing else, whatever characters the subscription's name has. */
  lemma KeylessEventsShareAKeyIff(e1: ClientEvent, d1: Data, e2: ClientEvent, d2: Data)
    requires Keyless(e1) && Keyless(e2)
    ensures DedupKey(e1, d1) == DedupKey(e2, d2) <==>
      && Formatted(Lookup(d1, "subscription_id")) == Formatted(Lookup(d2, "subscription_id"))
      && e1.seqNo == e2.seqNo
  {
    if DedupKey(e1, d1) == DedupKey(e2, d2) {
      NoColonInDecimal(e1.seqNo);
      NoColonInDecimal(e2.seqNo);
      ColonSplits(Formatted(Lookup(d1, SUBSCRIPTION_ID)), Decimal(e1.seqNo),
                  Formatted(Lookup(d2, SUBSCRIPTION_ID)), Decimal(e2.seqNo));
      DecimalInjective(e1.seqNo, e2.seqNo);
    }
  }

  /** Without a subscription in the data the text is that of Python's `None`. */
  lemma MissingSubscriptionReadsNone(event: ClientEvent, data: Data)
    requires Keyless(event) && "subscription_id" !in data
    ensures DedupKey(event, data) == "None:" + Decimal(event.seqNo)
  {
    assert "None:" == "None" + ":";
  }

  lemma NoColonInDecimal(n: int)
    ensures ':' !in Decimal(n)
  {
    DigitsRead(if n < 0 then -n else n);
  }
}
