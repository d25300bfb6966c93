/** The inbound webhook application: read the body, check the request, feed the event, answer. */
module WebhookReceivers {
  import opened Common
  import opened Events
  import opened Handlers
  import opened Chains
  import opened Dispatch
  import opened TimedMap
  import opened Idempotency
  import Dedup

  newtype byte = b: int | 0 <= b < 256

  type Bytes = seq<byte>

  // ---- Body ----

  /** One message of the server; a missing body counts as empty. */
  datatype Message = Message(body: Option<Bytes>, more: bool)

  function Chunk(m: Message): Bytes {
    if m.body.Some? then m.body.value else []
  }

  /** The body as sent: everything up to the first message that announces no more. */
  function Sent(messages: seq<Message>): Bytes {
    if messages == [] then []
    else if !messages[0].more then Chunk(messages[0])
    else Chunk(messages[0]) + Sent(messages[1..])
  }

  /** The bytes of all messages, one after the other. */
  function AllBytes(messages: seq<Message>): Bytes {
    if messages == [] then []
    else AllBytes(messages[..|messages| - 1]) + (if messages[|messages| - 1].body == None then []
      else messages[|messages| - 1].body.value)
  }

  /** What is sent are the bytes of the messages up to the first that announces no more, however they are
      cut and whatever comes after. */
  lemma {:induction false} SentIs(messages: seq<Message>, n: nat)
    requires 0 < n <= |messages| && (forall i | 0 <= i < n - 1 :: messages[i].more)
    requires n == |messages| || !messages[n - 1].more
    ensures Sent(messages) == AllBytes(messages[..n])
    decreases n
  {
    var rest := messages[1..];
    assert messages[..n] == [messages[0]] + rest[..n - 1];
    AllBytesCons(messages[0], rest[..n - 1]);
    if n > 1 {
      SentIs(rest, n - 1);
    } else if messages[0].more {
      assert rest == [];
    }
  }

  lemma {:induction false} AllBytesCons(m: Message, rest: seq<Message>)
    ensures AllBytes([m] + rest) == Chunk(m) + AllBytes(rest)
    decreases |rest|
  {
    if rest == [] {
      assert [m] + rest == [m] && [m][..0] == [];
    } else {
      var front := rest[..|rest| - 1];
      assert ([m] + rest)[..|rest|] == [m] + front;
      AllBytesCons(m, front);
    }
  }

  /** The messages tell all that the receiver looks at: the body ends, or what was sent so far is over
      the cap already, in which case no end need ever be announced. */
  ghost predicate TellsEnough(messages: seq<Message>, maxBytes: int) {
    messages != [] && ((exists i | 0 <= i < |messages| :: !messages[i].more) || |Sent(messages)| > maxBytes)
  }

  lemma SentFrom(messages: seq<Message>, i: nat)
    requires i <= |messages|
    ensures Sent(messages[i..]) ==
      if i == |messages| then []
      else Chunk(messages[i]) + (if messages[i].more then Sent(messages[i + 1..]) else [])
  {
    if i < |messages| {
      assert messages[i..][1..] == messages[i + 1..];
      assert Chunk(messages[i]) + [] == Chunk(messages[i]);
    }
  }

  lemma Regroup(a: Bytes, b: Bytes, c: Bytes)
    ensures a + (b + c) == (a + b) + c && a + [] == a && (c == [] ==> a + b + c == a + b)
  {
  }

  /**
   The result depends on the bytes sent alone, not on how they were cut into messages: all of them
   if they are within the cap, and otherwise none. `buffered` is the most that was ever kept, also of a
   body that never ends.
   */
  method ReadBody(messages: seq<Message>, maxBytes: int) returns (body: Bytes, oversize: bool, ghost buffered: nat)
    requires TellsEnough(messages, maxBytes)
    ensures oversize <==> |Sent(messages)| > maxBytes
    ensures body == if oversize then [] else Sent(messages)
    ensures buffered <= Max(maxBytes, 0)
  {
    var chunks: Bytes := [];
    var total, i, moreBody := 0, 0, true;
    buffered := 0;
    while moreBody
      invariant 0 <= i <= |messages|
      invariant moreBody ==>
        (exists k | i <= k < |messages| :: !messages[k].more) || |chunks + Sent(messages[i..])| > maxBytes
      invariant total == |chunks| && buffered <= Max(maxBytes, 0) && (i > 0 ==> total <= maxBytes)
      invariant Sent(messages) == if moreBody then chunks + Sent(messages[i..]) else chunks
      invariant !moreBody ==> i > 0
      decreases |messages| - i
    {
      SentFrom(messages, i);
      assert i < |messages|;
      var message := messages[i];
      var chunk := if message.body.Some? then message.body.value else [];
      Regroup(chunks, chunk, if message.more then Sent(messages[i + 1..]) else []);
      total := total + |chunk|;
      if total > maxBytes {
        return [], true, buffered;
      }
      chunks := chunks + chunk;
      buffered := |chunks|;
      moreBody := message.more;
      i := i + 1;
    }
    body, oversize := chunks, false;
  }

  // ---- Path ----

  /** The end of the run of characters other than slashes that starts at `j`. */
  function RunEnd(path: string, j: nat): (e: nat)
    requires j <= |path|
    ensures j <= e <= |path| && (e < |path| ==> path[e] == '/')
    ensures forall k | j <= k < e :: path[k] != '/'
    decreases |path| - j
  {
    if j == |path| || path[j] == '/' then j else RunEnd(path, j + 1)
  }

  /** The end of the path, or just before a newline that ends it. */
  predicate AtEnd(path: string, p: nat) {
    p == |path| || (p + 1 == |path| && path[p] == '\n')
  }

  function IdAt(path: string, i: nat): Option<string>
    requires i < |path|
  {
    if path[i] != '/' then None
    else
      var e := RunEnd(path, i + 1);
      if e > i + 1 && (AtEnd(path, e) || AtEnd(path, e + 1)) then Some(path[i + 1..e]) else None
  }

  /** The leftmost place where a slash is followed by a last segment. */
  function IdFrom(path: string, i: nat): Option<string>
    decreases |path| - i
  {
    if i >= |path| then None
    else if IdAt(path, i).Some? then IdAt(path, i)
    else IdFrom(path, i + 1)
  }

  function SubscriptionId(path: string): Option<string> {
    IdFrom(path, 0)
  }

  ghost predicate EndsWithId(path: string, before: string, id: string) {
    && id != "" && '/' !in id
    && (path == before + "/" + id || path == before + "/" + id + "/" || path == before + "/" + id + "/\n")
  }

  /** The ids that the path can be read to end in start at or after `i`. */
  ghost predicate NoneBefore(path: string, i: nat) {
    forall b, id :: EndsWithId(path, b, id) ==> i <= |b|
  }

  lemma IdHere(path: string, i: nat)
    requires i < |path| && IdAt(path, i).Some?
    ensures EndsWithId(path, path[..i], IdAt(path, i).value)
  {
    var e := RunEnd(path, i + 1);
    assert path == path[..i] + "/" + path[i + 1..e] + path[e..];
  }

  lemma NoIdHere(path: string, i: nat)
    requires i < |path| && IdAt(path, i).None? && NoneBefore(path, i)
    ensures NoneBefore(path, i + 1)
  {
    forall b, id | EndsWithId(path, b, id)
      ensures i + 1 <= |b|
    {
      EndIsFound(path, b, id);
    }
  }

  lemma {:induction false} IdFromIff(path: string, i: nat)
    requires i <= |path| && NoneBefore(path, i)
    ensures match IdFrom(path, i)
      case Some(id) => exists before :: EndsWithId(path, before, id) && NoneBefore(path, |before|)
      case None => forall before, id :: !EndsWithId(path, before, id)
    decreases |path| - i
  {
    if i == |path| {
      forall before, id | EndsWithId(path, before, id)
        ensures false
      {
        EndIsFound(path, before, id);
      }
    } else if IdAt(path, i).Some? {
      IdHere(path, i);
      assert |path[..i]| == i;
    } else {
      NoIdHere(path, i);
      IdFromIff(path, i + 1);
    }
  }

  lemma EndIsFound(path: string, before: string, id: string)
    requires EndsWithId(path, before, id)
    ensures |before| < |path| && IdAt(path, |before|) == Some(id)
  {
    var i, j := |before|, |before| + 1 + |id|;
    assert path[i] == '/' && path[i + 1..j] == id;
    assert forall k | i + 1 <= k < j :: path[k] == id[k - i - 1] && id[k - i - 1] in id;
    assert j == |path| || path[j] == '/';
    assert RunEnd(path, i + 1) == j;
    assert j < |path| ==> j + 1 == |path| || (j + 2 == |path| && path[j + 1] == '\n');
  }

  /** An id is found exactly when the path ends in a slash and a non-empty segment without slashes, with
      perhaps one more slash. If that can be read in several ways, as in a path that ends in a slash and
      a newline, the id is the one that starts first. */
  lemma SubscriptionIdFoundIff(path: string, id: string)
    ensures SubscriptionId(path).Some? <==> exists before, i :: EndsWithId(path, before, i)
    ensures SubscriptionId(path) == Some(id) <==>
      exists before :: EndsWithId(path, before, id) && NoneBefore(path, |before|)
  {
    IdFromIff(path, 0);
    if SubscriptionId(path).Some? {
      var found := SubscriptionId(path).value;
      var before :| EndsWithId(path, before, found) && NoneBefore(path, |before|);
      if b :| EndsWithId(path, b, id) && NoneBefore(path, |b|) {
        assert |b| == |before|;
        EndIsFound(path, before, found);
        EndIsFound(path, b, id);
      }
    }
  }

  // ---- Headers and signature ----

  function LowerChar(c: char): char {
    if 'A' <= c <= 'Z' || ('\U{C0}' <= c <= '\U{DE}' && c != '\U{D7}') then c + (32 as char) else c
  }

  function Lower(s: string): string {
    if s == "" then "" else [LowerChar(s[0])] + Lower(s[1..])
  }

  /** Header names are compared in lower case; of several with one name the last counts. */
  function Header(headers: seq<(string, string)>, name: string): Option<string> {
    if headers == [] then None
    else if Lower(headers[|headers| - 1].0) == name then Some(headers[|headers| - 1].1)
    else Header(headers[..|headers| - 1], name)
  }

  /** The text spells the name, in whatever case. */
  ghost predicate Spells(written: string, name: string) {
    && |written| == |name|
    && forall k | 0 <= k < |name| ::
         written[k] == name[k] || ('A' <= written[k] <= 'Z' && written[k] as int + 32 == name[k] as int)
  }

  /** Header `i` spells the name, and none after it does. */
  ghost predicate IsLast(headers: seq<(string, string)>, name: string, i: nat) {
    i < |headers| && Spells(headers[i].0, name) && forall j | i < j < |headers| :: !Spells(headers[j].0, name)
  }

  /** The last header that spells the name has the text. */
  ghost predicate Presents(headers: seq<(string, string)>, name: string, text: string) {
    exists i: nat :: IsLast(headers, name, i) && headers[i].1 == text
  }

  /** No capital letters, and nothing but the letters and signs of header names. */
  predicate IsLowerName(name: string) {
    forall k | 0 <= k < |name| :: name[k] == '-' || '0' <= name[k] <= '9' || 'a' <= name[k] <= 'z'
  }

  lemma {:induction false} LowerIs(written: string, name: string)
    requires IsLowerName(name)
    ensures Lower(written) == name <==> Spells(written, name)
    decreases |written|
  {
    if written != "" && name != "" {
      var rest := name[1..];
      assert name == [name[0]] + rest;
      assert forall k | 0 <= k < |rest| :: rest[k] == name[k + 1];
      LowerIs(written[1..], rest);
      assert Lower(written) == name <==> LowerChar(written[0]) == name[0] && Lower(written[1..]) == rest;
      SpellsCons(written, name);
    }
  }

  lemma SpellsCons(written: string, name: string)
    requires written != "" && name != ""
    ensures Spells(written, name) <==> Spells(written[..1], name[..1]) && Spells(written[1..], name[1..])
  {
    if Spells(written[..1], name[..1]) && Spells(written[1..], name[1..]) {
      forall k | 0 <= k < |name|
        ensures written[k] == name[k] || ('A' <= written[k] <= 'Z' && written[k] as int + 32 == name[k] as int)
      {
        if k == 0 {
          assert written[..1][0] == written[0] && name[..1][0] == name[0];
        } else {
          assert written[1..][k - 1] == written[k] && name[1..][k - 1] == name[k];
        }
      }
    }
  }

  /** A header is looked up by its name in any case, and the last of several counts. */
  lemma {:induction false} HeaderIff(headers: seq<(string, string)>, name: string, text: string)
    requires IsLowerName(name)
    ensures Header(headers, name) == Some(text) <==> Presents(headers, name, text)
  {
    if headers != [] {
      var front, last := headers[..|headers| - 1], headers[|headers| - 1];
      assert headers == front + [last];
      LowerIs(last.0, name);
      HeaderIff(front, name, text);
      if Spells(last.0, name) {
        assert IsLast(headers, name, |front|);
      } else {
        assert forall i: nat | i < |front| :: headers[i] == front[i];
        assert forall i: nat :: IsLast(headers, name, i) <==> IsLast(front, name, i);
      }
    }
  }

  lemma HeaderIs(headers: seq<(string, string)>, name: string)
    requires IsLowerName(name)
    ensures forall t :: Header(headers, name) == Some(t) <==> Presents(headers, name, t)
  {
    forall t
      ensures Header(headers, name) == Some(t) <==> Presents(headers, name, t)
    {
      HeaderIff(headers, name, t);
    }
  }

  const SCHEME := "sha256="

  datatype Check = Genuine | Forged | CheckRaised

  predicate IsAscii(s: string) {
    forall c | c in s :: c < '\U{80}'
  }

  /** `signed` is the hexadecimal signature of the body. The comparison raises on text that is not ASCII. */
  function VerifySignature(signed: string, presented: Option<string>): Check {
    if !Truthy(presented) || !(SCHEME <= presented.value) then Forged
    else if !IsAscii(presented.value[|SCHEME|..]) then CheckRaised
    else if signed == presented.value[|SCHEME|..] then Genuine
    else Forged
  }

  // ---- Requests ----

  datatype Request = Request(path: string, headers: seq<(string, string)>, messages: seq<Message>)

  datatype Resolved<+T> = Known(value: T) | Unknown | ResolverRaised

  /** A field of the body: its value, one of the exceptions that are answered with 400, or another. */
  datatype Field<+T> = Present(value: T) | Malformed | FieldRaised

  datatype Json = Json(seqNo: Field<int>, eventType: Field<string>, data: Field<Data>) | BadJson | JsonRaised

  /** What the receiver asks of others. */
  datatype Environment = Environment(
    secretOf: string -> Resolved<string>,
    accountOf: string -> Resolved<AccountContext>,
    sign: (string, Bytes) -> string,
    parse: Bytes -> Json,
    payloadOf: ClientEvent -> Option<Value>
  )

  const SIGNATURE := "x-lzt-signature"
  const EVENT_ID := "x-lzt-event-id"
  const EVENT_TYPE := "x-lzt-event-type"
  const IDEMPOTENCY_KEY := "idempotency-key"

  /** The fields are evaluated in the order seq, event type, data; the body's event type is asked for
      only when the header gives none. */
  function EventOf(json: Json, headers: seq<(string, string)>): Field<ClientEvent>
    requires json.Json?
  {
    var typeHeader := Header(headers, EVENT_TYPE);
    var eventType := if Truthy(typeHeader) then Present(typeHeader.value) else json.eventType;
    if !json.seqNo.Present? then (if json.seqNo.Malformed? then Malformed else FieldRaised)
    else if !eventType.Present? then (if eventType.Malformed? then Malformed else FieldRaised)
    else if !json.data.Present? then (if json.data.Malformed? then Malformed else FieldRaised)
    else Present(ClientEvent(json.seqNo.value, eventType.value, json.data.value, Webhook,
                             Header(headers, EVENT_ID), Header(headers, IDEMPOTENCY_KEY)))
  }

  /** What becomes of a request before any dispatch. */
  datatype Decision = Refuse(status: int) | Dispatches(event: ClientEvent, account: AccountContext) | LetsOut

  /** The checks after that of the signature. */
  function DecideSigned(env: Environment, id: string, headers: seq<(string, string)>, body: Bytes): Decision {
    match env.parse(body)
    case JsonRaised => LetsOut
    case BadJson => Refuse(400)
    case Json(s, t, d) =>
      match env.accountOf(id)
      case ResolverRaised => LetsOut
      case Unknown => Refuse(401)
      case Known(account) =>
        match EventOf(Json(s, t, d), headers)
        case FieldRaised => LetsOut
        case Malformed => Refuse(400)
        case Present(event) => Dispatches(event, account)
  }

  function Decide(env: Environment, maxBytes: int, path: string, headers: seq<(string, string)>,
      body: Bytes): Decision {
    var id := SubscriptionId(path);
    if id.None? then Refuse(400)
    else if |body| > maxBytes then Refuse(413)
    else
      match env.secretOf(id.value)
      case ResolverRaised => LetsOut
      case Unknown => Refuse(401)
      case Known(secret) =>
        match VerifySignature(env.sign(secret, body), Header(headers, SIGNATURE))
        case CheckRaised => LetsOut
        case Forged => Refuse(401)
        case Genuine => DecideSigned(env, id.value, headers, body)
  }

  /** Only a request with an id, a body within the cap, a known secret and the signature it gives is
      dispatched; and what refuses a request is always a status that tells the server not to retry. */
  lemma OnlySignedRequestsDispatch(env: Environment, maxBytes: int, path: string, headers: seq<(string, string)>,
                                   body: Bytes)
    ensures var d := Decide(env, maxBytes, path, headers, body);
      d.Dispatches? ==>
        && SubscriptionId(path).Some? && |body| <= maxBytes
        && var id := SubscriptionId(path).value;
        && env.secretOf(id).Known? && env.accountOf(id) == Known(d.account)
        && Header(headers, SIGNATURE) == Some(SCHEME + env.sign(env.secretOf(id).value, body))
    ensures var d := Decide(env, maxBytes, path, headers, body);
      d.Refuse? ==> d.status in {400, 401, 413}
  {
    if Decide(env, maxBytes, path, headers, body).Dispatches? {
      var presented := Header(headers, SIGNATURE).value;
      assert presented == SCHEME + presented[|SCHEME|..];
    }
  }

  lemma DispatchedIsRead(env: Environment, maxBytes: int, path: string, headers: seq<(string, string)>, body: Bytes)
    requires Decide(env, maxBytes, path, headers, body).Dispatches?
    ensures env.parse(body).Json?
    ensures EventOf(env.parse(body), headers) == Present(Decide(env, maxBytes, path, headers, body).event)
  {
  }

  /** The event of a dispatched request: the headers give its keys and, if not empty, its type; the body
      gives the rest. */
  lemma DispatchedEventIs(env: Environment, maxBytes: int, path: string, headers: seq<(string, string)>, body: Bytes)
    requires Decide(env, maxBytes, path, headers, body).Dispatches?
    ensures var event := Decide(env, maxBytes, path, headers, body).event;
      && (forall t :: event.idempotencyKey == Some(t) <==> Presents(headers, "idempotency-key", t))
      && (forall t :: event.eventId == Some(t) <==> Presents(headers, "x-lzt-event-id", t))
      && (forall t | t != "" && Presents(headers, "x-lzt-event-type", t) :: event.eventType == t)
      && ((forall t | Presents(headers, "x-lzt-event-type", t) :: t == "") ==>
            env.parse(body).eventType == Present(event.eventType))
      && env.parse(body).seqNo == Present(event.seqNo) && env.parse(body).data == Present(event.data)
      && event.transport == Webhook
  {
    DispatchedIsRead(env, maxBytes, path, headers, body);
    HeaderIs(headers, "idempotency-key");
    HeaderIs(headers, "x-lzt-event-id");
    HeaderIs(headers, "x-lzt-event-type");
  }

  /** The header carries the signature of the body under the secret. */
  ghost predicate Signed(env: Environment, secret: string, headers: seq<(string, string)>, body: Bytes) {
    Presents(headers, "x-lzt-signature", "sha256=" + env.sign(secret, body))
  }

  /** The header's signature is not ASCII, on which the comparison raises. */
  ghost predicate StrangelySigned(headers: seq<(string, string)>) {
    exists t :: Presents(headers, "x-lzt-signature", t) && "sha256=" <= t && exists k | 7 <= k < |t| :: t[k] >= '\U{80}'
  }

  ghost predicate AsciiSignature(headers: seq<(string, string)>) {
    forall t | Presents(headers, "x-lzt-signature", t) :: forall k | 0 <= k < |t| :: t[k] < '\U{80}'
  }

  lemma StrangeSignature(signed: string, headers: seq<(string, string)>)
    ensures StrangelySigned(headers) ==> VerifySignature(signed, Header(headers, "x-lzt-signature")) == CheckRaised
  {
    if StrangelySigned(headers) {
      var t :| Presents(headers, "x-lzt-signature", t) && "sha256=" <= t && exists k | 7 <= k < |t| :: t[k] >= '\U{80}';
      HeaderIff(headers, "x-lzt-signature", t);
      var k :| 7 <= k < |t| && t[k] >= '\U{80}';
      assert t[7..][k - 7] == t[k] && t[k] in t[7..];
    }
  }

  lemma SignedIff(signed: string, headers: seq<(string, string)>)
    requires AsciiSignature(headers)
    ensures VerifySignature(signed, Header(headers, "x-lzt-signature")) ==
      if Presents(headers, "x-lzt-signature", "sha256=" + signed) then Genuine else Forged
  {
    HeaderIff(headers, "x-lzt-signature", "sha256=" + signed);
    var header := Header(headers, "x-lzt-signature");
    if header.Some? {
      HeaderIff(headers, "x-lzt-signature", header.value);
      assert IsAscii(header.value);
      assert header.value == "sha256=" + signed ==> SCHEME <= header.value;
      if SCHEME <= header.value {
        SchemeSplits(header.value, signed);
      }
    }
  }

  lemma SchemeSplits(text: string, signed: string)
    requires SCHEME <= text
    ensures text[|SCHEME|..] == signed <==> text == "sha256=" + signed
    ensures IsAscii(text) ==> IsAscii(text[|SCHEME|..])
  {
    assert text == SCHEME + text[|SCHEME|..];
    assert (SCHEME + signed)[|SCHEME|..] == signed;
    assert forall c | c in text[|SCHEME|..] :: c in text;
  }

  /** A body that took the place of a dispatched one, under the same path and headers, is dispatched only
      if the two have one signature. */
  lemma ChangedBodyNeedsSameSignature(env: Environment, maxBytes: int, path: string, headers: seq<(string, string)>,
                                      body: Bytes, other: Bytes)
    requires Decide(env, maxBytes, path, headers, body).Dispatches?
    requires Decide(env, maxBytes, path, headers, other).Dispatches?
    ensures var secret := env.secretOf(SubscriptionId(path).value);
      secret.Known? && env.sign(secret.value, body) == env.sign(secret.value, other)
  {
    var secret := env.secretOf(SubscriptionId(path).value).value;
    OnlySignedRequestsDispatch(env, maxBytes, path, headers, body);
    OnlySignedRequestsDispatch(env, maxBytes, path, headers, other);
    var presented := Header(headers, SIGNATURE).value;
    assert presented[|SCHEME|..] == env.sign(secret, body) == env.sign(secret, other);
  }

  datatype Answer = Status(code: int) | Escaped

  /** The status for how the dispatcher ended. */
  function Mapped(reply: Reply<DispatchResult>): Answer {
    match reply
    case Returned(result) => if result.outcome == Errored then Status(503) else Status(200)
    case Threw(exc) => if IsException(exc) then Status(503) else Escaped
  }

  // ---- One delivery ----

  /** A receiver whose dispatcher has the idempotency middleware as its only outer one; `handler` is what
      that middleware wraps. */
  datatype Setup<!W> = Setup(env: Environment, maxBytes: int, ttl: Option<real>, handler: Handler<W, DispatchResult>)

  function DecisionOn<W>(setup: Setup<W>, req: Request): Decision {
    Decide(setup.env, setup.maxBytes, req.path, req.headers, Sent(req.messages))
  }

  /** The data of a dispatched request, and the key its event is deduplicated by. */
  function DataOf<W>(setup: Setup<W>, req: Request): Data
    requires DecisionOn(setup, req).Dispatches?
  {
    var d := DecisionOn(setup, req);
    BaseData(d.account, setup.env.payloadOf(d.event))
  }

  function KeyOf<W>(setup: Setup<W>, req: Request): string
    requires DecisionOn(setup, req).Dispatches?
  {
    DedupKey(DecisionOn(setup, req).event, DataOf(setup, req))
  }

  datatype Delivered<+W> = Delivered(answer: Answer, w: W, marks: MarkMap)

  /** The answer to a request, and what it leaves behind, when the given marks are in the store. */
  function Deliver<W>(setup: Setup<W>, req: Request, marks: MarkMap, w: W, at: Readings): Delivered<W> {
    match DecisionOn(setup, req)
    case Refuse(status) => Delivered(Status(status), w, marks)
    case LetsOut => Delivered(Escaped, w, marks)
    case Dispatches(event, _) =>
      var key := KeyOf(setup, req);
      if Live(marks, key, at.check) then Delivered(Status(200), w, marks)
      else
        var (reply, w') := setup.handler(event, DataOf(setup, req), w);
        Delivered(Mapped(reply), w', marks[key := Fresh(true, setup.ttl, at.write)])
  }

  /** A 4xx status is given exactly when the request is not dispatched but refused, and then nothing is
      marked and no handler runs. An exception that leaves before the dispatch changes nothing either. */
  lemma FourHundredsChangeNothing<W>(setup: Setup<W>, req: Request, marks: MarkMap, w: W, at: Readings)
    ensures var d := Deliver(setup, req, marks, w, at);
      && (d.answer.Status? && 400 <= d.answer.code < 500 <==> DecisionOn(setup, req).Refuse?)
      && (!DecisionOn(setup, req).Dispatches? ==> d.w == w && d.marks == marks)
  {
    OnlySignedRequestsDispatch(setup.env, setup.maxBytes, req.path, req.headers, Sent(req.messages));
  }

  /** There is an id, the body is within the cap, and the secret of the id is known and signs the body. */
  ghost predicate Genuinely<W>(setup: Setup<W>, req: Request) {
    var id, body := SubscriptionId(req.path), Sent(req.messages);
    && id.Some? && |body| <= setup.maxBytes && setup.env.secretOf(id.value).Known?
    && AsciiSignature(req.headers) && Signed(setup.env, setup.env.secretOf(id.value).value, req.headers, body)
  }

  ghost predicate TypeInHeader(headers: seq<(string, string)>) {
    exists t :: t != "" && Presents(headers, "x-lzt-event-type", t)
  }

  /** All fields that are looked at can be read. */
  ghost predicate Readable(json: Json, headers: seq<(string, string)>)
    requires json.Json?
  {
    json.seqNo.Present? && json.data.Present? && (TypeInHeader(headers) || json.eventType.Present?)
  }

  /** None of the fields raises an exception that leaves the receiver. */
  ghost predicate NoFieldRaises(json: Json)
    requires json.Json?
  {
    !json.seqNo.FieldRaised? && !json.eventType.FieldRaised? && !json.data.FieldRaised?
  }

  /** A request without an id, over the cap, of an unknown subscription or without the signature is refused
      with these statuses, whatever else it holds. */
  lemma StatusByCause<W>(setup: Setup<W>, req: Request, marks: MarkMap, w: W, at: Readings)
    ensures var id, body := SubscriptionId(req.path), Sent(req.messages);
      var answer := Deliver(setup, req, marks, w, at).answer;
      && (id.None? ==> answer == Status(400))
      && (id.Some? && |body| > setup.maxBytes ==> answer == Status(413))
      && (id.Some? && |body| <= setup.maxBytes ==>
            match setup.env.secretOf(id.value)
            case Unknown => answer == Status(401)
            case ResolverRaised => answer == Escaped
            case Known(secret) =>
              && (StrangelySigned(req.headers) ==> answer == Escaped)
              && (AsciiSignature(req.headers) ==>
                    Signed(setup.env, secret, req.headers, body) || answer == Status(401)))
  {
    var id, body := SubscriptionId(req.path), Sent(req.messages);
    if id.Some? && setup.env.secretOf(id.value).Known? {
      var signed := setup.env.sign(setup.env.secretOf(id.value).value, body);
      StrangeSignature(signed, req.headers);
      if AsciiSignature(req.headers) {
        SignedIff(signed, req.headers);
      }
    }
  }

  /** A genuine request is dispatched exactly if its body is JSON with all the fields and the account is
      known; otherwise it is refused with these statuses. */
  lemma GenuineIsDispatchedIff<W>(setup: Setup<W>, req: Request)
    requires Genuinely(setup, req)
    ensures var account := setup.env.accountOf(SubscriptionId(req.path).value);
      var d := DecisionOn(setup, req);
      match setup.env.parse(Sent(req.messages))
      case BadJson => d == Refuse(400)
      case JsonRaised => d == LetsOut
      case Json(seqNo, eventType, data) =>
        var json := Json(seqNo, eventType, data);
        && (account.Unknown? ==> d == Refuse(401)) && (account.ResolverRaised? ==> d == LetsOut)
        && (account.Known? && !Readable(json, req.headers) && NoFieldRaises(json) ==> d == Refuse(400))
        && (d.Dispatches? <==> account.Known? && Readable(json, req.headers))
  {
    var body := Sent(req.messages);
    GenuineIsJudged(setup, req);
    if setup.env.parse(body).Json? {
      EventIsReadIff(setup.env.parse(body), req.headers);
    }
  }

  lemma GenuineIsJudged<W>(setup: Setup<W>, req: Request)
    requires Genuinely(setup, req)
    ensures DecisionOn(setup, req)
      == DecideSigned(setup.env, SubscriptionId(req.path).value, req.headers, Sent(req.messages))
  {
    var secret := setup.env.secretOf(SubscriptionId(req.path).value).value;
    SignedIff(setup.env.sign(secret, Sent(req.messages)), req.headers);
  }

  lemma EventIsReadIff(json: Json, headers: seq<(string, string)>)
    requires json.Json?
    ensures EventOf(json, headers).Present? <==> Readable(json, headers)
    ensures NoFieldRaises(json) ==> !EventOf(json, headers).FieldRaised?
  {
    TypeHeaderIff(headers);
  }

  lemma TypeHeaderIff(headers: seq<(string, string)>)
    ensures TypeInHeader(headers) <==> Truthy(Header(headers, "x-lzt-event-type"))
  {
    if TypeInHeader(headers) {
      var t :| t != "" && Presents(headers, "x-lzt-event-type", t);
      HeaderIff(headers, "x-lzt-event-type", t);
    } else if Header(headers, "x-lzt-event-type").Some? {
      HeaderIff(headers, "x-lzt-event-type", Header(headers, "x-lzt-event-type").value);
    }
  }

  /** A dispatched request whose key is not marked gets 200 when the dispatch comes to anything but
      Errored, 503 when it does or raises, and no status when what it raises is not an Exception. */
  lemma StatusByOutcome<W>(setup: Setup<W>, req: Request, marks: MarkMap, w: W, at: Readings)
    requires DecisionOn(setup, req).Dispatches? && !Live(marks, KeyOf(setup, req), at.check)
    ensures var (reply, w') := setup.handler(DecisionOn(setup, req).event, DataOf(setup, req), w);
      var d := Deliver(setup, req, marks, w, at);
      && d.w == w'
      && d.answer == match reply
           case Returned(DispatchResult(Errored, _, _)) => Status(503)
           case Returned(_) => Status(200)
           case Threw(Control(_)) => Escaped
           case Threw(_) => Status(503)
  {
    var (reply, w') := setup.handler(DecisionOn(setup, req).event, DataOf(setup, req), w);
    var d := Deliver(setup, req, marks, w, at);
    assert d.answer == Mapped(reply);
    assert d.w == w';
  }

  /** The request carries the key as its idempotency key. */
  ghost predicate Carries(req: Request, key: string) {
    key != "" && Presents(req.headers, "idempotency-key", key)
  }

  lemma CarriedKeyIsUsed<W>(setup: Setup<W>, req: Request, key: string)
    requires DecisionOn(setup, req).Dispatches? && Carries(req, key)
    ensures KeyOf(setup, req) == key
  {
    DispatchedEventIs(setup.env, setup.maxBytes, req.path, req.headers, Sent(req.messages));
    var event := DecisionOn(setup, req).event;
    assert event.idempotencyKey == Some(key);
    assert Brings(event, key);
  }

  /**
   Two requests one after the other, whose idempotency keys are as given, the first not seen before. With
   equal keys, the second is answered with 200 if it is checked within the ttl and runs no handler. With
   different keys the second runs its handler unless its own key was marked, whatever else the two have in
   common.
   */
  lemma SecondRequest<W>(setup: Setup<W>, first: Request, k1: string, at1: Readings, second: Request, k2: string,
                         at2: Readings, marks: MarkMap, w: W)
    requires DecisionOn(setup, first).Dispatches? && DecisionOn(setup, second).Dispatches?
    requires Carries(first, k1) && Carries(second, k2) && !Live(marks, k1, at1.check)
    ensures var d1 := Deliver(setup, first, marks, w, at1);
      var d2 := Deliver(setup, second, d1.marks, d1.w, at2);
      && (k1 == k2 && (setup.ttl.Some? ==> at2.check <= at1.write + setup.ttl.value) ==>
            d2 == Delivered(Status(200), d1.w, d1.marks))
      && (k1 != k2 && !Live(marks, k2, at2.check) ==>
            && d2.w == setup.handler(DecisionOn(setup, second).event, DataOf(setup, second), d1.w).1
            && k1 in d2.marks && k2 in d2.marks)
  {
    CarriedKeyIsUsed(setup, first, k1);
    CarriedKeyIsUsed(setup, second, k2);
  }

  class WebhookReceiver<W> {
    const env: Environment
    const maxBytes: int
    const dedup: IdempotencyMiddleware
    const handler: Handler<W, DispatchResult>

    constructor (env: Environment, maxBytes: int, dedup: IdempotencyMiddleware, handler: Handler<W, DispatchResult>)
      ensures this.env == env && this.maxBytes == maxBytes && this.dedup == dedup && this.handler == handler
    {
      this.env, this.maxBytes, this.dedup, this.handler := env, maxBytes, dedup, handler;
    }

    ghost function AsSetup(): Setup<W> {
      Setup(env, maxBytes, dedup.ttl, handler)
    }

    /** The checks in their order, each with its early answer; at last the event is fed and the result
        mapped to a status. */
    method Handle(req: Request, w: W) returns (answer: Answer, w': W, ghost at: Readings)
      requires dedup.store.storage.Valid()
      requires SubscriptionId(req.path).Some? ==> TellsEnough(req.messages, maxBytes)
      modifies dedup.store.storage, dedup.store.storage.clock
      ensures dedup.store.storage.Valid()
      ensures Delivered(answer, w', dedup.store.Marks()) == Deliver(AsSetup(), req, old(dedup.store.Marks()), w, at)
      ensures DecisionOn(AsSetup(), req).Dispatches? ==> Ordered(old(dedup.store.storage.clock.now), at)
    {
      w' := w;
      at := Readings(0.0, 0.0, 0.0);
      var id := SubscriptionId(req.path);
      if id.None? {
        return Status(400), w, at;
      }
      var body, oversize, _ := ReadBody(req.messages, maxBytes);
      if oversize {
        return Status(413), w, at;
      }
      var secret := env.secretOf(id.value);
      if !secret.Known? {
        return if secret.Unknown? then Status(401) else Escaped, w, at;
      }
      var check := VerifySignature(env.sign(secret.value, body), Header(req.headers, SIGNATURE));
      if check != Genuine {
        return if check == Forged then Status(401) else Escaped, w, at;
      }
      var json := env.parse(body);
      if !json.Json? {
        return if json.BadJson? then Status(400) else Escaped, w, at;
      }
      var account := env.accountOf(id.value);
      if !account.Known? {
        return if account.Unknown? then Status(401) else Escaped, w, at;
      }
      var event := EventOf(json, req.headers);
      if !event.Present? {
        return if event.Malformed? then Status(400) else Escaped, w, at;
      }
      var reply;
      reply, w', at := dedup.Call(handler, event.value, BaseData(account.value, env.payloadOf(event.value)), w);
      match reply {
        case Returned(result) => answer := if result.outcome == Errored then Status(503) else Status(200);
        case Threw(exc) => answer := if IsException(exc) then Status(503) else Escaped;
      }
    }
  }

  // ---- Any number of deliveries ----

  /** A request, or what some other task does to the same store and to the rest of the world. */
  datatype Happening<+W> = Incoming(req: Request, at: Readings) | Elsewhere(action: Dedup.Action, w: W)

  /** What a happening is for the middleware's store. */
  function ActionsOf<W>(setup: Setup<W>, n: nat, h: Happening<W>): seq<Dedup.Action> {
    match h
    case Elsewhere(action, _) => [action]
    case Incoming(req, at) =>
      if DecisionOn(setup, req).Dispatches? then [Dedup.Arrive(n, KeyOf(setup, req), at)] else []
  }

  function Actions<W>(setup: Setup<W>, run: seq<Happening<W>>): seq<Dedup.Action> {
    if run == [] then []
    else
      var front := run[..|run| - 1];
      Actions(setup, front) + ActionsOf(setup, |front|, run[|run| - 1])
  }

  /** All entries into the handler that the middleware guards, with the times of their marks. */
  function EntriesAfter<W>(setup: Setup<W>, run: seq<Happening<W>>): seq<Dedup.Entered> {
    Dedup.Exec(setup.ttl, Actions(setup, run)).entries
  }

  ghost function MarksAfter<W>(setup: Setup<W>, run: seq<Happening<W>>): MarkMap {
    Dedup.Marks(setup.ttl, EntriesAfter(setup, run))
  }

  ghost function WorldAfter<W>(setup: Setup<W>, run: seq<Happening<W>>, start: W): W {
    if run == [] then start
    else
      var front := run[..|run| - 1];
      match run[|run| - 1]
      case Elsewhere(_, w) => w
      case Incoming(req, at) => Deliver(setup, req, MarksAfter(setup, front), WorldAfter(setup, front, start), at).w
  }

  ghost predicate Timely<W>(setup: Setup<W>, run: seq<Happening<W>>) {
    Dedup.Timely(Actions(setup, run)) && (setup.ttl.Some? ==> setup.ttl.value >= 0.0)
  }

  lemma ActionsSnoc<W>(setup: Setup<W>, run: seq<Happening<W>>, h: Happening<W>)
    ensures Actions(setup, run + [h]) == Actions(setup, run) + ActionsOf(setup, |run|, h)
  {
    assert (run + [h])[..|run|] == run;
  }

  lemma TimelyBefore<W>(setup: Setup<W>, run: seq<Happening<W>>, h: Happening<W>)
    requires Timely(setup, run + [h])
    ensures Timely(setup, run)
  {
    var all, front := Actions(setup, run + [h]), Actions(setup, run);
    ActionsSnoc(setup, run, h);
    assert all[..|front|] == front;
    Dedup.TimelyPrefix(all, |front|);
  }

  /** A dispatched request does to the marks what an arrival in the interleaved system does, so all that
      is known of that system holds for deliveries; and it is answered at once exactly when an earlier
      entry of its key still holds. */
  lemma DeliveryIsArrival<W>(setup: Setup<W>, run: seq<Happening<W>>, req: Request, at: Readings, w: W)
    requires Timely(setup, run + [Incoming(req, at)]) && DecisionOn(setup, req).Dispatches?
    ensures Deliver(setup, req, MarksAfter(setup, run), w, at).marks == MarksAfter(setup, run + [Incoming(req, at)])
    ensures var held := Dedup.Held(setup.ttl, EntriesAfter(setup, run), KeyOf(setup, req), at.check);
      && held == Live(MarksAfter(setup, run), KeyOf(setup, req), at.check)
      && EntriesAfter(setup, run + [Incoming(req, at)]) == EntriesAfter(setup, run)
         + (if held then [] else [Dedup.Entered(|run|, KeyOf(setup, req), at.write)])
  {
    var actions, key := Actions(setup, run), KeyOf(setup, req);
    var arrive := Dedup.Arrive(|run|, key, at);
    ActionsSnoc(setup, run, Incoming(req, at));
    assert (actions + [arrive])[..|actions|] == actions;
    Dedup.RunKeepsMarks(setup.ttl, actions);
    Dedup.MarksAreLatest(setup.ttl, EntriesAfter(setup, run), Dedup.Now(actions), key, at.check);
    Dedup.ArrivalIsDuplicateIff(setup.ttl, actions, arrive);
    Dedup.MarksAppend(setup.ttl, EntriesAfter(setup, run), Dedup.Entered(|run|, key, at.write));
  }

  lemma {:induction false} DispatchedArrives<W>(setup: Setup<W>, run: seq<Happening<W>>, i: nat) returns (n: nat)
    requires i < |run| && run[i].Incoming? && DecisionOn(setup, run[i].req).Dispatches?
    ensures n < |Actions(setup, run)| && Actions(setup, run)[n].Arrive?
    ensures Actions(setup, run)[n].key == KeyOf(setup, run[i].req)
  {
    var front := run[..|run| - 1];
    if i == |run| - 1 {
      n := |Actions(setup, front)|;
    } else {
      n := DispatchedArrives(setup, front, i);
    }
  }

  lemma HeldKeyIsAnswered<W>(setup: Setup<W>, run: seq<Happening<W>>, req: Request, at: Readings, start: W)
    requires Timely(setup, run + [Incoming(req, at)]) && DecisionOn(setup, req).Dispatches?
    requires Dedup.Held(setup.ttl, EntriesAfter(setup, run), KeyOf(setup, req), at.check)
    ensures Deliver(setup, req, MarksAfter(setup, run), WorldAfter(setup, run, start), at).answer == Status(200)
    ensures WorldAfter(setup, run + [Incoming(req, at)], start) == WorldAfter(setup, run, start)
    ensures EntriesAfter(setup, run + [Incoming(req, at)]) == EntriesAfter(setup, run)
  {
    var w := WorldAfter(setup, run, start);
    DeliveryIsArrival(setup, run, req, at, w);
    WorldSnoc(setup, run, req, at, start);
  }

  lemma WorldSnoc<W>(setup: Setup<W>, run: seq<Happening<W>>, req: Request, at: Readings, start: W)
    ensures WorldAfter(setup, run + [Incoming(req, at)], start)
      == Deliver(setup, req, MarksAfter(setup, run), WorldAfter(setup, run, start), at).w
  {
    var all := run + [Incoming(req, at)];
    assert all[..|all| - 1] == run && all[|all| - 1] == Incoming(req, at);
  }

  /** The mark of a key that a dispatched request had is there, and holds for a ttl. */
  lemma DispatchedKeyIsHeld<W>(setup: Setup<W>, run: seq<Happening<W>>, i: nat, now: real)
    requires Timely(setup, run) && i < |run| && run[i].Incoming? && DecisionOn(setup, run[i].req).Dispatches?
    requires var mark := Dedup.MarkedAt(EntriesAfter(setup, run), KeyOf(setup, run[i].req));
      mark.Some? && setup.ttl.Some? ==> now <= mark.value + setup.ttl.value
    ensures Dedup.Held(setup.ttl, EntriesAfter(setup, run), KeyOf(setup, run[i].req), now)
  {
    var entries, key := EntriesAfter(setup, run), KeyOf(setup, run[i].req);
    var n := DispatchedArrives(setup, run, i);
    var arrival := Actions(setup, run)[n];
    Dedup.ArrivedKeyHasEntry(setup.ttl, Actions(setup, run), n);
    var k :| 0 <= k < |entries| && Dedup.Holds(setup.ttl, entries[k], key, arrival.at.check);
    assert entries[k].key == key;
    Dedup.MarkedAtIsEntry(setup.ttl, entries, key, now);
  }

  /**
   Once a delivery of a key was dispatched, whatever it came to, the next one that is checked within the
   ttl of the key's latest mark gets 200 and changes nothing: it enters no handler and leaves no mark.
   `run` is all that happened before it, with any other requests and with other tasks using the store.
   */
  lemma RedeliveryEntersNoHandler<W>(setup: Setup<W>, run: seq<Happening<W>>, i: nat, req: Request, at: Readings,
      start: W)
    requires Timely(setup, run + [Incoming(req, at)]) && i < |run| && run[i].Incoming?
    requires DecisionOn(setup, run[i].req).Dispatches? && DecisionOn(setup, req).Dispatches?
    requires KeyOf(setup, run[i].req) == KeyOf(setup, req)
    requires var mark := Dedup.MarkedAt(EntriesAfter(setup, run), KeyOf(setup, req));
      mark.Some? && setup.ttl.Some? ==> at.check <= mark.value + setup.ttl.value
    ensures Deliver(setup, req, MarksAfter(setup, run), WorldAfter(setup, run, start), at).answer == Status(200)
    ensures WorldAfter(setup, run + [Incoming(req, at)], start) == WorldAfter(setup, run, start)
    ensures EntriesAfter(setup, run + [Incoming(req, at)]) == EntriesAfter(setup, run)
  {
    TimelyBefore(setup, run, Incoming(req, at));
    DispatchedKeyIsHeld(setup, run, i, at.check);
    HeldKeyIsAnswered(setup, run, req, at, start);
  }
}
