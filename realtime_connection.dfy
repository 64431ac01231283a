/**
 * The text-stream connections (src/components/three/utils/realtimeConnection.ts):
 * the WebSocket message decoder, the error reporter and the cleanup of
 * `connectToTextStream` (lines 26-60), and the timer-driven mock stream
 * `mockTextStreamConnection` (lines 67-85).
 *
 * `JSON.parse` is a parameter of the decoder: a function from the payload text
 * to either a JSON value or a parse error. The socket, the timer and the
 * callbacks are modelled by the state they change: the text the message
 * callback received, the events the error callback received, the socket's
 * ready state, whether the interval is still registered.
 */
module RealtimeConnection {
  import opened Wrappers
  import opened Arith

  // ------------------------------------------------------------------ decoder

  /** A JSON value as `JSON.parse` returns it. */
  datatype Json =
    | JNull
    | JBool(b: bool)
    | JNumber(n: real)
    | JString(s: string)
    | JArray(items: seq<Json>)
    | JObject(fields: map<string, Json>)

  /** What `JSON.parse` does with a text: a value, or a thrown syntax error. */
  datatype ParseOutcome = Parsed(value: Json) | ParseError

  /** The `data` of a message event: a text frame, or binary data (a Blob or
      an ArrayBuffer), whose string form (`[object Blob]`) is never JSON. */
  datatype Payload = TextFrame(s: string) | BinaryFrame

  /** JavaScript truthiness of a parsed value (JSON has no NaN). */
  predicate Truthy(v: Json)
  {
    match v
    case JNull => false
    case JBool(b) => b
    case JNumber(n) => n != 0.0
    case JString(s) => s != ""
    case _ => true
  }

  /** `data.text` when it is a string: only an object can carry the property. */
  function TextProperty(v: Json): Option<string>
  {
    if v.JObject? && "text" in v.fields && v.fields["text"].JString?
    then Some(v.fields["text"].s)
    else None
  }

  /** The guarded read `data && typeof data.text === 'string'`. */
  function TextField(v: Json): Option<string>
  {
    if Truthy(v) then TextProperty(v) else None
  }

  /** The `onmessage` handler: the texts handed to the message callback for
      one event, in order. A parsed value yields its string `text` property
      or nothing; only a parse error falls back to the raw payload, and only
      when the payload is a string. */
  function OnMessage(payload: Payload, parse: string -> ParseOutcome): (delivered: seq<string>)
    ensures |delivered| <= 1
    ensures |delivered| == 1 <==>
      match payload
      case BinaryFrame => false
      case TextFrame(s) =>
        || parse(s).ParseError?
        || (parse(s).Parsed? && TextProperty(parse(s).value).Some?)
    ensures forall t :: t in delivered ==>
      && payload.TextFrame?
      && (|| (parse(payload.s).ParseError? && t == payload.s)
          || (parse(payload.s).Parsed? && TextProperty(parse(payload.s).value) == Some(t)))
  {
    match payload
    case BinaryFrame => []
    case TextFrame(s) =>
      match parse(s)
      case ParseError => [s]
      case Parsed(v) =>
        match TextField(v)
        case Some(t) => [t]
        case None => []
  }

  /** The truthiness test only keeps `null` (and the other falsy values) away
      from the property read: it never changes which text is read. */
  lemma GuardOnlyExcludesFalsy(v: Json)
    ensures TextField(v) == TextProperty(v)
    ensures !Truthy(v) ==> TextProperty(v).None?
  {
  }

  /** A message that parses to an object with a string `text` delivers
      exactly that text. */
  lemma TextFieldDelivered(s: string, parse: string -> ParseOutcome, fields: map<string, Json>, t: string)
    requires parse(s) == Parsed(JObject(fields))
    requires "text" in fields && fields["text"] == JString(t)
    ensures OnMessage(TextFrame(s), parse) == [t]
  {
  }

  /** A message that parses but has no string `text` delivers nothing: the
      raw payload is not used as a fallback for valid JSON. */
  lemma ParsedWithoutTextDeliversNothing(s: string, parse: string -> ParseOutcome)
    requires parse(s).Parsed? && TextProperty(parse(s).value).None?
    ensures OnMessage(TextFrame(s), parse) == []
  {
  }

  /** A text message that is not JSON is delivered verbatim. */
  lemma UnparsableTextDeliveredRaw(s: string, parse: string -> ParseOutcome)
    requires parse(s) == ParseError
    ensures OnMessage(TextFrame(s), parse) == [s]
  {
  }

  /** A JSON text that is itself a string literal delivers nothing: the parsed
      string has no `text` property. */
  lemma StringLiteralDeliversNothing(s: string, parse: string -> ParseOutcome, inner: string)
    requires parse(s) == Parsed(JString(inner))
    ensures OnMessage(TextFrame(s), parse) == []
  {
  }

  // ------------------------------------------------------------ socket state

  /** `WebSocket.readyState`. */
  datatype ReadyState = Connecting | Open | Closing | Closed

  /** The socket state after the cleanup function: `close()` is called only
      when the socket is open, and moves it to closing. */
  function AfterCleanup(s: ReadyState): (r: ReadyState)
    ensures r != Open
    ensures r != s <==> s == Open
    ensures s == Open ==> r == Closing
  {
    if s == Open then Closing else s
  }

  /** Calling the cleanup twice is the same as calling it once. */
  lemma CleanupIdempotent(s: ReadyState)
    ensures AfterCleanup(AfterCleanup(s)) == AfterCleanup(s)
  {
  }

  /** A socket still connecting is left alone by the cleanup, so it goes on
      to open afterwards. */
  lemma CleanupWhileConnectingKeepsSocket()
    ensures AfterCleanup(Connecting) == Connecting
  {
  }

  /** A socket error event. */
  datatype SocketError = SocketError(code: nat)

  /** The live connection that `connectToTextStream` returns a cleanup for. */
  class TextStream {
    /** The socket's ready state. */
    var state: ReadyState
    /** Every text handed to the message callback, in order. */
    var received: seq<string>
    /** Every error handed to the error callback, in order. */
    var errors: seq<SocketError>
    /** Whether the optional error callback was supplied. */
    const hasOnError: bool

    /** A new socket starts connecting; nothing received yet. */
    constructor (hasOnError: bool)
      ensures state == Connecting && received == [] && errors == []
      ensures this.hasOnError == hasOnError
    {
      state := Connecting;
      received := [];
      errors := [];
      this.hasOnError := hasOnError;
    }

    /** The `open` event. */
    method HandleOpen()
      modifies this`state
      ensures state == (if old(state) == Connecting then Open else old(state))
    {
      if state == Connecting {
        state := Open;
      }
    }

    /** The `close` event. */
    method HandleClose()
      modifies this`state
      ensures state == Closed
    {
      state := Closed;
    }

    /** The `message` event. */
    method HandleMessage(payload: Payload, parse: string -> ParseOutcome)
      modifies this`received
      ensures received == old(received) + OnMessage(payload, parse)
    {
      match payload
      case BinaryFrame =>
      case TextFrame(s) =>
        var outcome := parse(s);
        match outcome
        case ParseError =>
          received := received + [s];
        case Parsed(v) =>
          if Truthy(v) && TextProperty(v).Some? {
            received := received + [TextProperty(v).value];
          }
    }

    /** The `error` event: the error callback is called if and only if it
        was supplied. */
    method HandleError(e: SocketError)
      modifies this`errors
      ensures hasOnError ==> errors == old(errors) + [e]
      ensures !hasOnError ==> errors == old(errors)
    {
      if hasOnError {
        errors := errors + [e];
      }
    }

    /** The returned cleanup function. */
    method Cleanup()
      modifies this`state
      ensures state == AfterCleanup(old(state))
    {
      if state == Open {
        state := Closing;
      }
    }
  }

  // ---------------------------------------------------------------- mock stream

  /** The five Korean sample messages the mock uses by default. */
  const DefaultMessages: seq<string> := [
    "안녕하세요!",
    "실시간 텍스트 렌더링 예제입니다.",
    "Three.js를 사용하여 3D 텍스트를 표시합니다.",
    "Pretendard 폰트를 사용합니다.",
    "실시간으로 메시지가 갱신됩니다."
  ]

  /** What the k-th tick (from 0) hands to the callback: the messages in
      turn, wrapping around; `undefined` when the list is empty. */
  function Delivery(messages: seq<string>, k: nat): (r: Option<string>)
    ensures |messages| == 0 <==> r.None?
    ensures r.Some? ==> r.value in messages
  {
    if |messages| == 0 then None else Some(messages[k % |messages|])
  }

  /** The index after one tick: `(index + 1) % messages.length`, where an
      empty list makes it NaN (`None`), which every later tick keeps. */
  function NextIndex(index: Option<nat>, n: nat): (r: Option<nat>)
    ensures n > 0 && index.Some? ==> r.Some? && r.value < n
    ensures n == 0 ==> r.None?
  {
    if n == 0 || index.None? then None else Some((index.value + 1) % n)
  }

  /** Stepping the index from `k mod n` lands on `(k + 1) mod n`. */
  lemma {:induction false} IndexTracksTicks(k: nat, n: nat)
    requires n > 0
    ensures NextIndex(Some(k % n), n) == Some((k + 1) % n)
  {
    var q, r := k / n, k % n;
    if r + 1 < n {
      assert k + 1 == q * n + (r + 1);
      DivUnique(k + 1, n, q, r + 1);
      DivUnique(r + 1, n, 0, r + 1);
    } else {
      assert k + 1 == (q + 1) * n + 0;
      DivUnique(k + 1, n, q + 1, 0);
      DivUnique(r + 1, n, 1, 0);
    }
  }

  /** The timer state of `mockTextStreamConnection`. */
  class MockTextStream {
    /** The message list. */
    const messages: seq<string>
    /** The tick period, in milliseconds (timing itself is not modelled). */
    const interval: nat
    /** The closure's `index`; `None` stands for NaN. */
    var index: Option<nat>
    /** Whether the interval is still registered. */
    var running: bool
    /** Everything handed to the callback, in order (`None` is `undefined`). */
    var delivered: seq<Option<string>>

    /** The k-th delivery is the k-th entry of the list, wrapping around, and
        the index always points at the next one. */
    ghost predicate Valid()
      reads this
    {
      && (forall k :: 0 <= k < |delivered| ==> delivered[k] == Delivery(messages, k))
      && (|messages| > 0 ==> index == Some(|delivered| % |messages|))
      && (|messages| == 0 && |delivered| == 0 ==> index == Some(0))
      && (|messages| == 0 && |delivered| > 0 ==> index.None?)
    }

    /** Start the interval with the index at 0. */
    constructor (messages: seq<string>, interval: nat)
      ensures Valid()
      ensures this.messages == messages && this.interval == interval
      ensures running && delivered == []
    {
      this.messages := messages;
      this.interval := interval;
      index := Some(0);
      running := true;
      delivered := [];
    }

    /** One timer tick: deliver the current message, advance the index. A
        cleared interval does not tick. */
    method Tick()
      requires Valid()
      modifies this`index, this`delivered
      ensures Valid()
      ensures old(running) ==> delivered == old(delivered) + [Delivery(messages, |old(delivered)|)]
      ensures !old(running) ==> delivered == old(delivered) && index == old(index)
    {
      if !running {
        return;
      }
      var message: Option<string> := None;
      if index.Some? && index.value < |messages| {
        message := Some(messages[index.value]);
      }
      if |messages| > 0 {
        IndexTracksTicks(|delivered|, |messages|);
      }
      delivered := delivered + [message];
      index := NextIndex(index, |messages|);
    }

    /** The returned cleanup: clear the interval. */
    method Stop()
      modifies this`running
      ensures !running
    {
      running := false;
    }
  }

  /** A mock stream started with the default list (and the default 3000 ms
      period) delivers the five messages in order on its first five ticks,
      and the sixth tick delivers the first message again. */
  method DefaultMessagesCycle() returns (delivered: seq<Option<string>>)
    ensures |delivered| == 6
    ensures forall k :: 0 <= k < 5 ==> delivered[k] == Some(DefaultMessages[k])
    ensures delivered[5] == delivered[0] == Some("안녕하세요!")
  {
    var stream := new MockTextStream(DefaultMessages, 3000);
    var ticks := 0;
    while ticks < 6
      invariant 0 <= ticks <= 6
      invariant stream.Valid() && stream.running
      invariant stream.messages == DefaultMessages
      invariant |stream.delivered| == ticks
    {
      stream.Tick();
      ticks := ticks + 1;
    }
    delivered := stream.delivered;
    assert |DefaultMessages| == 5;
    forall k | 0 <= k < 5
      ensures delivered[k] == Some(DefaultMessages[k])
    {
      DivUnique(k, 5, 0, k);
    }
    DivUnique(5, 5, 1, 0);
  }

  /** Deliveries repeat with the length of the list. */
  lemma {:induction false} DeliveryPeriodic(messages: seq<string>, k: nat)
    ensures Delivery(messages, k + |messages|) == Delivery(messages, k)
  {
    if |messages| > 0 {
      ModAddDivisor(k, |messages|);
    }
  }
}
