/** The wire protocol between the supervisor and its Python children: frames,
    their bodies, and the pure parser both incremental decoders are measured
    against.

    Dispatch and completion bodies are modelled byte for byte. The MessagePack
    bodies are carried as the bytes they were packed to; whether such bytes
    unpack to the expected shape is a parameter, `valid`. */
module Wire {
  import opened Prelude
  import opened ByteCoding

  const HeaderBytes := 4
  const MaxFrameBytes := 16 * 1024 * 1024
  const DispatchHeadBytes := 15
  const CompleteHeadBytes := 10
  const MaxTaskBytes := 65535

  type I64 = x: int | -0x8000_0000_0000_0000 <= x < 0x8000_0000_0000_0000
  type I16 = x: int | -0x8000 <= x < 0x8000

  datatype Outcome = Success(result: Bytes) | Failure(error: Bytes, retry: bool)

  datatype PackedKind = Register | Steps | Record | Stored

  datatype Message =
    | Dispatch(id: I64, attempt: I16, maxAttempts: I16, task: Bytes, payload: Bytes)
    | Complete(id: I64, outcome: Outcome)
    | Packed(kind: PackedKind, packed: Bytes)

  datatype ProtocolError =
    | FrameTooLarge(size: nat)
    | Truncated
    | UnknownKind(code: Byte)
    | UnknownOutcome(code: Byte)
    | NotUtf8
    | TaskNameTooLong(size: nat)
    | Malformed

  type Schema = (PackedKind, Bytes) -> bool

  function KindCode(kind: PackedKind): Byte {
    match kind
    case Register => 0x02
    case Steps => 0x03
    case Record => 0x04
    case Stored => 0x05
  }

  lemma IntWidths(id: I64, n: I16)
    ensures FitsSigned(id, 8) && FitsSigned(n, 2)
  {
    Widths();
  }

  /** Text is UTF-8 and packed bodies unpack: what the Rust types guarantee of
      any message handed to the encoder. */
  predicate WellFormed(m: Message, valid: Schema) {
    match m
    case Dispatch(_, _, _, task, _) => IsUtf8(task)
    case Complete(_, Failure(error, _)) => IsUtf8(error)
    case Complete(_, Success(_)) => true
    case Packed(kind, packed) => valid(kind, packed)
  }

  // ---- encoding ------------------------------------------------------------

  function BodyLength(m: Message): nat {
    match m
    case Dispatch(_, _, _, task, payload) => DispatchHeadBytes + |task| + |payload|
    case Complete(_, Success(result)) => CompleteHeadBytes + |result|
    case Complete(_, Failure(error, _)) => CompleteHeadBytes + |error|
    case Packed(_, packed) => 1 + |packed|
  }

  function Rejection(m: Message): Option<ProtocolError> {
    if m.Dispatch? && |m.task| > MaxTaskBytes then Some(TaskNameTooLong(|m.task|))
    else if BodyLength(m) > MaxFrameBytes then Some(FrameTooLarge(BodyLength(m)))
    else None
  }

  predicate Accepted(m: Message) {
    Rejection(m).None?
  }

  function DispatchHead(id: I64, attempt: I16, maxAttempts: I16, taskLength: nat): (s: Bytes)
    ensures |s| == 14
  {
    IntWidths(id, attempt);
    IntWidths(id, maxAttempts);
    Signed(id, 8) + Signed(attempt, 2) + Signed(maxAttempts, 2) + Le(taskLength, 2)
  }

  function OutcomeBytes(outcome: Outcome): Bytes {
    match outcome
    case Success(result) => [0x00] + result
    case Failure(error, retry) => [if retry then 0x01 else 0x02] + error
  }

  function Body(m: Message): (s: Bytes)
    ensures |s| == BodyLength(m)
  {
    match m
    case Dispatch(id, attempt, maxAttempts, task, payload) =>
      [0x00] + (DispatchHead(id, attempt, maxAttempts, |task|) + task + payload)
    case Complete(id, outcome) =>
      IntWidths(id, 0);
      [0x01] + (Signed(id, 8) + OutcomeBytes(outcome))
    case Packed(kind, packed) => [KindCode(kind)] + packed
  }

  function Frame(m: Message): Bytes {
    Le(BodyLength(m), HeaderBytes) + Body(m)
  }

  function Frames(ms: seq<Message>): Bytes {
    if ms == [] then [] else Frame(ms[0]) + Frames(ms[1..])
  }

  /** The messages of a batch that the encoder takes. */
  function AcceptedOf(ms: seq<Message>): seq<Message> {
    if ms == [] then []
    else (if Accepted(ms[0]) then [ms[0]] else []) + AcceptedOf(ms[1..])
  }

  // ---- decoding ------------------------------------------------------------

  datatype Result<T, E> = Ok(value: T) | Err(error: E)

  function DecodeDispatch(rest: Bytes): Result<Message, ProtocolError> {
    if |rest| < 14 then Err(Truncated) else
    var nameLength := FromLe(rest[12..14]);
    var text := rest[14..];
    if |text| < nameLength then Err(Truncated)
    else if !IsUtf8(text[..nameLength]) then Err(NotUtf8)
    else
      SignedInRange(rest);
      Ok(Dispatch(FromSigned(rest[..8]), FromSigned(rest[8..10]), FromSigned(rest[10..12]),
                  text[..nameLength], text[nameLength..]))
  }

  lemma SignedInRange(rest: Bytes)
    requires |rest| >= 8
    ensures -0x8000_0000_0000_0000 <= FromSigned(rest[..8]) < 0x8000_0000_0000_0000
    ensures |rest| >= 12 ==> -0x8000 <= FromSigned(rest[8..10]) < 0x8000 && -0x8000 <= FromSigned(rest[10..12]) < 0x8000
  {
    Widths();
    SignedOfFromSigned(rest[..8]);
    if |rest| >= 12 {
      SignedOfFromSigned(rest[8..10]);
      SignedOfFromSigned(rest[10..12]);
    }
  }

  function DecodeComplete(rest: Bytes): Result<Message, ProtocolError> {
    if |rest| < 9 then Err(Truncated) else
    SignedInRange(rest);
    var id: I64 := FromSigned(rest[..8]);
    if rest[8] == 0x00 then Ok(Complete(id, Success(rest[9..])))
    else if rest[8] == 0x01 || rest[8] == 0x02 then
      if IsUtf8(rest[9..]) then Ok(Complete(id, Failure(rest[9..], rest[8] == 0x01))) else Err(NotUtf8)
    else Err(UnknownOutcome(rest[8]))
  }

  function DecodePacked(kind: PackedKind, rest: Bytes, valid: Schema): Result<Message, ProtocolError> {
    if valid(kind, rest) then Ok(Packed(kind, rest)) else Err(Malformed)
  }

  function DecodeBody(body: Bytes, valid: Schema): Result<Message, ProtocolError> {
    if body == [] then Err(Truncated) else
    var rest := body[1..];
    if body[0] == 0x00 then DecodeDispatch(rest)
    else if body[0] == 0x01 then DecodeComplete(rest)
    else if body[0] == 0x02 then DecodePacked(Register, rest, valid)
    else if body[0] == 0x03 then DecodePacked(Steps, rest, valid)
    else if body[0] == 0x04 then DecodePacked(Record, rest, valid)
    else if body[0] == 0x05 then DecodePacked(Stored, rest, valid)
    else Err(UnknownKind(body[0]))
  }

  /** What the front of a byte stream holds. */
  datatype Parsed =
    | NeedMore
    | Bad(error: ProtocolError)
    | Got(message: Message, used: nat)

  function NextFrame(s: Bytes, valid: Schema): (p: Parsed)
    ensures p.Got? ==> HeaderBytes < p.used <= |s|
  {
    if |s| < HeaderBytes then NeedMore else
    var size := FromLe(s[..HeaderBytes]);
    if size > MaxFrameBytes then Bad(FrameTooLarge(size))
    else if |s| - HeaderBytes < size then NeedMore
    else
      match DecodeBody(s[HeaderBytes..HeaderBytes + size], valid)
      case Err(error) => Bad(error)
      case Ok(message) => Got(message, HeaderBytes + size)
  }

  datatype Ending = Partial(rest: Bytes) | Failed(error: ProtocolError, rest: Bytes)

  datatype Stream = Stream(messages: seq<Message>, ending: Ending)

  /** The whole-stream parser: every message up to the first incomplete or
      unreadable frame. */
  function ParseAll(s: Bytes, valid: Schema): Stream
    decreases |s|
  {
    match NextFrame(s, valid)
    case NeedMore => Stream([], Partial(s))
    case Bad(error) => Stream([], Failed(error, s))
    case Got(message, used) => Prepend([message], ParseAll(s[used..], valid))
  }

  function Prepend(messages: seq<Message>, stream: Stream): Stream {
    Stream(messages + stream.messages, stream.ending)
  }

  // ---- one body ------------------------------------------------------------

  lemma DispatchRoundTrip(m: Message)
    requires m.Dispatch? && IsUtf8(m.task) && |m.task| <= MaxTaskBytes
    ensures DecodeDispatch(Body(m)[1..]) == Ok(m)
  {
    var rest := Body(m)[1..];
    IntWidths(m.id, m.attempt);
    IntWidths(m.id, m.maxAttempts);
    Widths();
    var head := DispatchHead(m.id, m.attempt, m.maxAttempts, |m.task|);
    assert rest == head + m.task + m.payload;
    assert rest[..8] == Signed(m.id, 8);
    assert rest[8..10] == Signed(m.attempt, 2);
    assert rest[10..12] == Signed(m.maxAttempts, 2);
    assert rest[12..14] == Le(|m.task|, 2);
    FromSignedOfSigned(m.id, 8);
    FromSignedOfSigned(m.attempt, 2);
    FromSignedOfSigned(m.maxAttempts, 2);
    FromLeOfLe(|m.task|, 2);
    assert rest[14..] == m.task + m.payload;
    assert rest[14..][..|m.task|] == m.task;
    assert rest[14..][|m.task|..] == m.payload;
  }

  lemma CompleteRoundTrip(m: Message, valid: Schema)
    requires m.Complete? && WellFormed(m, valid)
    ensures DecodeComplete(Body(m)[1..]) == Ok(m)
  {
    var rest := Body(m)[1..];
    IntWidths(m.id, 0);
    assert rest == Signed(m.id, 8) + OutcomeBytes(m.outcome);
    assert rest[..8] == Signed(m.id, 8);
    FromSignedOfSigned(m.id, 8);
    assert rest[8] == OutcomeBytes(m.outcome)[0];
    assert rest[9..] == OutcomeBytes(m.outcome)[1..];
  }

  lemma BodyRoundTrip(m: Message, valid: Schema)
    requires WellFormed(m, valid) && Accepted(m)
    ensures DecodeBody(Body(m), valid) == Ok(m)
  {
    match m
    case Dispatch(_, _, _, _, _) => DispatchRoundTrip(m);
    case Complete(_, _) => CompleteRoundTrip(m, valid);
    case Packed(_, packed) => assert Body(m)[1..] == packed;
  }

  /** Decoding loses nothing: a body that decodes is the encoding of what it
      decoded to. */
  lemma DispatchCanonical(rest: Bytes)
    requires DecodeDispatch(rest).Ok?
    ensures Body(DecodeDispatch(rest).value)[1..] == rest
    ensures IsUtf8(DecodeDispatch(rest).value.task) && |DecodeDispatch(rest).value.task| <= MaxTaskBytes
  {
    var m := DecodeDispatch(rest).value;
    Widths();
    LeOfFromLe(rest[12..14]);
    SignedOfFromSigned(rest[..8]);
    SignedOfFromSigned(rest[8..10]);
    SignedOfFromSigned(rest[10..12]);
    var head := DispatchHead(m.id, m.attempt, m.maxAttempts, |m.task|);
    assert head == rest[..8] + rest[8..10] + rest[10..12] + rest[12..14];
    assert rest == head + m.task + m.payload;
  }

  lemma CompleteCanonical(rest: Bytes)
    requires DecodeComplete(rest).Ok?
    ensures Body(DecodeComplete(rest).value)[1..] == rest
  {
    var m := DecodeComplete(rest).value;
    SignedOfFromSigned(rest[..8]);
    IntWidths(m.id, 0);
    assert OutcomeBytes(m.outcome) == rest[8..];
    assert rest == Signed(m.id, 8) + OutcomeBytes(m.outcome);
  }

  lemma BodyCanonical(body: Bytes, valid: Schema)
    requires DecodeBody(body, valid).Ok?
    ensures Body(DecodeBody(body, valid).value) == body
    ensures WellFormed(DecodeBody(body, valid).value, valid)
    ensures DecodeBody(body, valid).value.Dispatch? ==> |DecodeBody(body, valid).value.task| <= MaxTaskBytes
  {
    var m := DecodeBody(body, valid).value;
    if body[0] == 0x00 {
      DispatchCanonical(body[1..]);
    } else if body[0] == 0x01 {
      CompleteCanonical(body[1..]);
    }
    assert Body(m)[1..] == body[1..];
    assert Body(m) == [Body(m)[0]] + Body(m)[1..];
    assert body == [body[0]] + body[1..];
  }

  // ---- one frame -----------------------------------------------------------

  lemma FrameRoundTrip(m: Message, rest: Bytes, valid: Schema)
    requires WellFormed(m, valid) && Accepted(m)
    ensures NextFrame(Frame(m) + rest, valid) == Got(m, |Frame(m)|)
    ensures |Frame(m)| == HeaderBytes + BodyLength(m)
  {
    var s := Frame(m) + rest;
    Widths();
    FromLeOfLe(BodyLength(m), HeaderBytes);
    assert s[..HeaderBytes] == Le(BodyLength(m), HeaderBytes);
    assert s[HeaderBytes..HeaderBytes + BodyLength(m)] == Body(m);
    BodyRoundTrip(m, valid);
  }

  lemma FrameCanonical(s: Bytes, valid: Schema)
    requires NextFrame(s, valid).Got?
    ensures var p := NextFrame(s, valid);
            Accepted(p.message) && WellFormed(p.message, valid) && s[..p.used] == Frame(p.message)
  {
    var size := FromLe(s[..HeaderBytes]);
    var body := s[HeaderBytes..HeaderBytes + size];
    BodyCanonical(body, valid);
    LeOfFromLe(s[..HeaderBytes]);
    assert s[..HeaderBytes + size] == s[..HeaderBytes] + body;
  }

  /** More bytes never change the verdict on a frame that is already there. */
  lemma FrameStable(s: Bytes, more: Bytes, valid: Schema)
    requires !NextFrame(s, valid).NeedMore?
    ensures NextFrame(s + more, valid) == NextFrame(s, valid)
  {
    var t := s + more;
    assert t[..HeaderBytes] == s[..HeaderBytes];
    var size := FromLe(s[..HeaderBytes]);
    if size <= MaxFrameBytes {
      assert t[HeaderBytes..HeaderBytes + size] == s[HeaderBytes..HeaderBytes + size];
    }
  }

  // ---- whole streams -------------------------------------------------------

  function Extended(p: Stream, more: Bytes, valid: Schema): Stream {
    if p.ending.Failed? then Stream(p.messages, Failed(p.ending.error, p.ending.rest + more))
    else Prepend(p.messages, ParseAll(p.ending.rest + more, valid))
  }

  lemma ExtendedPrepends(first: Message, p: Stream, more: Bytes, valid: Schema)
    ensures Extended(Prepend([first], p), more, valid) == Prepend([first], Extended(p, more, valid))
  {
    if p.ending.Partial? {
      var tail := ParseAll(p.ending.rest + more, valid).messages;
      assert ([first] + p.messages) + tail == [first] + (p.messages + tail);
    }
  }

  lemma ParseFirst(s: Bytes, valid: Schema)
    requires NextFrame(s, valid).Got?
    ensures ParseAll(s, valid) == Prepend([NextFrame(s, valid).message], ParseAll(s[NextFrame(s, valid).used..], valid))
  {}

  /** Bytes that arrive later extend the parse and never revise it. */
  lemma {:induction false} ParseExtends(s: Bytes, more: Bytes, valid: Schema)
    ensures ParseAll(s + more, valid) == Extended(ParseAll(s, valid), more, valid)
    decreases |s|
  {
    var p := NextFrame(s, valid);
    if p.NeedMore? {
      var q := ParseAll(s + more, valid);
      assert [] + q.messages == q.messages;
    } else {
      FrameStable(s, more, valid);
      if p.Got? {
        ParseFirst(s, valid);
        ParseFirst(s + more, valid);
        assert (s + more)[p.used..] == s[p.used..] + more;
        ParseExtends(s[p.used..], more, valid);
        ExtendedPrepends(p.message, ParseAll(s[p.used..], valid), more, valid);
      }
    }
  }

  /** Any stream is the frames of its messages followed by what is left: the
      parser neither drops nor invents bytes. */
  lemma {:induction false} ParseIsFaithful(s: Bytes, valid: Schema)
    ensures Faithful(s, ParseAll(s, valid), valid)
    decreases |s|
  {
    var next := NextFrame(s, valid);
    if next.Got? {
      ParseIsFaithful(s[next.used..], valid);
      FaithfulSoFar(s, valid);
    } else {
      assert Frames([]) + s == s;
    }
  }

  ghost predicate Faithful(s: Bytes, p: Stream, valid: Schema) {
    && s == Frames(p.messages) + p.ending.rest
    && forall i :: 0 <= i < |p.messages| ==> Accepted(p.messages[i]) && WellFormed(p.messages[i], valid)
  }

  lemma FaithfulSoFar(s: Bytes, valid: Schema)
    requires NextFrame(s, valid).Got?
    requires Faithful(s[NextFrame(s, valid).used..], ParseAll(s[NextFrame(s, valid).used..], valid), valid)
    ensures Faithful(s, ParseAll(s, valid), valid)
  {
    var next := NextFrame(s, valid);
    var q := ParseAll(s[next.used..], valid);
    FrameCanonical(s, valid);
    ParseFirst(s, valid);
    PrependFaithful(s, next.used, next.message, q, valid);
  }

  lemma PrependFaithful(s: Bytes, used: nat, m: Message, q: Stream, valid: Schema)
    requires used <= |s| && s[..used] == Frame(m) && Accepted(m) && WellFormed(m, valid)
    requires Faithful(s[used..], q, valid)
    ensures Faithful(s, Prepend([m], q), valid)
  {
    var p := Prepend([m], q);
    assert p.messages[1..] == q.messages;
    assert s == s[..used] + s[used..];
    Associates(Frame(m), Frames(q.messages), q.ending.rest);
  }

  lemma FrameParses(m: Message, rest: Bytes, valid: Schema)
    requires WellFormed(m, valid) && Accepted(m)
    ensures ParseAll(Frame(m) + rest, valid) == Prepend([m], ParseAll(rest, valid))
  {
    FrameRoundTrip(m, rest, valid);
    ParseFirst(Frame(m) + rest, valid);
    assert (Frame(m) + rest)[|Frame(m)|..] == rest;
  }

  lemma PrependTwice(first: Message, others: seq<Message>, p: Stream)
    ensures Prepend([first], Prepend(others, p)) == Prepend([first] + others, p)
  {
    assert [first] + (others + p.messages) == ([first] + others) + p.messages;
  }

  lemma OneMoreFrame(m: Message, others: seq<Message>, s: Bytes, end: Stream, valid: Schema)
    requires WellFormed(m, valid) && Accepted(m) && ParseAll(s, valid) == Prepend(others, end)
    ensures ParseAll(Frame(m) + s, valid) == Prepend([m] + others, end)
  {
    FrameParses(m, s, valid);
    PrependTwice(m, others, end);
  }

  lemma FramesHead(ms: seq<Message>, rest: Bytes)
    requires ms != []
    ensures Frames(ms) + rest == Frame(ms[0]) + (Frames(ms[1..]) + rest)
    ensures [ms[0]] + ms[1..] == ms
  {
    Associates(Frame(ms[0]), Frames(ms[1..]), rest);
  }

  lemma Associates<T>(a: seq<T>, b: seq<T>, c: seq<T>)
    ensures (a + b) + c == a + (b + c)
  {}

  lemma {:induction false} FramesParseTo(ms: seq<Message>, rest: Bytes, end: Stream, valid: Schema)
    requires forall i :: 0 <= i < |ms| ==> WellFormed(ms[i], valid) && Accepted(ms[i])
    requires ParseAll(rest, valid) == end
    ensures ParseAll(Frames(ms) + rest, valid) == Prepend(ms, end)
    decreases |ms|
  {
    if ms == [] {
      assert Frames(ms) + rest == rest;
    } else {
      FramesParseTo(ms[1..], rest, end, valid);
      OneMoreFrame(ms[0], ms[1..], Frames(ms[1..]) + rest, end, valid);
      FramesHead(ms, rest);
    }
  }

  lemma {:induction false} AcceptedOnes(ms: seq<Message>, valid: Schema)
    requires forall i :: 0 <= i < |ms| ==> WellFormed(ms[i], valid)
    ensures forall i :: 0 <= i < |AcceptedOf(ms)| ==>
              WellFormed(AcceptedOf(ms)[i], valid) && Accepted(AcceptedOf(ms)[i])
    decreases |ms|
  {
    if ms != [] {
      AcceptedOnes(ms[1..], valid);
    }
  }

  /** A batch in which some messages were rejected decodes to exactly the others,
      in order, with no bytes left over. */
  lemma BatchRoundTrip(ms: seq<Message>, valid: Schema)
    requires forall i :: 0 <= i < |ms| ==> WellFormed(ms[i], valid)
    ensures ParseAll(Frames(AcceptedOf(ms)), valid) == Stream(AcceptedOf(ms), Partial([]))
  {
    AcceptedOnes(ms, valid);
    FramesParseTo(AcceptedOf(ms), [], Stream([], Partial([])), valid);
    assert Frames(AcceptedOf(ms)) + [] == Frames(AcceptedOf(ms));
  }

  lemma {:induction false} FramesSnoc(ms: seq<Message>, m: Message)
    ensures Frames(ms + [m]) == Frames(ms) + Frame(m)
    decreases |ms|
  {
    if ms == [] {
      assert ms + [m] == [m];
      assert Frames([m]) == Frame(m) + [];
    } else {
      FramesSnoc(ms[1..], m);
      FirstThenRest(ms, m);
      Associates(Frame(ms[0]), Frames(ms[1..]), Frame(m));
    }
  }

  lemma FirstThenRest(ms: seq<Message>, m: Message)
    requires ms != []
    ensures (ms + [m])[0] == ms[0] && (ms + [m])[1..] == ms[1..] + [m]
  {}

  lemma {:induction false} AcceptedSnoc(ms: seq<Message>, m: Message)
    ensures AcceptedOf(ms + [m]) == AcceptedOf(ms) + if Accepted(m) then [m] else []
    decreases |ms|
  {
    if ms == [] {
      assert ms + [m] == [m];
    } else {
      AcceptedSnoc(ms[1..], m);
      FirstThenRest(ms, m);
      Associates(if Accepted(ms[0]) then [ms[0]] else [], AcceptedOf(ms[1..]), if Accepted(m) then [m] else []);
    }
  }
}
