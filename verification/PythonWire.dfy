/** The Python half of the protocol, written independently of the Rust half,
    and when exactly the two make the same of a byte stream. Each half unpacks
    MessagePack with a library of its own, so each has a schema of its own. */
module PythonWire {
  import opened Prelude
  import opened ByteCoding
  import opened Wire
  import opened Codec

  const MaxErrorBytes := 64 * 1024

  /** Messages that flow from the supervisor to a child. */
  predicate ForChild(m: Message) {
    m.Dispatch? || (m.Packed? && (m.kind.Steps? || m.kind.Stored?))
  }

  /** Python's slices clip instead of failing. */
  function Clipped(s: Bytes, lo: nat, hi: nat): Bytes {
    if lo <= hi <= |s| then s[lo..hi] else []
  }

  /** The front of the buffer as `drain` reads it, by absolute offsets. Every
      exception, whatever its class, is `Bad`. */
  function DrainOne(s: Bytes, python: Schema): (p: Parsed)
    ensures p.Got? ==> HeaderBytes <= p.used <= |s|
  {
    if |s| < HeaderBytes then NeedMore else
    var size := FromLe(s[..4]);
    if size > MaxFrameBytes then Bad(FrameTooLarge(size))
    else if |s| - HeaderBytes < size then NeedMore
    else if |s| == HeaderBytes then Bad(Truncated)
    else
      var end := 4 + size;
      var kind := s[4];
      if kind == 0x03 || kind == 0x05 then
        var packed := Clipped(s, 5, end);
        var unpacks := if kind == 0x03 then Steps else Stored;
        if python(unpacks, packed) then Got(Packed(unpacks, packed), end) else Bad(Malformed)
      else if kind != 0x00 then Bad(UnknownKind(kind))
      else if size < DispatchHeadBytes then Bad(Truncated)
      else
        var payloadAt := 19 + FromLe(s[17..19]);
        if payloadAt > end then Bad(Truncated)
        else if !IsUtf8(s[19..payloadAt]) then Bad(NotUtf8)
        else
          OffsetsInRange(s);
          Got(Dispatch(FromSigned(s[5..13]), FromSigned(s[13..15]), FromSigned(s[15..17]),
                       s[19..payloadAt], s[payloadAt..end]), end)
  }

  lemma OffsetsInRange(s: Bytes)
    requires |s| >= 19
    ensures -0x8000_0000_0000_0000 <= FromSigned(s[5..13]) < 0x8000_0000_0000_0000
    ensures -0x8000 <= FromSigned(s[13..15]) < 0x8000 && -0x8000 <= FromSigned(s[15..17]) < 0x8000
  {
    Widths();
    SignedOfFromSigned(s[5..13]);
    SignedOfFromSigned(s[13..15]);
    SignedOfFromSigned(s[15..17]);
  }

  // ---- agreement, frame by frame -------------------------------------------

  lemma SameDispatch(s: Bytes, size: nat, rust: Schema, python: Schema)
    requires |s| >= 4 + size && size >= 15 && s[4] == 0x00 && size == FromLe(s[..4]) <= MaxFrameBytes
    ensures DrainOne(s, python).Got? <==> NextFrame(s, rust).Got?
    ensures DrainOne(s, python).Got? ==> DrainOne(s, python) == NextFrame(s, rust)
  {
    var body := s[4..4 + size];
    var rest := body[1..];
    assert rest == s[5..4 + size];
    SliceOfSlice(s, 5, 4 + size, 0, 8);
    SliceOfSlice(s, 5, 4 + size, 8, 10);
    SliceOfSlice(s, 5, 4 + size, 10, 12);
    SliceOfSlice(s, 5, 4 + size, 12, 14);
    SliceOfSlice(s, 5, 4 + size, 14, size - 1);
    var n := FromLe(s[17..19]);
    if 19 + n <= 4 + size {
      SliceOfSlice(s, 19, 4 + size, 0, n);
      SliceOfSlice(s, 19, 4 + size, n, size - 15);
    }
  }

  lemma SliceOfSlice(s: Bytes, lo: nat, hi: nat, i: nat, j: nat)
    requires i <= j && lo + j <= hi <= |s|
    ensures s[lo..hi][i..j] == s[lo + i..lo + j]
  {
    var part := s[lo..hi];
    assert forall k :: 0 <= k < j - i ==> part[i..j][k] == part[i + k] == s[lo + i + k] == s[lo + i..lo + j][k];
  }

  /** The MessagePack part of a Steps or Stored frame at the front, once it is all
      there. */
  function FrontPacked(s: Bytes): Option<(PackedKind, Bytes)> {
    if |s| < HeaderBytes then None else
    var size := FromLe(s[..4]);
    if size > MaxFrameBytes || |s| - HeaderBytes < size || size == 0 then None
    else if s[4] == 0x03 then Some((Steps, s[5..4 + size]))
    else if s[4] == 0x05 then Some((Stored, s[5..4 + size]))
    else None
  }

  /** The two libraries both unpack it, or neither does. */
  predicate Alike(s: Bytes, rust: Schema, python: Schema) {
    match FrontPacked(s)
    case None => true
    case Some((kind, packed)) => rust(kind, packed) <==> python(kind, packed)
  }

  /** On every byte string: both decoders want more of it, or neither does; and
      Python yields a message exactly where Rust yields one for the child, as
      long as and only if the libraries agree on the MessagePack met there. Where
      both yield a message it is the same one. MessagePack has no value with an
      empty encoding. */
  lemma DecodersAgreeOnFront(s: Bytes, rust: Schema, python: Schema)
    requires forall kind :: !python(kind, [])
    ensures DrainOne(s, python).NeedMore? <==> NextFrame(s, rust).NeedMore?
    ensures (DrainOne(s, python).Got? <==> NextFrame(s, rust).Got? && ForChild(NextFrame(s, rust).message))
            <==> Alike(s, rust, python)
    ensures DrainOne(s, python).Got? && NextFrame(s, rust).Got? ==> DrainOne(s, python) == NextFrame(s, rust)
  {
    if |s| >= HeaderBytes {
      var size := FromLe(s[..4]);
      if size <= MaxFrameBytes && |s| - HeaderBytes >= size {
        var body := s[4..4 + size];
        if size == 0 {
          assert body == [];
        } else {
          assert body[0] == s[4];
          assert body[1..] == s[5..4 + size];
          if s[4] == 0x00 && size >= 15 {
            SameDispatch(s, size, rust, python);
          }
        }
      }
    }
  }

  // ---- agreement, stream by stream -----------------------------------------

  /** What a sequence of `drain` calls makes of a stream. */
  function DrainAll(s: Bytes, python: Schema): Stream
    decreases |s|
  {
    match DrainOne(s, python)
    case NeedMore => Stream([], Partial(s))
    case Bad(error) => Stream([], Failed(error, s))
    case Got(message, used) => Prepend([message], DrainAll(s[used..], python))
  }

  /** The longest run of messages from the front that are for the child. */
  function ChildPrefix(ms: seq<Message>): seq<Message> {
    if ms == [] || !ForChild(ms[0]) then [] else [ms[0]] + ChildPrefix(ms[1..])
  }

  /** The child gets what the Rust parser finds for it, and waits for more exactly
      when that parser does after nothing but messages for the child. */
  predicate SameStream(drained: Stream, parsed: Stream) {
    && drained.messages == ChildPrefix(parsed.messages)
    && (drained.ending.Partial? <==> parsed.ending.Partial? && ChildPrefix(parsed.messages) == parsed.messages)
    && (drained.ending.Partial? ==> drained == parsed)
  }

  /** Alike at every frame the child reads. */
  predicate AlikeThroughout(s: Bytes, rust: Schema, python: Schema)
    decreases |s|
  {
    && Alike(s, rust, python)
    && (DrainOne(s, python).Got? ==> AlikeThroughout(s[DrainOne(s, python).used..], rust, python))
  }

  /** The two halves of the protocol make the same of a stream exactly when their
      libraries agree on the MessagePack frames met on the way. */
  lemma {:induction false} DecodersAgree(s: Bytes, rust: Schema, python: Schema)
    requires forall kind :: !python(kind, [])
    ensures SameStream(DrainAll(s, python), ParseAll(s, rust)) <==> AlikeThroughout(s, rust, python)
    decreases |s|
  {
    DecodersAgreeOnFront(s, rust, python);
    var p := NextFrame(s, rust);
    if p.Got? {
      ParseFirst(s, rust);
      var drained, parsed := DrainAll(s[p.used..], python), ParseAll(s[p.used..], rust);
      if ForChild(p.message) && Alike(s, rust, python) {
        DecodersAgree(s[p.used..], rust, python);
        SameAfterFirst(p.message, drained, parsed);
      }
    }
  }

  lemma SameAfterFirst(m: Message, drained: Stream, parsed: Stream)
    requires ForChild(m)
    ensures SameStream(Prepend([m], drained), Prepend([m], parsed)) <==> SameStream(drained, parsed)
  {
    assert ([m] + parsed.messages)[1..] == parsed.messages;
    assert ([m] + drained.messages)[1..] == drained.messages;
    assert ([m] + ChildPrefix(parsed.messages))[1..] == ChildPrefix(parsed.messages);
  }

  /** And every such disagreement shows: the frame of a body that one library
      unpacks and the other does not, say a Steps tuple with a field too many, is
      a message on one side and an error on the other. */
  lemma UnlikeFrameSplits(kind: PackedKind, packed: Bytes, rust: Schema, python: Schema)
    requires (kind.Steps? || kind.Stored?) && 1 + |packed| <= MaxFrameBytes
    requires (forall k :: !python(k, [])) && rust(kind, packed) != python(kind, packed)
    ensures var s := Frame(Packed(kind, packed)); !SameStream(DrainAll(s, python), ParseAll(s, rust))
  {
    FrontOfPacked(kind, packed);
    DecodersAgree(Frame(Packed(kind, packed)), rust, python);
  }

  lemma FrontOfPacked(kind: PackedKind, packed: Bytes)
    requires (kind.Steps? || kind.Stored?) && 1 + |packed| <= MaxFrameBytes
    ensures FrontPacked(Frame(Packed(kind, packed))) == Some((kind, packed))
  {
    var m := Packed(kind, packed);
    Widths();
    FromLeOfLe(BodyLength(m), 4);
    Behind(Le(BodyLength(m), 4), Body(m)[0], packed);
  }

  lemma Behind(head: Bytes, code: Byte, packed: Bytes)
    requires |head| == 4
    ensures var s := head + ([code] + packed);
            |s| == 5 + |packed| && s[..4] == head && s[4] == code && s[5..5 + |packed|] == packed
  {}

  lemma {:induction false} AlikeToItself(s: Bytes, valid: Schema)
    ensures AlikeThroughout(s, valid, valid)
    decreases |s|
  {
    if DrainOne(s, valid).Got? {
      AlikeToItself(s[DrainOne(s, valid).used..], valid);
    }
  }

  /** The frames a supervisor sends reach the child as the messages they were
      made from, as long as Python unpacks what Rust packed. */
  lemma SupervisorFramesArrive(ms: seq<Message>, python: Schema)
    requires forall kind :: !python(kind, [])
    requires forall i :: 0 <= i < |ms| ==> Sendable(ms[i], python)
    ensures DrainAll(Frames(ms), python) == Stream(ms, Partial([]))
  {
    FramesDrainTo(ms, [], python);
    assert Frames(ms) + [] == Frames(ms) && ms + [] == ms;
  }

  // ---- the object ----------------------------------------------------------

  /** A message a supervisor can put on the wire for a child, and Python unpacks. */
  predicate Sendable(m: Message, python: Schema) {
    WellFormed(m, python) && Accepted(m) && ForChild(m)
  }

  lemma GotIsSendable(s: Bytes, python: Schema)
    requires forall kind :: !python(kind, [])
    requires DrainOne(s, python).Got?
    ensures var p := DrainOne(s, python);
            p == NextFrame(s, python) && Sendable(p.message, python) && s[..p.used] == Frame(p.message)
  {
    DecodersAgreeOnFront(s, python, python);
    FrameCanonical(s, python);
  }

  /** Frames for a child are drained one after the other, whatever follows. */
  lemma {:induction false} FramesDrainTo(ms: seq<Message>, rest: Bytes, python: Schema)
    requires forall kind :: !python(kind, [])
    requires forall i :: 0 <= i < |ms| ==> Sendable(ms[i], python)
    ensures DrainAll(Frames(ms) + rest, python) == Prepend(ms, DrainAll(rest, python))
    decreases |ms|
  {
    if ms == [] {
      assert Frames(ms) + rest == rest && ms + DrainAll(rest, python).messages == DrainAll(rest, python).messages;
    } else {
      FramesHead(ms, rest);
      var tail := Frames(ms[1..]) + rest;
      FrameRoundTrip(ms[0], tail, python);
      DecodersAgreeOnFront(Frame(ms[0]) + tail, python, python);
      assert (Frame(ms[0]) + tail)[|Frame(ms[0])|..] == tail;
      FramesDrainTo(ms[1..], rest, python);
      PrependMany([ms[0]], ms[1..], DrainAll(rest, python));
    }
  }

  class Drainer {
    var buf: Bytes
    const python: Schema
    ghost var received: Bytes
    ghost var emitted: seq<Message>

    /** What was received is the frames of what was handed out, then the buffer. */
    ghost predicate Valid()
      reads this
    {
      && (forall kind :: !python(kind, []))
      && received == Frames(emitted) + buf
      && forall i :: 0 <= i < |emitted| ==> Sendable(emitted[i], python)
    }

    constructor (python: Schema)
      requires forall kind :: !python(kind, [])
      ensures Valid() && this.python == python && received == [] && emitted == []
    {
      buf, received, emitted := [], [], [];
      this.python := python;
    }

    /** Whatever the chunks and however the calls were interleaved: what was
        handed out begins the drain of everything received, and what is left to
        come is the drain of the buffer. */
    lemma RefinesDrain()
      requires Valid()
      ensures DrainAll(received, python) == Prepend(emitted, DrainAll(buf, python))
    {
      FramesDrainTo(emitted, buf, python);
    }

    method Extend(chunk: Bytes)
      requires Valid()
      modifies this
      ensures Valid() && received == old(received) + chunk && emitted == old(emitted) && buf == old(buf) + chunk
    {
      Associates(Frames(emitted), buf, chunk);
      buf := buf + chunk;
      received := received + chunk;
    }

    /** Frame after frame from the front of the buffer, up to one that is not
        all there or cannot be read. */
    method Scan() returns (out: seq<Message>, pos: nat, raised: bool)
      requires forall kind :: !python(kind, [])
      ensures pos <= |buf| && buf == Frames(out) + buf[pos..] && forall i :: 0 <= i < |out| ==> Sendable(out[i], python)
      ensures if raised then DrainOne(buf[pos..], python).Bad? else DrainOne(buf[pos..], python).NeedMore?
    {
      pos, out := 0, [];
      while true
        invariant pos <= |buf| && buf == Frames(out) + buf[pos..]
        invariant forall i :: 0 <= i < |out| ==> Sendable(out[i], python)
        decreases |buf| - pos
      {
        var next := DrainOne(buf[pos..], python);
        if !next.Got? {
          raised := next.Bad?;
          return;
        }
        GotIsSendable(buf[pos..], python);
        Emitted(out, buf[pos..], python);
        assert buf[pos..][next.used..] == buf[pos + next.used..];
        out := out + [next.message];
        pos := pos + next.used;
      }
    }

    /** Everything complete in the buffer. A call that raises hands out nothing,
        not even the messages in front of the unreadable frame, and leaves the
        buffer alone. */
    method Drain() returns (out: seq<Message>, raised: bool)
      requires Valid()
      modifies this
      ensures Valid() && received == old(received)
      ensures raised <==> DrainAll(old(buf), python).ending.Failed?
      ensures raised ==> out == [] && buf == old(buf) && emitted == old(emitted)
      ensures !raised ==> out == DrainAll(old(buf), python).messages && emitted == old(emitted) + out
                          && buf == DrainAll(old(buf), python).ending.rest && DrainOne(buf, python).NeedMore?
    {
      var pos;
      out, pos, raised := Scan();
      FramesDrainTo(out, buf[pos..], python);
      if raised {
        out := [];
      } else {
        assert out + [] == out;
        FramesOfBoth(emitted, out);
        Associates(Frames(emitted), Frames(out), buf[pos..]);
        buf := buf[pos..];
        emitted := emitted + out;
      }
    }
  }

  lemma {:induction false} FramesOfBoth(a: seq<Message>, b: seq<Message>)
    ensures Frames(a + b) == Frames(a) + Frames(b)
    decreases |a|
  {
    if a == [] {
      assert a + b == b && Frames(a) + Frames(b) == Frames(b);
    } else {
      assert (a + b)[1..] == a[1..] + b;
      FramesOfBoth(a[1..], b);
      Associates(Frame(a[0]), Frames(a[1..]), Frames(b));
    }
  }

  /** Feed a stream of supervisor frames in any chunks, draining after each: the
      child never raises and receives exactly the messages that were sent. */
  method DrainChunks(chunks: seq<Bytes>, ghost sent: seq<Message>, python: Schema) returns (out: seq<Message>)
    requires forall kind :: !python(kind, [])
    requires forall i :: 0 <= i < |sent| ==> Sendable(sent[i], python)
    requires Concat(chunks) == Frames(sent)
    ensures out == sent
  {
    SupervisorFramesArrive(sent, python);
    var decoder := new Drainer(python);
    out := [];
    for i := 0 to |chunks|
      invariant fresh(decoder) && decoder.Valid() && decoder.python == python
      invariant decoder.received == Concat(chunks[..i]) && decoder.emitted == out
      invariant DrainOne(decoder.buf, python).NeedMore?
    {
      ConcatSnoc(chunks, i);
      decoder.Extend(chunks[i]);
      PrefixDrains(chunks, i + 1, python);
      decoder.RefinesDrain();
      var more, raised := decoder.Drain();
      out := out + more;
    }
    assert chunks[..|chunks|] == chunks;
    decoder.RefinesDrain();
    assert out + [] == out;
  }

  lemma {:induction false} PrefixDrains(chunks: seq<Bytes>, i: nat, python: Schema)
    requires forall kind :: !python(kind, [])
    requires i <= |chunks| && DrainAll(Concat(chunks), python).ending.Partial?
    ensures DrainAll(Concat(chunks[..i]), python).ending.Partial?
    decreases |chunks| - i
  {
    if i == |chunks| {
      assert chunks[..i] == chunks;
    } else {
      PrefixDrains(chunks, i + 1, python);
      ConcatSnoc(chunks, i);
      ShorterDrains(Concat(chunks[..i]), chunks[i], python);
    }
  }

  lemma ShorterDrains(s: Bytes, more: Bytes, python: Schema)
    requires forall kind :: !python(kind, [])
    requires DrainAll(s + more, python).ending.Partial?
    ensures DrainAll(s, python).ending.Partial?
  {
    AlikeToItself(s, python);
    AlikeToItself(s + more, python);
    DecodersAgree(s, python, python);
    DecodersAgree(s + more, python, python);
    ParseExtends(s, more, python);
    var p := ParseAll(s, python);
    if p.ending.Partial? {
      PrefixForChild(p.messages, ParseAll(p.ending.rest + more, python).messages);
    }
  }

  lemma {:induction false} PrefixForChild(a: seq<Message>, b: seq<Message>)
    requires ChildPrefix(a + b) == a + b
    ensures ChildPrefix(a) == a
    decreases |a|
  {
    if a != [] {
      assert (a + b)[1..] == a[1..] + b;
      assert ChildPrefix(a + b)[1..] == ChildPrefix(a[1..] + b);
      PrefixForChild(a[1..], b);
      assert a == [a[0]] + a[1..];
    }
  }

  lemma PrependMany(a: seq<Message>, b: seq<Message>, p: Stream)
    ensures Prepend(a, Prepend(b, p)) == Prepend(a + b, p)
  {
    assert a + (b + p.messages) == (a + b) + p.messages;
  }

  // ---- sizes ---------------------------------------------------------------

  /** Largest payload the library lets through for a task of this name. */
  function PayloadLimit(task: Bytes): int {
    MaxFrameBytes - DispatchHeadBytes - |task|
  }

  /** The limit checked at enqueue is exactly what the supervisor can later
      dispatch, for every name whose length fits its two bytes; a longer name
      can never be dispatched, and the limit does not say so. */
  lemma PayloadLimitExact(m: Message)
    requires m.Dispatch?
    ensures Accepted(m) <==> |m.task| <= MaxTaskBytes && |m.payload| <= PayloadLimit(m.task)
  {}

  // ---- reports -------------------------------------------------------------

  function PackComplete(size: nat, id: I64, code: Byte): Bytes {
    IntWidths(id, 0);
    Le(size, 4) + ([0x01] + (Signed(id, 8) + [code]))
  }

  function EncodeSuccess(id: I64, result: Bytes): Bytes {
    PackComplete(10 + |result|, id, 0x00) + result
  }

  const TruncationNote: Bytes := [0x0A, 0x2E, 0x2E, 0x2E, 0x20, 0x74, 0x72, 0x75, 0x6E, 0x63, 0x61, 0x74, 0x65, 0x64]

  function Rendered(error: Bytes): Bytes {
    if |error| > MaxErrorBytes then error[..MaxErrorBytes] + TruncationNote else error
  }

  function EncodeFailure(id: I64, error: Bytes, retry: bool): Bytes {
    PackComplete(10 + |Rendered(error)|, id, if retry then 0x01 else 0x02) + Rendered(error)
  }

  /** Both report encoders produce the very bytes the Rust encoder would. */
  lemma ReportsAreFrames(id: I64, result: Bytes, error: Bytes, retry: bool)
    ensures EncodeSuccess(id, result) == Frame(Complete(id, Success(result)))
    ensures EncodeFailure(id, error, retry) == Frame(Complete(id, Failure(Rendered(error), retry)))
  {
    SameReport(10 + |result|, id, 0x00, result);
    SameReport(10 + |Rendered(error)|, id, if retry then 0x01 else 0x02, Rendered(error));
  }

  lemma SameReport(size: nat, id: I64, code: Byte, tail: Bytes)
    ensures FitsSigned(id, 8)
    ensures PackComplete(size, id, code) + tail == Le(size, 4) + ([0x01] + (Signed(id, 8) + ([code] + tail)))
  {
    IntWidths(id, 0);
    Regroup(Le(size, 4), [0x01], Signed(id, 8), [code], tail);
  }

  lemma Regroup(a: Bytes, b: Bytes, c: Bytes, d: Bytes, e: Bytes)
    ensures (a + (b + (c + d))) + e == a + (b + (c + (d + e)))
  {}

  /** A success is understood exactly when its result fits a frame; one that
      does not is refused by the supervisor's decoder, since nothing on the
      Python side checks. */
  lemma SuccessArrives(id: I64, result: Bytes, rest: Bytes, valid: Schema)
    requires 10 + |result| < 0x1_0000_0000
    ensures CompleteHeadBytes + |result| <= MaxFrameBytes ==>
              NextFrame(EncodeSuccess(id, result) + rest, valid) ==
                Got(Complete(id, Success(result)), |EncodeSuccess(id, result)|)
    ensures CompleteHeadBytes + |result| > MaxFrameBytes ==>
              NextFrame(EncodeSuccess(id, result) + rest, valid) == Bad(FrameTooLarge(10 + |result|))
  {
    var m := Complete(id, Success(result));
    ReportsAreFrames(id, result, [], false);
    if Accepted(m) {
      FrameRoundTrip(m, rest, valid);
    } else {
      HeaderRead(m, rest);
    }
  }

  lemma HeaderRead(m: Message, rest: Bytes)
    requires BodyLength(m) < 0x1_0000_0000
    ensures |Frame(m) + rest| >= 4 && FromLe((Frame(m) + rest)[..4]) == BodyLength(m)
  {
    Widths();
    FromLeOfLe(BodyLength(m), 4);
    assert (Frame(m) + rest)[..4] == Le(BodyLength(m), 4);
  }

  /** A failure is understood exactly when the text kept after truncation is
      still UTF-8. The note appended is plain ASCII, so that is decided at the
      cut: the supervisor reads the report if and only if the cut falls between
      characters. */
  lemma FailureArrives(id: I64, error: Bytes, retry: bool, rest: Bytes, valid: Schema)
    requires IsUtf8(error)
    ensures NextFrame(EncodeFailure(id, error, retry) + rest, valid) ==
              if |error| <= MaxErrorBytes || IsUtf8(error[..MaxErrorBytes])
              then Got(Complete(id, Failure(Rendered(error), retry)), |EncodeFailure(id, error, retry)|)
              else Bad(NotUtf8)
  {
    ReportsAreFrames(id, [], error, retry);
    RenderedIsText(error);
    ReportVerdict(Complete(id, Failure(Rendered(error), retry)), rest, valid);
  }

  lemma RenderedIsText(error: Bytes)
    requires IsUtf8(error)
    ensures IsUtf8(Rendered(error)) <==> |error| <= MaxErrorBytes || IsUtf8(error[..MaxErrorBytes])
    ensures |Rendered(error)| <= MaxErrorBytes + 14
  {
    if |error| > MaxErrorBytes {
      AsciiSuffix(error[..MaxErrorBytes], TruncationNote);
    }
  }

  lemma ReportVerdict(m: Message, rest: Bytes, valid: Schema)
    requires m.Complete? && m.outcome.Failure? && BodyLength(m) <= MaxFrameBytes
    ensures NextFrame(Frame(m) + rest, valid) ==
              if IsUtf8(m.outcome.error) then Got(m, |Frame(m)|) else Bad(NotUtf8)
  {
    if IsUtf8(m.outcome.error) {
      FrameRoundTrip(m, rest, valid);
    } else {
      UnreadableReport(m, rest, valid);
    }
  }

  lemma UnreadableReport(m: Message, rest: Bytes, valid: Schema)
    requires m.Complete? && m.outcome.Failure? && !IsUtf8(m.outcome.error) && BodyLength(m) <= MaxFrameBytes
    ensures NextFrame(Frame(m) + rest, valid) == Bad(NotUtf8)
  {
    var s := Frame(m) + rest;
    HeaderRead(m, rest);
    assert s[HeaderBytes..HeaderBytes + BodyLength(m)] == Body(m);
    NotDecoded(m);
  }

  lemma NotDecoded(m: Message)
    requires m.Complete? && m.outcome.Failure? && !IsUtf8(m.outcome.error)
    ensures Body(m)[0] == 0x01 && DecodeComplete(Body(m)[1..]) == Err(NotUtf8)
  {
    var rest := Body(m)[1..];
    IntWidths(m.id, 0);
    assert rest == Signed(m.id, 8) + OutcomeBytes(m.outcome);
    assert rest[8] == OutcomeBytes(m.outcome)[0];
    assert rest[9..] == m.outcome.error;
  }

  /** And the cut can fall inside one: an error of 65535 ASCII bytes and one
      accented letter is sent, and the supervisor cannot read it. */
  lemma TruncationCanBreakAReport(id: I64, rest: Bytes, valid: Schema)
    ensures var error := seq(65535, _ => 0x61 as Byte) + [0xC3, 0xA9];
            IsUtf8(error) && NextFrame(EncodeFailure(id, error, true) + rest, valid).Bad?
  {
    var plain: Bytes := seq(65535, _ => 0x61 as Byte);
    var error := plain + [0xC3, 0xA9];
    AsciiPrefix(plain, [0xC3, 0xA9]);
    assert [0xC3, 0xA9][2..] == [];
    assert IsUtf8([0xC3, 0xA9]);
    AsciiPrefix(plain, [0xC3]);
    assert CharLength([0xC3]) == 0;
    assert error[..MaxErrorBytes] == plain + [0xC3];
    FailureArrives(id, error, true, rest, valid);
  }
}
