/** The Rust end of the wire as it is implemented: the encoder that batches frames
    into one buffer, and the decoder with its read cursor and compaction. Each is
    proved against the pure parser. */
module Codec {
  import opened Prelude
  import opened ByteCoding
  import opened Wire

  const CompactThreshold := 0x1_0000

  // ---- encoding into a shared buffer ---------------------------------------

  class Batch {
    var out: Bytes

    constructor ()
      ensures out == []
    {
      out := [];
    }

    /** Appends one frame piece by piece. On failure whatever was appended so
        far is still there. */
    method EncodeFrame(m: Message) returns (error: Option<ProtocolError>)
      modifies this
      ensures error == Rejection(m)
      ensures error.None? ==> out == old(out) + Frame(m)
      ensures error.Some? ==> old(out) <= out
    {
      error := None;
      if m.Dispatch? && |m.task| > MaxTaskBytes {
        return Some(TaskNameTooLong(|m.task|));
      }
      var size := BodyLength(m);
      if size > MaxFrameBytes {
        return Some(FrameTooLarge(size));
      }
      var body := Body(m);
      out := out + Le(size, HeaderBytes);
      out := out + body;
      Associates(old(out), Le(size, HeaderBytes), body);
    }

    /** A rejected message leaves the buffer byte for byte as it was. */
    method Encode(m: Message) returns (error: Option<ProtocolError>)
      modifies this
      ensures error == Rejection(m)
      ensures out == if Accepted(m) then old(out) + Frame(m) else old(out)
    {
      var start := |out|;
      error := EncodeFrame(m);
      if error.Some? {
        out := out[..start];
      }
    }

    /** Encoding many messages keeps exactly the frames of the accepted ones. */
    method EncodeAll(ms: seq<Message>)
      modifies this
      ensures out == old(out) + Frames(AcceptedOf(ms))
    {
      ghost var start := out;
      for i := 0 to |ms|
        invariant out == start + Frames(AcceptedOf(ms[..i]))
      {
        assert ms[..i + 1] == ms[..i] + [ms[i]];
        AcceptedSnoc(ms[..i], ms[i]);
        FramesSnoc(AcceptedOf(ms[..i]), ms[i]);
        Associates(start, Frames(AcceptedOf(ms[..i])), Frame(ms[i]));
        var error := Encode(ms[i]);
        assert AcceptedOf(ms[..i]) + [] == AcceptedOf(ms[..i]);
      }
      assert ms[..|ms|] == ms;
    }
  }

  // ---- the Rust decoder ----------------------------------------------------

  class Decoder {
    var buf: Bytes
    var pos: nat
    const valid: Schema

    /** Everything fed in so far, and every message handed out. */
    ghost var received: Bytes
    ghost var emitted: seq<Message>

    /** The cursor stands right after the frames of the emitted messages, and
        the buffer still holds everything behind it. Bytes before the cursor are
        kept only until they reach the compaction threshold. */
    ghost predicate Valid()
      reads this
    {
      && pos <= |buf| && pos < CompactThreshold
      && received == Frames(emitted) + buf[pos..]
      && forall i :: 0 <= i < |emitted| ==> WellFormed(emitted[i], valid) && Accepted(emitted[i])
    }

    constructor (valid: Schema)
      ensures Valid() && received == [] && emitted == [] && this.valid == valid
    {
      buf, pos, received, emitted := [], 0, [], [];
      this.valid := valid;
    }

    method Extend(chunk: Bytes)
      requires Valid()
      modifies this
      ensures Valid() && received == old(received) + chunk && emitted == old(emitted)
      ensures buf[pos..] == old(buf[pos..]) + chunk
    {
      Associates(Frames(emitted), buf[pos..], chunk);
      assert (buf + chunk)[pos..] == buf[pos..] + chunk;
      buf := buf + chunk;
      received := received + chunk;
    }

    /** What follows the cursor, which stays where it is. */
    method Look() returns (next: Parsed)
      requires pos <= |buf|
      ensures next == NextFrame(buf[pos..], valid)
    {
      ghost var front := buf[pos..];
      if |buf| - pos < HeaderBytes {
        return NeedMore;
      }
      assert buf[pos..pos + HeaderBytes] == front[..HeaderBytes];
      var size := FromLe(buf[pos..pos + HeaderBytes]);
      if size > MaxFrameBytes {
        return Bad(FrameTooLarge(size));
      }
      if |buf| - pos - HeaderBytes < size {
        return NeedMore;
      }
      var start := pos + HeaderBytes;
      assert buf[start..start + size] == front[HeaderBytes..HeaderBytes + size];
      var decoded := DecodeBody(buf[start..start + size], valid);
      next := if decoded.Err? then Bad(decoded.error) else Got(decoded.value, HeaderBytes + size);
    }

    /** One message, nothing yet, or an error, according to what follows the
        cursor. */
    method NextMessage() returns (next: Parsed)
      requires Valid()
      modifies this
      ensures Valid() && received == old(received)
      ensures next == NextFrame(old(buf[pos..]), valid)
      ensures next.Got? ==> emitted == old(emitted) + [next.message] && buf[pos..] == old(buf[pos..])[next.used..]
      ensures !next.Got? ==> emitted == old(emitted) && buf == old(buf) && pos == old(pos)
    {
      next := Look();
      if next.Got? {
        Emitted(emitted, buf[pos..], valid);
        AllAccepted(emitted, next.message, valid);
        emitted := emitted + [next.message];
        Skip(next.used);
      }
    }

    /** Moves the cursor, dropping what is behind it once that is worth a copy. */
    method Skip(used: nat)
      requires pos + used <= |buf|
      modifies `buf, `pos
      ensures pos <= |buf| && pos < CompactThreshold && buf[pos..] == old(buf[pos..])[used..]
    {
      assert buf[pos + used..] == buf[pos..][used..];
      pos := pos + used;
      if pos >= CompactThreshold {
        buf := buf[pos..];
        pos := 0;
      }
    }

    /** Whatever the chunks were and however the calls were interleaved: the
        messages handed out so far begin the parse of everything received, and
        what is left to come is the parse of what is behind the cursor. */
    lemma RefinesParser()
      requires Valid()
      ensures ParseAll(received, valid) == Prepend(emitted, ParseAll(buf[pos..], valid))
    {
      FramesParseTo(emitted, buf[pos..], ParseAll(buf[pos..], valid), valid);
    }

    /** So a decoder that asks for more has handed out every message of the
        stream, and one that fails has failed where the stream does. */
    lemma StopsWhereTheStreamDoes(next: Parsed)
      requires Valid() && next == NextFrame(buf[pos..], valid) && !next.Got?
      ensures var whole := ParseAll(received, valid);
              && emitted == whole.messages
              && whole.ending == if next.Bad? then Failed(next.error, buf[pos..]) else Partial(buf[pos..])
    {
      RefinesParser();
      assert emitted + [] == emitted;
    }
  }

  lemma AllAccepted(emitted: seq<Message>, m: Message, valid: Schema)
    requires WellFormed(m, valid) && Accepted(m)
    requires forall i :: 0 <= i < |emitted| ==> WellFormed(emitted[i], valid) && Accepted(emitted[i])
    ensures forall i :: 0 <= i < |emitted + [m]| ==>
              WellFormed((emitted + [m])[i], valid) && Accepted((emitted + [m])[i])
  {}

  lemma Emitted(emitted: seq<Message>, front: Bytes, valid: Schema)
    requires NextFrame(front, valid).Got?
    ensures var p := NextFrame(front, valid);
            && Frames(emitted) + front == Frames(emitted + [p.message]) + front[p.used..]
            && WellFormed(p.message, valid) && Accepted(p.message)
  {
    var p := NextFrame(front, valid);
    FrameCanonical(front, valid);
    FramesSnoc(emitted, p.message);
    SplitAt(front, p.used);
    Associates(Frames(emitted), front[..p.used], front[p.used..]);
  }

  lemma SplitAt(s: Bytes, n: nat)
    requires n <= |s|
    ensures s == s[..n] + s[n..]
  {}

  /** One more chunk: drained unless an error was already met, which stays. */
  method Feed(decoder: Decoder, chunk: Bytes, before: seq<Message>, stuck: Option<ProtocolError>)
      returns (messages: seq<Message>, error: Option<ProtocolError>)
    requires decoder.Valid() && before == decoder.emitted
    requires stuck == ErrorAt(decoder.buf[decoder.pos..], decoder.valid)
    requires !NextFrame(decoder.buf[decoder.pos..], decoder.valid).Got?
    modifies decoder
    ensures decoder.Valid() && decoder.received == old(decoder.received) + chunk && messages == decoder.emitted
    ensures error == ErrorAt(decoder.buf[decoder.pos..], decoder.valid)
    ensures !NextFrame(decoder.buf[decoder.pos..], decoder.valid).Got?
  {
    messages, error := before, stuck;
    if stuck.Some? {
      FrameStable(decoder.buf[decoder.pos..], chunk, decoder.valid);
      decoder.Extend(chunk);
    } else {
      decoder.Extend(chunk);
      ghost var last: Parsed;
      messages, error, last := Drain(decoder, messages);
    }
  }

  function ErrorAt(front: Bytes, valid: Schema): Option<ProtocolError> {
    if NextFrame(front, valid).Bad? then Some(NextFrame(front, valid).error) else None
  }

  /** Feed the chunks in any sizes, draining after each: the outcome is that of
      the whole stream. */
  method DecodeChunks(chunks: seq<Bytes>, valid: Schema) returns (messages: seq<Message>, error: Option<ProtocolError>)
    ensures var whole := ParseAll(Concat(chunks), valid);
            && messages == whole.messages
            && error == if whole.ending.Failed? then Some(whole.ending.error) else None
  {
    var decoder := new Decoder(valid);
    messages, error := [], None;
    for i := 0 to |chunks|
      invariant fresh(decoder) && decoder.Valid() && decoder.valid == valid
      invariant decoder.received == Concat(chunks[..i]) && messages == decoder.emitted
      invariant error == ErrorAt(decoder.buf[decoder.pos..], valid)
      invariant !NextFrame(decoder.buf[decoder.pos..], valid).Got?
    {
      ConcatSnoc(chunks, i);
      messages, error := Feed(decoder, chunks[i], messages, error);
    }
    assert chunks[..|chunks|] == chunks;
    decoder.StopsWhereTheStreamDoes(NextFrame(decoder.buf[decoder.pos..], valid));
  }

  method Drain(decoder: Decoder, before: seq<Message>)
      returns (messages: seq<Message>, error: Option<ProtocolError>, ghost last: Parsed)
    requires decoder.Valid() && before == decoder.emitted
    modifies decoder
    ensures decoder.Valid() && decoder.received == old(decoder.received) && messages == decoder.emitted
    ensures last == NextFrame(decoder.buf[decoder.pos..], decoder.valid) && !last.Got?
    ensures error == if last.Bad? then Some(last.error) else None
  {
    messages := before;
    while true
      invariant decoder.Valid() && decoder.received == old(decoder.received) && messages == decoder.emitted
      decreases |decoder.buf| - decoder.pos
    {
      ghost var front := decoder.buf[decoder.pos..];
      var next := decoder.NextMessage();
      last := next;
      if next.NeedMore? {
        error := None;
        return;
      } else if next.Bad? {
        error := Some(next.error);
        return;
      }
      messages := messages + [next.message];
      assert |decoder.buf[decoder.pos..]| == |front| - next.used;
    }
  }

  function Concat(chunks: seq<Bytes>): Bytes {
    if chunks == [] then [] else Concat(chunks[..|chunks| - 1]) + chunks[|chunks| - 1]
  }

  lemma ConcatSnoc(chunks: seq<Bytes>, i: nat)
    requires i < |chunks|
    ensures Concat(chunks[..i + 1]) == Concat(chunks[..i]) + chunks[i]
  {
    assert chunks[..i + 1][..i] == chunks[..i];
  }
}
