/** The frames as the protocol documents them, byte by byte: numbers by their place
    values, text as encoded code points, kinds and outcomes by their codes. The codecs
    are measured against this layout. */
module Layout {
  import opened Prelude
  import opened ByteCoding
  import opened Utf8
  import opened Wire
  import PythonWire

  // ---- numbers -------------------------------------------------------------

  function Word16(s: Bytes, at: nat): int
    requires at + 2 <= |s|
  {
    s[at] as int + 0x100 * s[at + 1] as int
  }

  function Word32(s: Bytes, at: nat): int
    requires at + 4 <= |s|
  {
    Word16(s, at) + 0x1_0000 * Word16(s, at + 2)
  }

  function Word64(s: Bytes, at: nat): int
    requires at + 8 <= |s|
  {
    Word32(s, at) + 0x1_0000_0000 * Word32(s, at + 4)
  }

  function Int16(s: Bytes, at: nat): I16
    requires at + 2 <= |s|
  {
    var word := Word16(s, at);
    if word >= 0x8000 then word - 0x1_0000 else word
  }

  function Int64(s: Bytes, at: nat): I64
    requires at + 8 <= |s|
  {
    var word := Word64(s, at);
    if word >= 0x8000_0000_0000_0000 then word - 0x1_0000_0000_0000_0000 else word
  }

  lemma {:induction false} FromLeOfBoth(a: Bytes, b: Bytes)
    ensures FromLe(a + b) == FromLe(a) + Pow256(|a|) * FromLe(b)
    decreases |a|
  {
    if a == [] {
      assert a + b == b;
    } else {
      FromLeOfBoth(a[1..], b);
      assert (a + b)[1..] == a[1..] + b;
      OneUp(Pow256(|a[1..]|), FromLe(b));
    }
  }

  lemma OneUp(p: nat, n: nat)
    ensures (256 * p) * n == 256 * (p * n)
  {}

  lemma ReadsWord16(s: Bytes, at: nat)
    requires at + 2 <= |s|
    ensures FromLe(s[at..at + 2]) == Word16(s, at)
  {
    var part := s[at..at + 2];
    assert part[1..][1..] == [];
    assert FromLe(part[1..]) == part[1] as int;
  }

  lemma ReadsWord32(s: Bytes, at: nat)
    requires at + 4 <= |s|
    ensures FromLe(s[at..at + 4]) == Word32(s, at)
  {
    ReadsWord16(s, at);
    ReadsWord16(s, at + 2);
    Widths();
    FromLeOfBoth(s[at..at + 2], s[at + 2..at + 4]);
    assert s[at..at + 4] == s[at..at + 2] + s[at + 2..at + 4];
  }

  lemma ReadsWord64(s: Bytes, at: nat)
    requires at + 8 <= |s|
    ensures FromLe(s[at..at + 8]) == Word64(s, at)
  {
    ReadsWord32(s, at);
    ReadsWord32(s, at + 4);
    Widths();
    FromLeOfBoth(s[at..at + 4], s[at + 4..at + 8]);
    assert s[at..at + 8] == s[at..at + 4] + s[at + 4..at + 8];
  }

  lemma ReadsInts(s: Bytes, at: nat)
    requires at + 2 <= |s|
    ensures FromSigned(s[at..at + 2]) == Int16(s, at)
    ensures at + 8 <= |s| ==> FromSigned(s[at..at + 8]) == Int64(s, at)
  {
    Widths();
    ReadsWord16(s, at);
    if at + 8 <= |s| {
      ReadsWord64(s, at);
    }
  }

  // ---- bodies --------------------------------------------------------------

  /** The body says the message. */
  ghost predicate Spells(body: Bytes, m: Message, valid: Schema) {
    match m
    case Dispatch(id, attempt, maxAttempts, task, payload) =>
      && |body| >= 15 && body[0] == 0x00
      && Int64(body, 1) == id && Int16(body, 9) == attempt && Int16(body, 11) == maxAttempts
      && Word16(body, 13) == |task| && IsText(task) && body[15..] == task + payload
    case Complete(id, Success(result)) =>
      && |body| >= 10 && body[0] == 0x01
      && Int64(body, 1) == id && body[9] == 0x00 && body[10..] == result
    case Complete(id, Failure(error, retry)) =>
      && |body| >= 10 && body[0] == 0x01
      && Int64(body, 1) == id && body[9] == (if retry then 0x01 else 0x02) && IsText(error) && body[10..] == error
    case Packed(kind, packed) =>
      && |body| >= 1 && body[1..] == packed && valid(kind, packed)
      && body[0] == match kind
                    case Register => 0x02
                    case Steps => 0x03
                    case Record => 0x04
                    case Stored => 0x05
  }

  lemma RestOf(body: Bytes, lo: nat, hi: nat)
    requires 1 <= |body| && lo <= hi < |body|
    ensures body[1..][lo..hi] == body[lo + 1..hi + 1]
  {}

  /** A dispatch by the offsets of its parts. */
  lemma DispatchByOffsets(body: Bytes, valid: Schema)
    requires |body| >= 15 && body[0] == 0x00
    ensures var name := 15 + Word16(body, 13);
            DecodeBody(body, valid) ==
            if |body| < name then Err(Truncated)
            else if !IsText(body[15..name]) then Err(NotUtf8)
            else Ok(Dispatch(Int64(body, 1), Int16(body, 9), Int16(body, 11), body[15..name], body[name..]))
  {
    var rest := body[1..];
    RestOf(body, 0, 8);
    RestOf(body, 8, 10);
    RestOf(body, 10, 12);
    RestOf(body, 12, 14);
    ReadsInts(body, 1);
    ReadsInts(body, 9);
    ReadsInts(body, 11);
    ReadsWord16(body, 13);
    NameOf(body, Word16(body, 13));
  }

  lemma NameOf(body: Bytes, n: nat)
    requires |body| >= 15
    ensures body[1..][14..] == body[15..]
    ensures 15 + n <= |body| ==> body[15..][..n] == body[15..15 + n] && body[15..][n..] == body[15 + n..]
                                 && (IsUtf8(body[15..15 + n]) <==> IsText(body[15..15 + n]))
  {
    if 15 + n <= |body| {
      TextExactlyWhen(body[15..15 + n]);
    }
  }

  lemma DispatchExactly(body: Bytes, m: Message, valid: Schema)
    requires |body| >= 15 && body[0] == 0x00
    ensures DecodeBody(body, valid) == Ok(m) <==> Spells(body, m, valid)
  {
    DispatchByOffsets(body, valid);
    if m.Dispatch? {
      Parted(body[15..], Word16(body, 13), m.task, m.payload);
      NameOf(body, Word16(body, 13));
    }
  }

  lemma Parted(s: Bytes, n: nat, task: Bytes, payload: Bytes)
    ensures n == |task| && s == task + payload <==> n <= |s| && s[..n] == task && s[n..] == payload
  {
    if n <= |s| {
      assert s == s[..n] + s[n..];
    }
  }

  /** A completion by the offsets of its parts. */
  lemma CompleteByOffsets(body: Bytes, valid: Schema)
    requires |body| >= 10 && body[0] == 0x01
    ensures DecodeBody(body, valid) ==
            if body[9] == 0x00 then Ok(Complete(Int64(body, 1), Success(body[10..])))
            else if body[9] > 0x02 then Err(UnknownOutcome(body[9]))
            else if !IsText(body[10..]) then Err(NotUtf8)
            else Ok(Complete(Int64(body, 1), Failure(body[10..], body[9] == 0x01)))
  {
    RestOf(body, 0, 8);
    ReadsInts(body, 1);
    assert body[1..][9..] == body[10..];
    TextExactlyWhen(body[10..]);
  }

  lemma CompleteExactly(body: Bytes, m: Message, valid: Schema)
    requires |body| >= 10 && body[0] == 0x01
    ensures DecodeBody(body, valid) == Ok(m) <==> Spells(body, m, valid)
  {
    CompleteByOffsets(body, valid);
  }

  /** Decoding is right and total: a body is read as a message exactly if it spells
      that message. */
  lemma DecodesExactly(body: Bytes, m: Message, valid: Schema)
    ensures DecodeBody(body, valid) == Ok(m) <==> Spells(body, m, valid)
  {
    if |body| >= 15 && body[0] == 0x00 {
      DispatchExactly(body, m, valid);
    } else if |body| >= 10 && body[0] == 0x01 {
      CompleteExactly(body, m, valid);
    }
  }

  /** Encoding is right: what the encoder writes spells its message, behind its
      length. */
  lemma EncodesExactly(m: Message, valid: Schema)
    requires WellFormed(m, valid) && Accepted(m)
    ensures |Frame(m)| >= 4 && Word32(Frame(m), 0) == |Frame(m)| - 4 && Spells(Frame(m)[4..], m, valid)
  {
    BodyRoundTrip(m, valid);
    DecodesExactly(Body(m), m, valid);
    Widths();
    FromLeOfLe(BodyLength(m), 4);
    assert Frame(m)[..4] == Frame(m)[0..4] == Le(BodyLength(m), 4) && Frame(m)[4..] == Body(m);
    ReadsWord32(Frame(m), 0);
  }

  /** How many bytes the body of a message takes. */
  function Size(m: Message): nat {
    match m
    case Dispatch(_, _, _, task, payload) => 1 + 8 + 2 + 2 + 2 + |task| + |payload|
    case Complete(_, Success(result)) => 1 + 8 + 1 + |result|
    case Complete(_, Failure(error, _)) => 1 + 8 + 1 + |error|
    case Packed(_, packed) => 1 + |packed|
  }

  /** The encoder refuses a name whose length has no two bytes, then a body beyond the
      limit, and nothing else. */
  lemma RejectsExactly(m: Message)
    ensures forall n :: Rejection(m) == Some(TaskNameTooLong(n)) <==> m.Dispatch? && n == |m.task| >= 0x1_0000
    ensures forall n :: Rejection(m) == Some(FrameTooLarge(n)) <==>
                          !(m.Dispatch? && |m.task| >= 0x1_0000) && n == Size(m) > 16777216
    ensures Rejection(m).None? <==> !(m.Dispatch? && |m.task| >= 0x1_0000) && Size(m) <= 16777216
  {}

  predicate TooShort(body: Bytes) {
    || body == []
    || (body[0] == 0x00 && (|body| < 15 || |body| < 15 + Word16(body, 13)))
    || (body[0] == 0x01 && |body| < 10)
  }

  /** Which text a body carries, if it is long enough to carry one. */
  function TextOf(body: Bytes): Bytes
    requires !TooShort(body)
  {
    if body[0] == 0x00 then body[15..15 + Word16(body, 13)]
    else if body[0] == 0x01 && body[9] in {0x01, 0x02} then body[10..]
    else []
  }

  /** And a body that spells nothing is refused for the first thing wrong with it. */
  lemma RefusesExactly(body: Bytes, valid: Schema)
    ensures DecodeBody(body, valid) == Err(Truncated) <==> TooShort(body)
    ensures forall code :: DecodeBody(body, valid) == Err(UnknownKind(code)) <==> body != [] && body[0] == code > 0x05
    ensures forall code :: DecodeBody(body, valid) == Err(UnknownOutcome(code)) <==>
                             |body| >= 10 && body[0] == 0x01 && body[9] == code > 0x02
    ensures DecodeBody(body, valid) == Err(NotUtf8) <==> !TooShort(body) && !IsText(TextOf(body))
    ensures DecodeBody(body, valid) == Err(Malformed) <==>
            body != [] && 0x02 <= body[0] <= 0x05
            && !valid([Register, Steps, Record, Stored][body[0] as int - 2], body[1..])
  {
    assert [] == EncodeAll([]);
    if |body| >= 15 && body[0] == 0x00 {
      DispatchByOffsets(body, valid);
    } else if |body| >= 10 && body[0] == 0x01 {
      CompleteByOffsets(body, valid);
    }
  }

  lemma HeaderTells(s: Bytes, valid: Schema)
    ensures NextFrame(s, valid) ==
            if |s| < 4 then NeedMore
            else if Word32(s, 0) > 16777216 then Bad(FrameTooLarge(Word32(s, 0)))
            else if |s| < 4 + Word32(s, 0) then NeedMore
            else match DecodeBody(s[4..4 + Word32(s, 0)], valid)
                 case Err(error) => Bad(error)
                 case Ok(message) => Got(message, 4 + Word32(s, 0))
  {
    if |s| >= 4 {
      ReadsWord32(s, 0);
      assert s[..4] == s[0..4];
    }
  }

  /** The front of a stream holds a message exactly if its length is there, in
      bounds, followed by as many bytes, and those spell it. More is waited for
      exactly while some of that is missing and the length is in bounds. */
  lemma FrontExactly(s: Bytes, m: Message, used: nat, valid: Schema)
    ensures NextFrame(s, valid) == Got(m, used) <==>
            && |s| >= 4 && Word32(s, 0) <= 16777216 && used == 4 + Word32(s, 0) <= |s|
            && Spells(s[4..used], m, valid)
    ensures NextFrame(s, valid).NeedMore? <==> |s| < 4 || (Word32(s, 0) <= 16777216 && |s| < 4 + Word32(s, 0))
    ensures forall size :: NextFrame(s, valid) == Bad(FrameTooLarge(size)) <==>
                             |s| >= 4 && size == Word32(s, 0) > 16777216
  {
    HeaderTells(s, valid);
    if |s| >= 4 && 4 + Word32(s, 0) <= |s| {
      DecodesExactly(s[4..4 + Word32(s, 0)], m, valid);
    }
  }

  /** The report of a failure with any text at all arrives if it is short, and if it
      is long exactly when the cut falls between two of its characters. */
  lemma TextArrives(id: I64, text: seq<Scalar>, retry: bool, rest: Bytes, valid: Schema)
    ensures var error := EncodeAll(text);
            NextFrame(PythonWire.EncodeFailure(id, error, retry) + rest, valid).Got? <==>
            || |error| <= 65536
            || exists k :: 0 <= k <= |text| && error[..65536] == EncodeAll(text[..k])
  {
    var error := EncodeAll(text);
    EncodedIsUtf8(text);
    PythonWire.FailureArrives(id, error, retry, rest, valid);
    if |error| > 65536 {
      CutIsText(text, 65536);
    }
  }
}
