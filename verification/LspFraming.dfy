/** Frames over a byte stream that arrives in pieces. */
module LspFraming {
  import opened Basics
  import opened LspHeaders

  /** What parsing a body as JSON gives. */
  datatype Parsed<+M> = Object(message: M) | OtherValue | Malformed

  /** JSON.parse after decoding, and JSON.stringify before encoding. */
  datatype Json<!M> = Json(parse: Bytes -> Parsed<M>, stringify: M -> Bytes)

  function Encode<M>(json: Json<M>, message: M): Bytes {
    var body := json.stringify(message);
    WrittenHeader(|body|) + HEADER_END + body
  }

  function EncodeAll<M>(json: Json<M>, messages: seq<M>): Bytes {
    if messages == [] then [] else Encode(json, messages[0]) + EncodeAll(json, messages[1..])
  }

  datatype Next<+M> = Incomplete | Invalid(error: FrameError) | Frame(message: M, size: nat)

  /** The frame a buffer starts with. */
  function NextFrame<M>(json: Json<M>, b: Bytes): (r: Next<M>)
    ensures r.Frame? ==> 0 < r.size <= |b|
  {
    match HeaderEnd(b, 0)
    case None => Incomplete
    case Some(e) =>
      match DeclaredLength(b[..e])
      case Refused(error) => Invalid(error)
      case Bytes(n) =>
        if |b| < e + 4 + n then Incomplete
        else match json.parse(b[e + 4..e + 4 + n])
          case Malformed => Invalid(NotJson)
          case OtherValue => Invalid(NotAnObject)
          case Object(message) => Frame(message, e + 4 + n)
  }

  /** The messages decoded so far, what stays in the buffer, and the error that stopped the decoder for good. */
  datatype Decoded<+M> = Decoded(messages: seq<M>, rest: Bytes, error: Option<FrameError>)

  /** What the decoder makes of a stream that arrives all at once. */
  function Decode<M>(json: Json<M>, b: Bytes): Decoded<M>
    decreases |b|
  {
    match NextFrame(json, b)
    case Incomplete => Decoded([], b, None)
    case Invalid(error) => Decoded([], b, Some(error))
    case Frame(message, size) =>
      var d := Decode(json, b[size..]);
      d.(messages := [message] + d.messages)
  }

  // ---------- bytes that come later change nothing that was decided ----------

  lemma DecidedFrameStays<M>(json: Json<M>, x: Bytes, y: Bytes)
    requires !NextFrame(json, x).Incomplete?
    ensures NextFrame(json, x + y) == NextFrame(json, x)
  {
    hide DeclaredLength, HeaderEnd;
    HeaderEndStays(x, y);
    var e := HeaderEnd(x, 0).value;
    assert (x + y)[..e] == x[..e];
    if DeclaredLength(x[..e]).Bytes? {
      var n := DeclaredLength(x[..e]).count;
      assert (x + y)[e + 4..e + 4 + n] == x[e + 4..e + 4 + n];
    }
  }

  /** What a decoder that stopped at `first` makes of more bytes. */
  function Continued<M>(json: Json<M>, first: Decoded<M>, y: Bytes): Decoded<M> {
    if first.error.Some? then first.(rest := first.rest + y)
    else
      var second := Decode(json, first.rest + y);
      second.(messages := first.messages + second.messages)
  }

  /** Decoding in two steps is decoding at once, errors included. */
  lemma {:induction false} DecodeSplits<M>(json: Json<M>, x: Bytes, y: Bytes)
    ensures Decode(json, x + y) == Continued(json, Decode(json, x), y)
    decreases |x|
  {
    hide NextFrame, Decode;
    DecodeOne(json, x);
    match NextFrame(json, x)
    case Incomplete =>
      assert [] + Decode(json, x + y).messages == Decode(json, x + y).messages;
    case Invalid(error) =>
      DecidedFrameStays(json, x, y);
      DecodeOne(json, x + y);
    case Frame(message, size) =>
      DecidedFrameStays(json, x, y);
      DecodeOne(json, x + y);
      assert (x + y)[size..] == x[size..] + y;
      DecodeSplits(json, x[size..], y);
      ContinuedWithMore(json, [message], Decode(json, x[size..]), y);
  }

  lemma DecodeOne<M>(json: Json<M>, b: Bytes)
    ensures NextFrame(json, b).Incomplete? ==> Decode(json, b) == Decoded([], b, None)
    ensures NextFrame(json, b).Invalid? ==> Decode(json, b) == Decoded([], b, Some(NextFrame(json, b).error))
    ensures NextFrame(json, b).Frame? ==>
      var next := NextFrame(json, b);
      0 < next.size <= |b| && Decode(json, b) == WithMore([next.message], Decode(json, b[next.size..]))
  {
  }

  function WithMore<M>(front: seq<M>, d: Decoded<M>): Decoded<M> {
    d.(messages := front + d.messages)
  }

  lemma ContinuedWithMore<M>(json: Json<M>, front: seq<M>, d: Decoded<M>, y: Bytes)
    ensures Continued(json, WithMore(front, d), y) == WithMore(front, Continued(json, d, y))
  {
    hide Decode;
    if d.error.None? {
      var second := Decode(json, d.rest + y);
      assert front + (d.messages + second.messages) == front + d.messages + second.messages;
    }
  }

  lemma FrameIsWithin<M>(json: Json<M>, b: Bytes)
    requires NextFrame(json, b).Frame?
    ensures 0 < NextFrame(json, b).size <= |b|
  {
  }

  /** What the decoder leaves in its buffer gives nothing more by itself, and a broken frame stays broken. */
  lemma {:induction false} RestIsStuck<M>(json: Json<M>, b: Bytes)
    ensures var d := Decode(json, b); Decode(json, d.rest) == d.(messages := [])
    decreases |b|
  {
    hide NextFrame;
    if NextFrame(json, b).Frame? {
      FrameIsWithin(json, b);
      RestIsStuck(json, b[NextFrame(json, b).size..]);
    }
  }

  // ---------- any number of pieces ----------

  function Concat(pieces: seq<Bytes>): Bytes {
    if pieces == [] then [] else Concat(pieces[..|pieces| - 1]) + pieces[|pieces| - 1]
  }

  /** The decoder pushed piece after piece; a push that throws delivers nothing. */
  function Pushed<M>(json: Json<M>, pieces: seq<Bytes>): Decoded<M> {
    if pieces == [] then Decoded([], [], None)
    else
      var before := Pushed(json, pieces[..|pieces| - 1]);
      PushOne(json, before, pieces[|pieces| - 1])
  }

  function PushOne<M>(json: Json<M>, before: Decoded<M>, piece: Bytes): Decoded<M> {
    var d := Decode(json, before.rest + piece);
    Decoded(if d.error.None? then before.messages + d.messages else before.messages, d.rest, d.error)
  }

  /**
   * However a stream is cut, the buffer and the error are those of the whole stream.  Without an error so are the
   * messages; with one, the messages of the push that threw are lost.
   */
  lemma {:induction false} CuttingDoesNotMatter<M>(json: Json<M>, pieces: seq<Bytes>)
    ensures var whole, d := Decode(json, Concat(pieces)), Pushed(json, pieces);
      && d.rest == whole.rest && d.error == whole.error
      && (whole.error.None? ==> d.messages == whole.messages)
      && d.messages <= whole.messages
  {
    hide NextFrame;
    if pieces == [] {
      assert Concat(pieces) == [];
      NothingDecodesToNothing(json);
    } else {
      var front, last := pieces[..|pieces| - 1], pieces[|pieces| - 1];
      CuttingDoesNotMatter(json, front);
      DecodeSplits(json, Concat(front), last);
      assert Concat(pieces) == Concat(front) + last;
      var whole := Decode(json, Concat(front));
      if whole.error.Some? {
        RestIsStuck(json, Concat(front));
        DecodeSplits(json, whole.rest, last);
      }
    }
  }

  /** Which cuts of a stream deliver all its messages: all of them, exactly when no broken frame follows a good one. */
  lemma EveryCutDeliversAll<M>(json: Json<M>, b: Bytes)
    ensures (forall pieces | Concat(pieces) == b :: Pushed(json, pieces).messages == Decode(json, b).messages) <==>
              Decode(json, b).error.None? || Decode(json, b).messages == []
  {
    hide NextFrame, Decode;
    forall pieces | Concat(pieces) == b && (Decode(json, b).error.None? || Decode(json, b).messages == [])
      ensures Pushed(json, pieces).messages == Decode(json, b).messages
    {
      CuttingDoesNotMatter(json, pieces);
    }
    PushedWhole(json, b);
  }

  /** Pushed in one piece, a stream with a broken frame delivers nothing. */
  lemma PushedWhole<M>(json: Json<M>, b: Bytes)
    ensures Concat([b]) == b
    ensures var d := Decode(json, b);
            Pushed(json, [b]) == if d.error.None? then d else d.(messages := [])
  {
    hide NextFrame, Decode;
    var none: seq<Bytes> := [b][..0];
    assert none == [] && [b][0] == b && [] + b == b;
    assert Concat([b]) == Concat(none) + b;
    assert Pushed(json, [b]) == PushOne(json, Pushed(json, none), b);
    assert [] + Decode(json, b).messages == Decode(json, b).messages;
  }

  /**
   * A good frame in front of a broken one: cut between the two the message is delivered, in one piece it is lost.  So
   * the error the decoder reports is the same and what it has delivered is not.
   */
  lemma CutDecidesDelivery<M>(json: Json<M>, message: M, broken: Bytes)
    requires Sendable(json, message)
    requires NextFrame(json, broken).Invalid?
    ensures var frame, error := Encode(json, message), Some(NextFrame(json, broken).error);
            && Pushed(json, [frame, broken]) == Decoded([message], broken, error)
            && Pushed(json, [frame + broken]) == Decoded([], broken, error)
  {
    hide NextFrame, Decode, Encode;
    var frame := Encode(json, message);
    EncodedFrame(json, message, broken);
    EncodedFrame(json, message, []);
    assert frame + [] == frame && frame[|frame|..] == [] && (frame + broken)[|frame|..] == broken;
    DecodeOne(json, frame);
    DecodeOne(json, frame + broken);
    DecodeOne(json, broken);
    NothingDecodesToNothing(json);
    PushedWhole(json, frame);
    PushedWhole(json, frame + broken);
    assert [frame, broken][..1] == [frame] && [] + broken == broken && [message] + [] == [message];
    assert Pushed(json, [frame, broken]) == PushOne(json, Pushed(json, [frame]), broken);
  }

  /** Such a stream exists: an empty line where the header should name a length. */
  lemma BrokenFrame<M>(json: Json<M>)
    ensures NextFrame(json, HEADER_END).Invalid?
  {
    assert EndsAt(HEADER_END, 0);
  }

  lemma NothingDecodesToNothing<M>(json: Json<M>)
    ensures Decode(json, []) == Decoded([], [], None)
  {
    assert HeaderEnd([], 0) == None;
  }

  // ---------- what the decoder's answers mean ----------

  /** The bytes up to the first empty line declare how many follow it, and those are an object. */
  ghost predicate IsFrame<M>(json: Json<M>, frame: Bytes, message: M) {
    exists e: nat | IsHeaderEnd(frame, Some(e)) ::
      && e + 4 <= |frame| && DeclaredLength(frame[..e]) == Length.Bytes(|frame| - e - 4)
      && json.parse(frame[e + 4..]) == Object(message)
  }

  /** The stream is one frame after the other, with the rest behind them. */
  ghost predicate IsFramed<M>(json: Json<M>, stream: Bytes, frames: seq<Bytes>, messages: seq<M>, rest: Bytes) {
    && |frames| == |messages| && stream == Joined(frames) + rest
    && forall i | 0 <= i < |frames| :: IsFrame(json, frames[i], messages[i])
  }

  function Joined(frames: seq<Bytes>): Bytes {
    if frames == [] then [] else frames[0] + Joined(frames[1..])
  }

  /** No frame is complete: the header is, or the declared body. */
  ghost predicate IsUnfinished(b: Bytes) {
    IsHeaderEnd(b, None) ||
    exists e: nat, n: nat | IsHeaderEnd(b, Some(e)) ::
      e <= |b| && DeclaredLength(b[..e]) == Length.Bytes(n) && |b| < e + 4 + n
  }

  /** The first frame has a header that is refused, or is complete and its body is no object. */
  ghost predicate IsBroken<M>(json: Json<M>, b: Bytes, error: FrameError) {
    exists e: nat | IsHeaderEnd(b, Some(e)) ::
      && e + 4 <= |b|
      && match DeclaredLength(b[..e])
         case Refused(reason) => error == reason
         case Bytes(n) =>
           && e + 4 + n <= |b|
           && ((error == NotJson && json.parse(b[e + 4..e + 4 + n]).Malformed?)
               || (error == NotAnObject && json.parse(b[e + 4..e + 4 + n]).OtherValue?))
  }

  /** One step of the decoder, whichever way it goes, says what the buffer starts with. */
  lemma NextFrameMeans<M>(json: Json<M>, b: Bytes)
    ensures var next := NextFrame(json, b);
      match next
      case Incomplete => IsUnfinished(b)
      case Invalid(error) => IsBroken(json, b, error)
      case Frame(message, size) => size <= |b| && IsFrame(json, b[..size], message)
  {
    hide DeclaredLength;
    var next := NextFrame(json, b);
    if HeaderEnd(b, 0).Some? {
      var e := HeaderEnd(b, 0).value;
      assert IsHeaderEnd(b, Some(e));
      if next.Frame? { FrameAlone(json, b, e, next.message, next.size); }
    }
  }

  lemma FrameAlone<M>(json: Json<M>, b: Bytes, e: nat, message: M, size: nat)
    requires IsHeaderEnd(b, Some(e)) && e + 4 <= size <= |b| && DeclaredLength(b[..e]) == Length.Bytes(size - e - 4)
    requires json.parse(b[e + 4..size]) == Object(message)
    ensures IsFrame(json, b[..size], message)
  {
    hide DeclaredLength;
    var frame := b[..size];
    assert frame[..e] == b[..e] && frame[e + 4..] == b[e + 4..size];
    forall i: nat | i <= e ensures EndsAt(frame, i) == EndsAt(b, i) {
      assert frame[i..i + 4] == b[i..i + 4];
    }
    assert IsHeaderEnd(frame, Some(e));
  }

  lemma {:induction false} DecodeIsFraming<M>(json: Json<M>, b: Bytes) returns (frames: seq<Bytes>)
    ensures var d := Decode(json, b);
      && IsFramed(json, b, frames, d.messages, d.rest)
      && match d.error case None => IsUnfinished(d.rest) case Some(error) => IsBroken(json, d.rest, error)
    decreases |b|
  {
    hide NextFrame, IsFrame, IsUnfinished, IsBroken, Decode;
    DecodeOne(json, b);
    NextFrameMeans(json, b);
    match NextFrame(json, b)
    case Incomplete =>
      frames := [];
      assert Joined(frames) + b == b;
    case Invalid(error) =>
      frames := [];
      assert Joined(frames) + b == b;
    case Frame(message, size) =>
      var more := DecodeIsFraming(json, b[size..]);
      frames := [b[..size]] + more;
      assert frames[1..] == more;
      assert b == b[..size] + (Joined(more) + Decode(json, b[size..]).rest);
  }

  /** Whatever way a stream can be read as frames, the decoder reads it that way. */
  lemma {:induction false} FramingIsDecoding<M>(
    json: Json<M>, b: Bytes, frames: seq<Bytes>, messages: seq<M>, rest: Bytes)
    requires IsFramed(json, b, frames, messages, rest)
    ensures IsUnfinished(rest) ==> Decode(json, b) == Decoded(messages, rest, None)
    ensures forall error | IsBroken(json, rest, error) :: Decode(json, b) == Decoded(messages, rest, Some(error))
    decreases |frames|
  {
    hide NextFrame, IsFrame, IsUnfinished, IsBroken, Decode;
    DecodeOne(json, b);
    if frames == [] {
      assert b == rest;
      EndIsDecided(json, b);
    } else {
      var frame, behind := frames[0], Joined(frames[1..]) + rest;
      assert b == frame + behind;
      FrameIsNext(json, frame, messages[0], behind);
      assert b[|frame|..] == behind;
      FramingIsDecoding(json, behind, frames[1..], messages[1..], rest);
      assert [messages[0]] + messages[1..] == messages;
    }
  }

  lemma EndIsDecided<M>(json: Json<M>, b: Bytes)
    ensures IsUnfinished(b) ==> NextFrame(json, b).Incomplete?
    ensures forall error | IsBroken(json, b, error) :: NextFrame(json, b) == Invalid(error)
  {
    hide DeclaredLength;
    forall e: nat | IsHeaderEnd(b, Some(e)) ensures HeaderEnd(b, 0) == Some(e) {
      HeaderEndIsUnique(b, HeaderEnd(b, 0), Some(e));
    }
  }

  lemma FrameIsNext<M>(json: Json<M>, frame: Bytes, message: M, behind: Bytes)
    requires IsFrame(json, frame, message)
    ensures NextFrame(json, frame + behind) == Frame(message, |frame|)
  {
    hide DeclaredLength;
    var e: nat :| IsHeaderEnd(frame, Some(e)) && e + 4 <= |frame|
      && DeclaredLength(frame[..e]) == Length.Bytes(|frame| - e - 4) && json.parse(frame[e + 4..]) == Object(message);
    HeaderEndIsUnique(frame, HeaderEnd(frame, 0), Some(e));
    HeaderEndStays(frame, behind);
    assert (frame + behind)[..e] == frame[..e] && (frame + behind)[e + 4..|frame|] == frame[e + 4..];
  }

  // ---------- round trip ----------

  /** JSON.parse inverts JSON.stringify on this message. */
  ghost predicate Sendable<M>(json: Json<M>, message: M) {
    json.parse(json.stringify(message)) == Object(message) && |json.stringify(message)| <= MAX_SAFE_INTEGER
  }

  lemma EncodedFrame<M>(json: Json<M>, message: M, rest: Bytes)
    requires Sendable(json, message)
    ensures NextFrame(json, Encode(json, message) + rest) == Frame(message, |Encode(json, message)|)
  {
    hide DeclaredLength, EndsAt, HeaderEnd, WrittenHeader;
    var body := json.stringify(message);
    var h := WrittenHeader(|body|);
    var b := Encode(json, message) + rest;
    assert b == h + HEADER_END + (body + rest);
    WrittenHeaderEnds(|body|, body + rest);
    WrittenHeaderDeclares(|body|);
    assert b[..|h|] == h;
    assert b[|h| + 4..|h| + 4 + |body|] == body;
  }

  lemma {:induction false} EncodedStreamDecodes<M>(json: Json<M>, messages: seq<M>)
    requires forall m | m in messages :: Sendable(json, m)
    ensures Decode(json, EncodeAll(json, messages)) == Decoded(messages, [], None)
  {
    hide NextFrame, Encode;
    if messages == [] {
      NothingDecodesToNothing(json);
    } else {
      var frame, rest := Encode(json, messages[0]), EncodeAll(json, messages[1..]);
      EncodedFrame(json, messages[0], rest);
      assert (frame + rest)[|frame|..] == rest;
      EncodedStreamDecodes(json, messages[1..]);
      assert [messages[0]] + messages[1..] == messages;
    }
  }

  /** Encode, cut anywhere, decode: the same messages and an empty buffer. */
  lemma RoundTrip<M>(json: Json<M>, messages: seq<M>, pieces: seq<Bytes>)
    requires forall m | m in messages :: Sendable(json, m)
    requires Concat(pieces) == EncodeAll(json, messages)
    ensures Pushed(json, pieces) == Decoded(messages, [], None)
  {
    CuttingDoesNotMatter(json, pieces);
    EncodedStreamDecodes(json, messages);
  }

  /** While the stream is still arriving, the messages so far are the first ones and nothing is wrong. */
  lemma RoundTripSoFar<M>(json: Json<M>, messages: seq<M>, pieces: seq<Bytes>, rest: Bytes)
    requires forall m | m in messages :: Sendable(json, m)
    requires Concat(pieces) + rest == EncodeAll(json, messages)
    ensures Pushed(json, pieces).error.None? && Pushed(json, pieces).messages <= messages
  {
    CuttingDoesNotMatter(json, pieces);
    EncodedStreamDecodes(json, messages);
    DecodeSplits(json, Concat(pieces), rest);
  }

  // ---------- the decoder itself ----------

  datatype PushResult<+M> = Messages(messages: seq<M>) | Throws(error: FrameError)

  class LspFrameDecoder<M> {
    const json: Json<M>
    var buffer: Bytes

    constructor (json: Json<M>)
      ensures this.json == json && buffer == []
    {
      this.json := json;
      buffer := [];
    }

    /**
     * Delivers the message of every frame that is complete with this chunk, and what stays in the buffer is unfinished;
     * or throws, exactly because what stays in the buffer is broken.
     */
    method Push(chunk: Bytes) returns (r: PushResult<M>)
      modifies this
      ensures r.Messages? ==>
        (exists frames :: IsFramed(json, old(buffer) + chunk, frames, r.messages, buffer)) && IsUnfinished(buffer)
      ensures r.Throws? ==>
        && (exists frames, messages :: IsFramed(json, old(buffer) + chunk, frames, messages, buffer))
        && IsBroken(json, buffer, r.error)
      ensures var d := Decode(json, old(buffer) + chunk);
        && buffer == d.rest
        && r == match d.error case None => Messages(d.messages) case Some(error) => Throws(error)
    {
      hide Decode, NextFrame, IsFramed, IsUnfinished, IsBroken;
      buffer := buffer + chunk;
      ghost var stream := buffer;
      ghost var frames := DecodeIsFraming(json, stream);
      var messages: seq<M> := [];
      while true
        invariant Decode(json, stream) == WithMore(messages, Decode(json, buffer))
        decreases |buffer|
      {
        DecodeOne(json, buffer);
        var next := FirstFrame();
        match next {
          case Incomplete =>
            assert messages + [] == messages;
            return Messages(messages);
          case Invalid(error) =>
            return Throws(error);
          case Frame(message, size) =>
            ghost var rest := Decode(json, buffer[size..]);
            assert messages + ([message] + rest.messages) == messages + [message] + rest.messages;
            messages := messages + [message];
            buffer := buffer[size..];
        }
      }
    }

    /** Parses what the buffer starts with. */
    method FirstFrame() returns (next: Next<M>)
      ensures next == NextFrame(json, buffer)
    {
      hide DeclaredLength, HeaderEnd;
      var headerEnd := FindHeaderEnd();
      if headerEnd < 0 { return Incomplete; }
      match DeclaredLength(buffer[..headerEnd]) {
        case Refused(error) =>
          return Invalid(error);
        case Bytes(length) =>
          var bodyStart := headerEnd + |HEADER_END|;
          if |buffer| < bodyStart + length { return Incomplete; }
          match json.parse(buffer[bodyStart..bodyStart + length]) {
            case Malformed => return Invalid(NotJson);
            case OtherValue => return Invalid(NotAnObject);
            case Object(message) => return Frame(message, bodyStart + length);
          }
      }
    }

    method FindHeaderEnd() returns (r: int)
      ensures r == match HeaderEnd(buffer, 0) case None => -1 case Some(e) => e
    {
      var index := 0;
      while index <= |buffer| - |HEADER_END|
        invariant 0 <= index && forall i: nat | i < index :: !EndsAt(buffer, i)
      {
        var offset := 0;
        while offset < |HEADER_END| && buffer[index + offset] == HEADER_END[offset]
          invariant offset <= |HEADER_END|
          invariant forall k | 0 <= k < offset :: buffer[index + k] == HEADER_END[k]
        {
          offset := offset + 1;
        }
        if offset == |HEADER_END| {
          assert buffer[index..index + 4] == HEADER_END;
          HeaderEndIsUnique(buffer, HeaderEnd(buffer, 0), Some(index));
          return index;
        }
        assert buffer[index..index + 4][offset] == buffer[index + offset];
        index := index + 1;
      }
      HeaderEndIsUnique(buffer, HeaderEnd(buffer, 0), None);
      return -1;
    }
  }
}
