/** The queue that hands the framed stream to a reader in whatever sizes it asks for. */
module LspInput {
  import opened Basics
  import opened LspHeaders
  import opened LspFraming
  import opened Sequences

  const U32_MAX := 0xFFFF_FFFF

  /** A promise that is still waiting, and one that was resolved. */
  datatype Waiter = Waiter(reader: nat, maxLength: nat)
  datatype Answer = Answer(reader: nat, maxLength: nat, bytes: Bytes)

  datatype ReadResult = RangeError | Resolved(bytes: Bytes) | Waiting

  function Answered(answers: seq<Answer>): Bytes {
    if answers == [] then [] else Answered(answers[..|answers| - 1]) + answers[|answers| - 1].bytes
  }

  function Readers(answers: seq<Answer>, waiters: seq<Waiter>): seq<nat> {
    seq(|answers|, i requires 0 <= i < |answers| => answers[i].reader)
    + seq(|waiters|, i requires 0 <= i < |waiters| => waiters[i].reader)
  }

  lemma NewTicket(answers: seq<Answer>, waiters: seq<Waiter>, ticket: nat, maxLength: nat)
    requires Readers(answers, waiters) == seq(ticket, i => i)
    ensures Readers(answers, waiters + [Waiter(ticket, maxLength)]) == seq(ticket + 1, i => i)
    ensures waiters == [] ==> forall bytes ::
      Readers(answers + [Answer(ticket, maxLength, bytes)], waiters) == seq(ticket + 1, i => i)
  {
    assert seq(ticket + 1, i => i) == seq(ticket, i => i) + [ticket];
    assert Readers(answers, waiters + [Waiter(ticket, maxLength)]) == Readers(answers, waiters) + [ticket];
    if waiters == [] {
      forall bytes ensures Readers(answers + [Answer(ticket, maxLength, bytes)], waiters) == seq(ticket + 1, i => i) {
        assert Readers(answers + [Answer(ticket, maxLength, bytes)], waiters) == Readers(answers, waiters) + [ticket];
      }
    }
  }

  lemma AnswerFirst(answers: seq<Answer>, waiters: seq<Waiter>, bytes: Bytes)
    requires waiters != []
    ensures Readers(answers + [Answer(waiters[0].reader, waiters[0].maxLength, bytes)], waiters[1..]) ==
            Readers(answers, waiters)
  {
  }

  lemma {:induction false} ConcatSplits(pieces: seq<Bytes>, i: nat)
    requires i < |pieces|
    ensures Concat(pieces[..i + 1]) == Concat(pieces[..i]) + pieces[i]
    ensures Concat(pieces[..i]) + pieces[i] <= Concat(pieces)
    decreases |pieces|
  {
    assert pieces[..i + 1][..i] == pieces[..i];
    if i + 1 == |pieces| {
      assert pieces[..i + 1] == pieces;
    } else {
      var front := pieces[..|pieces| - 1];
      assert front[..i] == pieces[..i];
      ConcatSplits(front, i);
    }
  }

  /** How far into the stream a cursor points. */
  ghost function Offset(chunks: seq<Bytes>, index: nat, offset: nat): nat
    requires index <= |chunks|
  {
    |Concat(chunks[..index])| + offset
  }

  ghost predicate IsCursor(chunks: seq<Bytes>, index: nat, offset: nat) {
    && index <= |chunks| && (forall i | 0 <= i < |chunks| :: chunks[i] != [])
    && (if index < |chunks| then offset < |chunks[index]| else offset == 0)
  }

  lemma CopiedFromStream(chunks: seq<Bytes>, index: nat, offset: nat, n: nat)
    requires IsCursor(chunks, index, offset) && index < |chunks| && offset + n <= |chunks[index]|
    ensures var p := Offset(chunks, index, offset);
      && p + n <= |Concat(chunks)| && chunks[index][offset..offset + n] == Concat(chunks)[p..p + n]
      && (offset + n == |chunks[index]| ==> IsCursor(chunks, index + 1, 0) && Offset(chunks, index + 1, 0) == p + n)
  {
    ConcatSplits(chunks, index);
    var p, front := Offset(chunks, index, offset), Concat(chunks[..index]);
    assert (front + chunks[index])[p..p + n] == chunks[index][offset..offset + n];
  }

  lemma DrainedOffset(chunks: seq<Bytes>)
    ensures Offset(chunks, |chunks|, 0) == |Concat(chunks)|
  {
    assert chunks[..|chunks|] == chunks;
  }

  lemma {:induction false} EncodeOneMore<M>(json: Json<M>, messages: seq<M>, message: M)
    ensures EncodeAll(json, messages + [message]) == EncodeAll(json, messages) + Encode(json, message)
    ensures Encode(json, message) != []
  {
    hide Encode;
    EncodedIsNotEmpty(json, message);
    if messages == [] {
      assert [message][1..] == [] && EncodeAll(json, []) == [];
      assert [] + [message] == [message];
    } else {
      assert (messages + [message])[1..] == messages[1..] + [message];
      EncodeOneMore(json, messages[1..], message);
    }
  }

  lemma EncodedIsNotEmpty<M>(json: Json<M>, message: M)
    ensures Encode(json, message) != []
  {
  }

  function Pieces(answers: seq<Answer>): (r: seq<Bytes>)
    ensures |r| == |answers|
  {
    seq(|answers|, i requires 0 <= i < |answers| => answers[i].bytes)
  }

  lemma {:induction false} PiecesMakeTheAnswers(answers: seq<Answer>)
    ensures Concat(Pieces(answers)) == Answered(answers)
  {
    if answers != [] {
      var front := answers[..|answers| - 1];
      assert Pieces(answers)[..|answers| - 1] == Pieces(front);
      PiecesMakeTheAnswers(front);
    }
  }

  /**
   * Whatever sizes are read, decoding the answers gives the pushed messages in order, and all of them once all is read.
   */
  lemma ReadsDecodeToWhatWasPushed<M>(queue: AsyncLspInputQueue<M>)
    requires queue.Valid() && forall m | m in queue.pushed :: Sendable(queue.json, m)
    ensures var d := Pushed(queue.json, Pieces(queue.answers));
      && d.error.None? && d.messages <= queue.pushed
      && (queue.chunkIndex == |queue.chunks| ==> d == Decoded(queue.pushed, [], None))
  {
    hide EncodeAll, Sendable;
    PiecesMakeTheAnswers(queue.answers);
    var stream := EncodeAll(queue.json, queue.pushed);
    assert stream == stream[..queue.Position()] + stream[queue.Position()..];
    RoundTripSoFar(queue.json, queue.pushed, Pieces(queue.answers), stream[queue.Position()..]);
    DrainedOffset(queue.chunks);
    if queue.chunkIndex == |queue.chunks| {
      assert stream[..queue.Position()] == stream;
      RoundTrip(queue.json, queue.pushed, Pieces(queue.answers));
    }
  }

  class AsyncLspInputQueue<M> {
    const json: Json<M>
    /** The messages pushed so far. */
    ghost var pushed: seq<M>
    var chunks: seq<Bytes>
    var chunkIndex: nat
    var chunkOffset: nat
    var waiters: seq<Waiter>
    /** The promises that were resolved with stream bytes, in that order. */
    var answers: seq<Answer>
    /** How many reads asked for stream bytes. */
    var tickets: nat

    ghost function Position(): nat
      reads this
      requires chunkIndex <= |chunks|
    {
      Offset(chunks, chunkIndex, chunkOffset)
    }

    ghost predicate Cursor()
      reads this
    {
      IsCursor(chunks, chunkIndex, chunkOffset)
    }

    /** What was answered is exactly the stream up to the cursor; somebody waits only when nothing is left. */
    ghost predicate Valid()
      reads this
    {
      Consistent() && (waiters != [] ==> chunkIndex == |chunks|)
    }

    constructor (json: Json<M>)
      ensures Valid() && this.json == json && pushed == [] && chunks == []
      ensures answers == [] && waiters == [] && tickets == 0
    {
      this.json, pushed := json, [];
      chunks, chunkIndex, chunkOffset, waiters, answers, tickets := [], 0, 0, [], [], 0;
    }

    /** Appends the frame of a message and answers everyone who can be answered. */
    method Push(message: M)
      requires Valid()
      modifies this
      ensures Valid() && pushed == old(pushed) + [message]
      ensures tickets == old(tickets) && old(answers) <= answers
      ensures waiters != [] ==> Answered(answers) == EncodeAll(json, pushed)
    {
      hide Encode, EncodeAll, Answered, Readers;
      EncodeOneMore(json, pushed, message);
      chunks := chunks + [Encode(json, message)];
      pushed := pushed + [message];
      assert chunks[..|chunks| - 1] == old(chunks);
      assert chunks[..chunkIndex] == old(chunks)[..chunkIndex];
      Flush();
      DrainedOffset(chunks);
    }

    /** Everything about the queue except that nobody waits while there is something to read. */
    ghost predicate Consistent()
      reads this
    {
      && Cursor()
      && Position() <= |Concat(chunks)| && Answered(answers) == Concat(chunks)[..Position()]
      && (forall a | a in answers :: 0 < |a.bytes| <= a.maxLength)
      && (forall w | w in waiters :: w.maxLength > 0)
      && Concat(chunks) == EncodeAll(json, pushed)
      && Readers(answers, waiters) == seq(tickets, i => i)
    }

    method Flush()
      requires Consistent()
      modifies this`chunkIndex, this`chunkOffset, this`waiters, this`answers
      ensures Valid() && old(answers) <= answers
    {
      hide EncodeAll, Readers, Concat;
      while |waiters| > 0 && chunkIndex < |chunks|
        invariant Consistent() && old(answers) <= answers
        decreases |waiters|
      {
        var waiter := waiters[0];
        ghost var position, before := Position(), answers;
        var bytes := Take(waiter.maxLength);
        AnswerFirst(answers, waiters, bytes);
        waiters := waiters[1..];
        answers := answers + [Answer(waiter.reader, waiter.maxLength, bytes)];
        assert Concat(chunks)[..position] + bytes == Concat(chunks)[..Position()];
      }
      DrainedOffset(chunks);
    }

    /** Answers at once when there is something to read, and otherwise makes the reader wait its turn. */
    method Read(maxLength: int) returns (r: ReadResult)
      requires Valid()
      modifies this
      ensures Valid() && pushed == old(pushed)
      ensures r.RangeError? <==> !(0 <= maxLength <= U32_MAX)
      ensures r.RangeError? || maxLength == 0 ==>
        answers == old(answers) && waiters == old(waiters) && tickets == old(tickets)
      ensures maxLength == 0 ==> r == Resolved([])
      ensures 0 < maxLength <= U32_MAX ==> tickets == old(tickets) + 1
      ensures r.Resolved? && maxLength > 0 ==>
        && answers == old(answers) + [Answer(old(tickets), maxLength, r.bytes)] && waiters == old(waiters)
        && (|r.bytes| == maxLength || Answered(answers) == EncodeAll(json, pushed))
      ensures r.Waiting? ==>
        && Answered(answers) == EncodeAll(json, pushed) && answers == old(answers)
        && waiters == old(waiters) + [Waiter(old(tickets), maxLength)]
    {
      hide EncodeAll, Readers, Concat;
      if maxLength < 0 || maxLength > U32_MAX { return RangeError; }
      if maxLength == 0 { return Resolved([]); }
      ghost var position := Position();
      NewTicket(answers, waiters, tickets, maxLength);
      if chunkIndex < |chunks| {
        var bytes := Take(maxLength);
        answers := answers + [Answer(tickets, maxLength, bytes)];
        tickets := tickets + 1;
        assert Concat(chunks)[..position] + bytes == Concat(chunks)[..Position()];
        if chunkIndex == |chunks| { DrainedOffset(chunks); }
        return Resolved(bytes);
      }
      DrainedOffset(chunks);
      waiters := waiters + [Waiter(tickets, maxLength)];
      tickets := tickets + 1;
      return Waiting;
    }

    /** Copies out as much as there is, up to the maximum. */
    method Take(maxLength: nat) returns (output: Bytes)
      requires Cursor() && maxLength > 0 && Position() <= |Concat(chunks)|
      modifies this`chunkIndex, this`chunkOffset
      ensures Cursor() && Position() <= |Concat(chunks)|
      ensures old(Position()) <= Position() && output == Concat(chunks)[old(Position())..Position()]
      ensures |output| <= maxLength && (chunkIndex < |chunks| ==> |output| == maxLength)
      ensures old(chunkIndex) < |chunks| ==> output != []
    {
      hide Concat;
      output := [];
      while |output| < maxLength && chunkIndex < |chunks|
        invariant Cursor() && old(Position()) <= Position() <= |Concat(chunks)|
        invariant output == Concat(chunks)[old(Position())..Position()] && |output| <= maxLength
        invariant old(chunkIndex) < |chunks| && output == [] ==> chunkIndex < |chunks|
        decreases |chunks| - chunkIndex, maxLength - |output|
      {
        var chunk := chunks[chunkIndex];
        var available := |chunk| - chunkOffset;
        var copyLength := if maxLength - |output| <= available then maxLength - |output| else available;
        ghost var start := Position();
        CopiedFromStream(chunks, chunkIndex, chunkOffset, copyLength);
        SlicesJoin(Concat(chunks), old(Position()), start, start + copyLength);
        output := output + chunk[chunkOffset..chunkOffset + copyLength];
        chunkOffset := chunkOffset + copyLength;
        if chunkOffset == |chunk| {
          chunkIndex := chunkIndex + 1;
          chunkOffset := 0;
        }
        assert Position() == start + copyLength;
      }
    }
  }
}
