/** The header part of a Language Server Protocol frame, byte by byte. */
module LspHeaders {
  import opened Basics

  const CR: byte := 13
  const LF: byte := 10
  const HEADER_END: Bytes := [CR, LF, CR, LF]
  const MAX_SAFE_INTEGER := 0x1F_FFFF_FFFF_FFFF

  // ---------- where a header ends ----------

  predicate EndsAt(b: Bytes, i: nat) {
    i + 4 <= |b| && b[i..i + 4] == HEADER_END
  }

  /** The least position of an empty line. */
  ghost predicate IsHeaderEnd(b: Bytes, end: Option<nat>) {
    match end
    case None => forall i: nat :: !EndsAt(b, i)
    case Some(e) => EndsAt(b, e) && forall i: nat | i < e :: !EndsAt(b, i)
  }

  function HeaderEnd(b: Bytes, from: nat): (r: Option<nat>)
    requires from <= |b|
    ensures r.Some? ==> from <= r.value && EndsAt(b, r.value) && forall i: nat | from <= i < r.value :: !EndsAt(b, i)
    ensures r.None? ==> forall i: nat | from <= i :: !EndsAt(b, i)
    decreases |b| - from
  {
    if from + 4 > |b| then None
    else if EndsAt(b, from) then Some(from)
    else HeaderEnd(b, from + 1)
  }

  lemma HeaderEndIsUnique(b: Bytes, x: Option<nat>, y: Option<nat>)
    requires IsHeaderEnd(b, x) && IsHeaderEnd(b, y)
    ensures x == y
  {
  }

  /** More bytes do not move the end of a header. */
  lemma HeaderEndStays(x: Bytes, y: Bytes)
    requires HeaderEnd(x, 0).Some?
    ensures HeaderEnd(x + y, 0) == HeaderEnd(x, 0)
  {
    var e := HeaderEnd(x, 0).value;
    forall i: nat | i <= e ensures EndsAt(x + y, i) == EndsAt(x, i) {
      assert (x + y)[i..i + 4] == x[i..i + 4];
    }
    HeaderEndIsUnique(x + y, HeaderEnd(x + y, 0), Some(e));
  }

  // ---------- the lines of a header ----------

  /** How many bytes end a line here: LF, CR, and U+2028 and U+2029 as UTF-8. */
  function TerminatorSize(h: Bytes): (n: nat)
    ensures n <= |h|
  {
    if h == [] then 0
    else if h[0] == LF || h[0] == CR then 1
    else if |h| >= 3 && h[0] == 0xE2 && h[1] == 0x80 && (h[2] == 0xA8 || h[2] == 0xA9) then 3
    else 0
  }

  function Lines(h: Bytes, line: Bytes): seq<Bytes>
    decreases |h|
  {
    if h == [] then [line]
    else if TerminatorSize(h) > 0 then [line] + Lines(h[TerminatorSize(h)..], [])
    else Lines(h[1..], line + [h[0]])
  }

  /** Decoding drops a leading byte order mark. */
  function WithoutMark(h: Bytes): (r: Bytes)
    ensures if [0xEF, 0xBB, 0xBF] <= h then h == [0xEF, 0xBB, 0xBF] + r else r == h
  {
    if |h| >= 3 && h[..3] == [0xEF, 0xBB, 0xBF] then h[3..] else h
  }

  predicate IsDigit(b: byte) {
    48 <= b <= 57
  }

  predicate AllDigits(b: Bytes) {
    forall i | 0 <= i < |b| :: IsDigit(b[i])
  }

  function Lower(b: byte): byte {
    if 65 <= b <= 90 then b + 32 else b
  }

  function Lowered(b: Bytes): (r: Bytes)
    ensures |r| == |b| && forall i | 0 <= i < |b| :: r[i] == Lower(b[i])
  {
    seq(|b|, i requires 0 <= i < |b| => Lower(b[i]))
  }

  /** "content-length:" */
  const FIELD: Bytes := [99, 111, 110, 116, 101, 110, 116, 45, 108, 101, 110, 103, 116, 104, 58]

  function WithoutBlanks(b: Bytes): Bytes {
    if b != [] && (b[0] == 32 || b[0] == 9) then WithoutBlanks(b[1..]) else b
  }

  /** The digits of a line that is nothing but a length field. */
  function LengthField(line: Bytes): (r: Option<Bytes>)
    ensures r.Some? ==> AllDigits(r.value)
  {
    if |line| < |FIELD| || Lowered(line[..|FIELD|]) != FIELD then None
    else
      var digits := WithoutBlanks(line[|FIELD|..]);
      if digits != [] && AllDigits(digits) then Some(digits) else None
  }

  function LengthFields(lines: seq<Bytes>): (r: seq<Bytes>)
    ensures forall i | 0 <= i < |r| :: AllDigits(r[i])
  {
    if lines == [] then []
    else (match LengthField(lines[0]) case Some(digits) => [digits] case None => []) + LengthFields(lines[1..])
  }

  function Decimal(digits: Bytes): nat
    requires AllDigits(digits)
  {
    if digits == [] then 0 else 10 * Decimal(digits[..|digits| - 1]) + (digits[|digits| - 1] as int - 48)
  }

  datatype FrameError = InvalidContentLength | InvalidBodyLength | NotJson | NotAnObject

  datatype Length = Bytes(count: nat) | Refused(error: FrameError)

  /** A header declares a length by exactly one length field with a safe integer. */
  function DeclaredLength(header: Bytes): Length {
    var fields := LengthFields(Lines(WithoutMark(header), []));
    if |fields| != 1 then Refused(InvalidContentLength)
    else if Decimal(fields[0]) > MAX_SAFE_INTEGER then Refused(InvalidBodyLength)
    else Length.Bytes(Decimal(fields[0]))
  }

  // ---------- what a header of any lines declares ----------

  /** LF, CR, and U+2028 and U+2029 as UTF-8. */
  predicate IsTerminator(b: Bytes) {
    b == [LF] || b == [CR] || b == [0xE2, 0x80, 0xA8] || b == [0xE2, 0x80, 0xA9]
  }

  /** No terminator in it. */
  ghost predicate IsLine(line: Bytes) {
    forall i, t | 0 <= i <= |line| && IsTerminator(t) :: !(t <= line[i..])
  }

  /** The lines with a terminator behind each but the last. */
  function Terminated(lines: seq<Bytes>, ends: seq<Bytes>): Bytes
    requires |lines| == |ends| + 1
  {
    if ends == [] then lines[0] else lines[0] + (ends[0] + Terminated(lines[1..], ends[1..]))
  }

  lemma TerminatorInFront(h: Bytes, t: Bytes)
    requires IsTerminator(t) && t <= h
    ensures TerminatorSize(h) == |t| > 0
  {
    assert h == t + h[|t|..];
  }

  lemma NoTerminatorInFront(h: Bytes)
    requires forall t | IsTerminator(t) :: !(t <= h)
    ensures TerminatorSize(h) == 0
  {
    if h != [] {
      assert h[..1] == [h[0]];
      assert IsTerminator([LF]) && IsTerminator([CR]);
      if |h| >= 3 {
        assert h[..3] == [h[0], h[1], h[2]];
        assert IsTerminator([0xE2, 0x80, 0xA8]) && IsTerminator([0xE2, 0x80, 0xA9]);
      }
    }
  }

  /** A terminator does not start inside a line, whatever terminator follows the line. */
  lemma LineGoesOn(line: Bytes, end: Bytes, rest: Bytes, t: Bytes)
    requires IsLine(line) && line != [] && IsTerminator(t) && ((end == [] && rest == []) || IsTerminator(end))
    ensures !(t <= line + (end + rest))
  {
    var h := line + (end + rest);
    assert line[0..] == line && !(t <= line[0..]);
    assert h[..|line|] == line;
    assert |line| < |h| ==> h[|line|] == end[0];
  }

  lemma LineTail(line: Bytes)
    requires IsLine(line) && line != []
    ensures IsLine(line[1..])
  {
    forall i, t | 0 <= i <= |line[1..]| && IsTerminator(t) ensures !(t <= line[1..][i..]) {
      assert line[1..][i..] == line[i + 1..];
    }
  }

  lemma LinesUnrolled(h: Bytes, line: Bytes)
    ensures Lines(h, line) ==
            if h == [] then [line]
            else if TerminatorSize(h) > 0 then [line] + Lines(h[TerminatorSize(h)..], [])
            else Lines(h[1..], line + [h[0]])
  {
  }

  lemma FirstByte(line: Bytes, behind: Bytes)
    requires line != []
    ensures (line + behind)[1..] == line[1..] + behind && (line + behind)[0] == line[0]
    ensures forall before: Bytes :: before + [line[0]] + line[1..] == before + line
  {
    assert line == [line[0]] + line[1..];
    forall before: Bytes ensures before + [line[0]] + line[1..] == before + line {
      assert before + [line[0]] + line[1..] == before + ([line[0]] + line[1..]);
    }
  }

  lemma {:induction false} LinesOfOne(line: Bytes, end: Bytes, rest: Bytes, before: Bytes)
    requires IsLine(line) && ((end == [] && rest == []) || IsTerminator(end))
    ensures Lines(line + (end + rest), before) ==
            if end == [] then [before + line] else [before + line] + Lines(rest, [])
    decreases |line|
  {
    hide Lines, TerminatorSize, IsLine, IsTerminator;
    var h := line + (end + rest);
    LinesUnrolled(h, before);
    if IsTerminator(end) { TerminatorIsNotEmpty(end); }
    if line == [] {
      assert before + line == before && h == end + rest;
      if end != [] {
        TerminatorInFront(h, end);
        assert h[|end|..] == rest;
      }
    } else {
      forall t | IsTerminator(t) ensures !(t <= h) { LineGoesOn(line, end, rest, t); }
      NoTerminatorInFront(h);
      LineTail(line);
      FirstByte(line, end + rest);
      LinesOfOne(line[1..], end, rest, before + [line[0]]);
    }
  }

  /** Splitting gives back the lines, whatever terminators are between them. */
  lemma {:induction false} LinesOfTerminated(lines: seq<Bytes>, ends: seq<Bytes>)
    requires |lines| == |ends| + 1
    requires (forall i | 0 <= i < |lines| :: IsLine(lines[i])) && (forall i | 0 <= i < |ends| :: IsTerminator(ends[i]))
    ensures Lines(Terminated(lines, ends), []) == lines
  {
    hide Lines, IsLine, IsTerminator;
    if ends == [] {
      assert lines[0] + ([] + []) == lines[0] && [] + lines[0] == lines[0];
      LinesOfOne(lines[0], [], [], []);
      assert [lines[0]] == lines;
    } else {
      assert [] + lines[0] == lines[0];
      LinesOfOne(lines[0], ends[0], Terminated(lines[1..], ends[1..]), []);
      LinesOfTerminated(lines[1..], ends[1..]);
      assert [lines[0]] + lines[1..] == lines;
      TerminatorIsNotEmpty(ends[0]);
    }
  }

  lemma TerminatorIsNotEmpty(t: Bytes)
    requires IsTerminator(t)
    ensures t != []
  {
  }

  /** "Content-Length:" in any case, blanks, and digits to the end of the line. */
  ghost predicate DeclaresOnLine(line: Bytes, n: nat) {
    exists name: Bytes, blanks: Bytes, digits: Bytes ::
      IsLengthLine(line, name, blanks, digits) && Decimal(digits) == n
  }

  predicate IsLengthLine(line: Bytes, name: Bytes, blanks: Bytes, digits: Bytes) {
    && line == name + blanks + digits && Lowered(name) == FIELD
    && (forall i | 0 <= i < |blanks| :: blanks[i] == 32 || blanks[i] == 9)
    && digits != [] && AllDigits(digits)
  }

  lemma {:induction false} BlanksAreSkipped(blanks: Bytes, digits: Bytes)
    requires forall i | 0 <= i < |blanks| :: blanks[i] == 32 || blanks[i] == 9
    requires digits != [] ==> digits[0] != 32 && digits[0] != 9
    ensures WithoutBlanks(blanks + digits) == digits
  {
    if blanks == [] {
      assert blanks + digits == digits;
    } else {
      assert (blanks + digits)[1..] == blanks[1..] + digits;
      BlanksAreSkipped(blanks[1..], digits);
    }
  }

  lemma {:induction false} SkippedAreBlanks(b: Bytes) returns (blanks: Bytes)
    ensures b == blanks + WithoutBlanks(b) && forall i | 0 <= i < |blanks| :: blanks[i] == 32 || blanks[i] == 9
  {
    if b != [] && (b[0] == 32 || b[0] == 9) {
      blanks := SkippedAreBlanks(b[1..]);
      assert b == [b[0]] + b[1..];
      blanks := [b[0]] + blanks;
    } else {
      blanks := [];
      assert [] + b == b;
    }
  }

  lemma LengthLineIsRead(line: Bytes, name: Bytes, blanks: Bytes, digits: Bytes)
    requires IsLengthLine(line, name, blanks, digits)
    ensures LengthField(line) == Some(digits)
  {
    assert |name| == |FIELD| && line == name + (blanks + digits);
    hide Lowered;
    assert line[..|FIELD|] == name && line[|FIELD|..] == blanks + digits;
    assert IsDigit(digits[0]);
    BlanksAreSkipped(blanks, digits);
  }

  lemma ReadLineIsLengthLine(line: Bytes) returns (name: Bytes, blanks: Bytes)
    requires LengthField(line).Some?
    ensures IsLengthLine(line, name, blanks, LengthField(line).value)
  {
    hide Lowered;
    name := line[..|FIELD|];
    blanks := SkippedAreBlanks(line[|FIELD|..]);
    assert line == name + blanks + LengthField(line).value;
  }

  lemma LengthFieldDeclares(line: Bytes, n: nat)
    ensures DeclaresOnLine(line, n) <==> LengthField(line).Some? && Decimal(LengthField(line).value) == n
  {
    hide Decimal, LengthField;
    if DeclaresOnLine(line, n) {
      var name, blanks, digits: Bytes :| IsLengthLine(line, name, blanks, digits) && Decimal(digits) == n;
      LengthLineIsRead(line, name, blanks, digits);
    }
    if LengthField(line).Some? && Decimal(LengthField(line).value) == n {
      var name, blanks := ReadLineIsLengthLine(line);
      assert IsLengthLine(line, name, blanks, LengthField(line).value);
    }
  }

  lemma {:induction false} FieldsOfLines(lines: seq<Bytes>)
    ensures (forall i | 0 <= i < |lines| :: LengthField(lines[i]).None?) ==> LengthFields(lines) == []
    ensures forall i | 0 <= i < |lines| && LengthField(lines[i]).Some? ::
      LengthField(lines[i]).value in LengthFields(lines)
    ensures forall i, j | 0 <= i < j < |lines| && LengthField(lines[i]).Some? && LengthField(lines[j]).Some? ::
              |LengthFields(lines)| >= 2
    ensures forall i | 0 <= i < |lines| && LengthField(lines[i]).Some?
                       && (forall j | 0 <= j < |lines| && j != i :: LengthField(lines[j]).None?) ::
              LengthFields(lines) == [LengthField(lines[i]).value]
  {
    hide LengthField;
    if lines != [] {
      var rest := lines[1..];
      FieldsOfLines(rest);
      assert forall i | 0 < i < |lines| :: lines[i] == rest[i - 1];
    }
  }

  /** Every header is lines with terminators between them. */
  lemma {:induction false} EveryHeaderHasLines(h: Bytes) returns (lines: seq<Bytes>, ends: seq<Bytes>)
    ensures HasLines(h, lines, ends)
    decreases |h|
  {
    hide IsLine, IsTerminator, TerminatorSize;
    EmptyIsLine();
    if h == [] {
      lines, ends := [[]], [];
    } else if TerminatorSize(h) > 0 {
      var size := TerminatorSize(h);
      TerminatorOfSize(h);
      lines, ends := EveryHeaderHasLines(h[size..]);
      assert h == [] + (h[..size] + Terminated(lines, ends));
      lines, ends := [[]] + lines, [h[..size]] + ends;
    } else {
      var rest, restEnds := EveryHeaderHasLines(h[1..]);
      lines, ends := [[h[0]] + rest[0]] + rest[1..], restEnds;
      assert h == [h[0]] + h[1..];
      FirstLineGrows(h, rest, ends);
    }
  }

  ghost predicate HasLines(h: Bytes, lines: seq<Bytes>, ends: seq<Bytes>) {
    && |lines| == |ends| + 1 && h == Terminated(lines, ends)
    && (forall i | 0 <= i < |lines| :: IsLine(lines[i])) && (forall i | 0 <= i < |ends| :: IsTerminator(ends[i]))
  }

  lemma EmptyIsLine()
    ensures IsLine([])
  {
  }

  lemma TerminatorOfSize(h: Bytes)
    requires TerminatorSize(h) > 0
    ensures IsTerminator(h[..TerminatorSize(h)])
  {
  }

  lemma FirstLineGrows(h: Bytes, rest: seq<Bytes>, ends: seq<Bytes>)
    requires h != [] && TerminatorSize(h) == 0 && HasLines(h[1..], rest, ends)
    ensures HasLines(h, [[h[0]] + rest[0]] + rest[1..], ends)
  {
    hide TerminatorSize, IsTerminator;
    var line := [h[0]] + rest[0];
    assert h == [h[0]] + h[1..];
    forall i, t | 0 <= i <= |line| && IsTerminator(t) ensures !(t <= line[i..]) {
      if i > 0 {
        assert line[i..] == rest[0][i - 1..];
      } else if t <= line {
        assert line <= h;
        TerminatorInFront(h, t);
        assert false;
      }
    }
    assert ([line] + rest[1..])[1..] == rest[1..];
    if ends != [] { assert line + (ends[0] + Terminated(rest[1..], ends[1..])) == [h[0]] + h[1..]; }
  }

  /** No other line declares a length. */
  ghost predicate IsOnlyOne(lines: seq<Bytes>, i: nat) {
    forall j, n: nat | 0 <= j < |lines| && j != i :: !DeclaresOnLine(lines[j], n)
  }

  /**
   * A header declares what one of its lines declares, unless another line declares something as well or the number is
   * not a safe integer.  A byte order mark in front is overlooked.
   */
  lemma HeaderDeclares(h: Bytes, lines: seq<Bytes>, ends: seq<Bytes>, i: nat, n: nat)
    requires HasLines(WithoutMark(h), lines, ends) && i < |lines| && DeclaresOnLine(lines[i], n)
    ensures DeclaredLength(h) ==
            if !IsOnlyOne(lines, i) then Refused(InvalidContentLength)
            else if n > MAX_SAFE_INTEGER then Refused(InvalidBodyLength) else Length.Bytes(n)
  {
    hide IsLine, IsTerminator, Lines, Terminated, LengthField, DeclaresOnLine, WithoutMark, Decimal;
    LinesOfTerminated(lines, ends);
    FieldsOfLines(lines);
    LengthFieldDeclares(lines[i], n);
    if IsOnlyOne(lines, i) {
      forall j | 0 <= j < |lines| && j != i ensures LengthField(lines[j]).None? {
        if LengthField(lines[j]).Some? { LengthFieldDeclares(lines[j], Decimal(LengthField(lines[j]).value)); }
      }
    } else {
      var j, m: nat :| 0 <= j < |lines| && j != i && DeclaresOnLine(lines[j], m);
      LengthFieldDeclares(lines[j], m);
    }
  }

  /** A header none of whose lines declares a length is refused. */
  lemma HeaderDeclaresNothing(h: Bytes, lines: seq<Bytes>, ends: seq<Bytes>)
    requires HasLines(WithoutMark(h), lines, ends)
    requires forall i, n: nat | 0 <= i < |lines| :: !DeclaresOnLine(lines[i], n)
    ensures DeclaredLength(h) == Refused(InvalidContentLength)
  {
    hide IsLine, IsTerminator, Lines, Terminated, LengthField, DeclaresOnLine, WithoutMark, Decimal;
    LinesOfTerminated(lines, ends);
    FieldsOfLines(lines);
    forall i | 0 <= i < |lines| ensures LengthField(lines[i]).None? {
      if LengthField(lines[i]).Some? { LengthFieldDeclares(lines[i], Decimal(LengthField(lines[i]).value)); }
    }
  }

  // ---------- the header that is written ----------

  function Digits(n: nat): (r: Bytes)
    ensures r != [] && AllDigits(r)
  {
    if n < 10 then [(48 + n) as byte] else Digits(n / 10) + [(48 + n % 10) as byte]
  }

  lemma {:induction false} DecimalOfDigits(n: nat)
    ensures Decimal(Digits(n)) == n
  {
    if n >= 10 { DecimalOfDigits(n / 10); }
  }

  /** Zeros in front of a number change nothing. */
  lemma {:induction false} LeadingZero(digits: Bytes)
    requires AllDigits(digits)
    ensures AllDigits([48] + digits) && Decimal([48] + digits) == Decimal(digits)
  {
    var more: Bytes := [48] + digits;
    assert forall i | 0 <= i < |more| :: more[i] == if i == 0 then 48 else digits[i - 1];
    if digits == [] {
      assert more[..0] == [];
    } else {
      assert more[..|more| - 1] == [48] + digits[..|digits| - 1];
      LeadingZero(digits[..|digits| - 1]);
    }
  }

  /** "Content-Length: " */
  const PREFIX: Bytes := [67, 111, 110, 116, 101, 110, 116, 45, 76, 101, 110, 103, 116, 104, 58, 32]

  function WrittenHeader(n: nat): Bytes {
    PREFIX + Digits(n)
  }

  predicate OnOneLine(h: Bytes) {
    forall i | 0 <= i < |h| :: h[i] != CR && h[i] != LF && h[i] < 128
  }

  lemma {:induction false} OneLine(h: Bytes, line: Bytes)
    requires OnOneLine(h)
    ensures Lines(h, line) == [line + h]
  {
    if h == [] {
      assert line + h == line;
    } else {
      OneLine(h[1..], line + [h[0]]);
      assert line + [h[0]] + h[1..] == line + h;
    }
  }

  lemma WrittenLengthField(n: nat)
    ensures LengthField(WrittenHeader(n)) == Some(Digits(n))
  {
    var line, digits := WrittenHeader(n), Digits(n);
    hide Digits;
    assert line[..15] == PREFIX[..15];
    assert Lowered(line[..15]) == FIELD;
    assert line[15..] == [32] + digits;
    assert ([32] + digits)[1..] == digits;
    assert WithoutBlanks([32] + digits) == WithoutBlanks(digits);
    assert IsDigit(digits[0]);
  }

  lemma WrittenHeaderIsOneLine(n: nat)
    ensures OnOneLine(WrittenHeader(n)) && WithoutMark(WrittenHeader(n)) == WrittenHeader(n)
  {
    hide Digits;
    var h := WrittenHeader(n);
    assert OnOneLine(PREFIX);
    forall i | 0 <= i < |h| ensures h[i] != CR && h[i] != LF && h[i] < 128 {
      assert h[i] == if i < 16 then PREFIX[i] else Digits(n)[i - 16];
    }
    assert h[..3][0] == 67;
  }

  /** What is written is read back. */
  lemma WrittenHeaderDeclares(n: nat)
    requires n <= MAX_SAFE_INTEGER
    ensures DeclaredLength(WrittenHeader(n)) == Length.Bytes(n)
  {
    hide Digits, Lines, WithoutMark, WrittenHeader, LengthField, Decimal;
    var h := WrittenHeader(n);
    WrittenHeaderIsOneLine(n);
    OneLine(h, []);
    assert [] + h == h;
    WrittenLengthField(n);
    assert LengthFields([h]) == [Digits(n)] + LengthFields([]);
    DecimalOfDigits(n);
  }

  /** A written header ends where its empty line begins. */
  lemma WrittenHeaderEnds(n: nat, rest: Bytes)
    ensures HeaderEnd(WrittenHeader(n) + HEADER_END + rest, 0) == Some(|WrittenHeader(n)|)
  {
    var h := WrittenHeader(n);
    var b := h + HEADER_END + rest;
    WrittenHeaderIsOneLine(n);
    hide WrittenHeader;
    forall i: nat | i < |h| ensures !EndsAt(b, i) {
      assert b[i] == h[i] != CR;
      if i + 4 <= |b| { assert b[i..i + 4][0] == b[i]; }
    }
    assert b[|h|..|h| + 4] == HEADER_END;
    HeaderEndIsUnique(b, HeaderEnd(b, 0), Some(|h|));
  }
}
