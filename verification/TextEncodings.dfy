/** The sizes used elsewhere are those of UTF-8, and a tail of bytes decodes exactly if it starts with a character. */
module TextEncodings {
  import opened Basics
  import opened BoundedHistory
  import opened Sequences
  import Utf16Text

  // ---------- UTF-8 ----------

  /** The bytes of a character, as RFC 3629, section 3, lays them out. */
  function Encoded(c: Scalar): Bytes {
    var n := c as int;
    if n < 0x80 then [n as byte]
    else if n < 0x800 then [(0xC0 + n / 64) as byte, (0x80 + n % 64) as byte]
    else if n < 0x1_0000 then [(0xE0 + n / 4096) as byte, (0x80 + n / 64 % 64) as byte, (0x80 + n % 64) as byte]
    else
      [(0xF0 + n / 262144) as byte, (0x80 + n / 4096 % 64) as byte,
       (0x80 + n / 64 % 64) as byte, (0x80 + n % 64) as byte]
  }

  /** The number that the payload bits of a character's bytes make up. */
  function Payload(b: Bytes): int
    requires 1 <= |b| <= 4
  {
    match |b|
    case 1 => b[0] as int
    case 2 => (b[0] as int - 0xC0) * 64 + (b[1] as int - 0x80)
    case 3 => (b[0] as int - 0xE0) * 4096 + (b[1] as int - 0x80) * 64 + (b[2] as int - 0x80)
    case _ =>
      (b[0] as int - 0xF0) * 262144 + (b[1] as int - 0x80) * 4096 + (b[2] as int - 0x80) * 64 + (b[3] as int - 0x80)
  }

  /** Reading the payload gives the character back, so no two characters have the same bytes. */
  lemma PayloadOfEncoded(c: Scalar)
    ensures Payload(Encoded(c)) == c as int
  {
    var n := c as int;
    assert n / 4096 == n / 64 / 64 && n / 262144 == n / 64 / 64 / 64;
  }

  function EncodedText(t: Text): Bytes {
    if t == [] then [] else Encoded(t[0]) + EncodedText(t[1..])
  }

  /** A byte that only continues a character. */
  predicate Continues(b: byte) {
    0x80 <= b < 0xC0
  }

  lemma EncodedHasWidth(c: Scalar)
    ensures |Encoded(c)| == Width(c) && !Continues(Encoded(c)[0])
    ensures forall i | 0 < i < |Encoded(c)| :: Continues(Encoded(c)[i])
  {
  }

  lemma {:induction false} EncodedTextHasLength(t: Text)
    ensures |EncodedText(t)| == Utf8Length(t)
  {
    if t != [] {
      EncodedHasWidth(t[0]);
      EncodedTextHasLength(t[1..]);
    }
  }

  /** The last n bytes are the encoding of a tail, or start in the middle of a character. */
  lemma {:induction false} TailsDecode(t: Text, n: nat)
    requires n <= Utf8Length(t)
    ensures n <= |EncodedText(t)|
    ensures var bytes := EncodedText(t)[|EncodedText(t)| - n..];
      match TailOfSize(t, n)
      case Some(tail) => bytes == EncodedText(tail)
      case None => bytes != [] && Continues(bytes[0])
  {
    hide Encoded, Utf8Length, Continues;
    EncodedTextHasLength(t);
    FirstCharacter(t);
    var all := EncodedText(t);
    if Utf8Length(t) == n {
      assert all[0..] == all;
    } else {
      EncodedHasWidth(t[0]);
      var first, rest := Encoded(t[0]), EncodedText(t[1..]);
      EncodedTextHasLength(t[1..]);
      if n <= |rest| {
        TailsDecode(t[1..], n);
        TailOfSecond(first, rest, n);
      } else {
        NoTailWithin(t[1..], n);
        TailFromFirst(first, rest, n);
      }
    }
  }

  lemma TailOfSecond(first: Bytes, rest: Bytes, n: nat)
    requires n <= |rest|
    ensures (first + rest)[|first + rest| - n..] == rest[|rest| - n..]
  {
  }

  lemma TailFromFirst(first: Bytes, rest: Bytes, n: nat)
    requires |rest| < n <= |first + rest|
    ensures (first + rest)[|first + rest| - n..][0] == first[|first| + |rest| - n]
  {
  }

  lemma NoTailWithin(t: Text, n: nat)
    requires Utf8Length(t) < n
    ensures TailOfSize(t, n).None?
  {
  }

  // ---------- UTF-16 ----------

  /** The code units of a character: itself, or a surrogate pair. */
  function Units(c: Scalar): Utf16Text.Utf16 {
    var n := c as int;
    if n < 0x1_0000 then [n as Utf16Text.Unit]
    else [(0xD800 + (n - 0x1_0000) / 0x400) as Utf16Text.Unit, (0xDC00 + (n - 0x1_0000) % 0x400) as Utf16Text.Unit]
  }

  function UnitsOf(t: Text): Utf16Text.Utf16 {
    if t == [] then [] else Units(t[0]) + UnitsOf(t[1..])
  }

  lemma FirstUnits(c: Scalar, rest: Utf16Text.Utf16)
    ensures Utf16Text.FirstSize(Units(c) + rest) == Utf16Text.Size(|Units(c)|, Width(c))
  {
  }

  /** Counting the bytes of code units and of characters gives the same. */
  lemma {:induction false} BothCountsAgree(t: Text)
    ensures Utf16Text.ByteCount(UnitsOf(t)) == Utf8Length(t) == |EncodedText(t)|
  {
    EncodedTextHasLength(t);
    if t != [] {
      var first, rest := Units(t[0]), UnitsOf(t[1..]);
      FirstUnits(t[0], rest);
      assert (first + rest)[|first|..] == rest;
      BothCountsAgree(t[1..]);
    }
  }
}
