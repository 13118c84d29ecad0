/** UTF-8 sizes of UTF-16 strings, scanned forwards and backwards. */
module Utf16Text {
  import opened Sequences

  /** A UTF-16 code unit; surrogates may stand alone. */
  newtype Unit = x: int | 0 <= x < 0x1_0000
  type Utf16 = seq<Unit>

  predicate IsHigh(u: Unit) { 0xD800 <= u <= 0xDBFF }
  predicate IsLow(u: Unit) { 0xDC00 <= u <= 0xDFFF }

  /** How many code units a character takes, and how many bytes. */
  datatype Size = Size(units: nat, bytes: nat)

  function FirstSize(t: Utf16): (r: Size)
    requires t != []
    ensures 0 < r.units <= |t| && 0 < r.bytes
  {
    if t[0] <= 0x7F then Size(1, 1)
    else if t[0] <= 0x7FF then Size(1, 2)
    else if IsHigh(t[0]) && |t| > 1 && IsLow(t[1]) then Size(2, 4)
    else Size(1, 3)
  }

  function LastSize(t: Utf16): (r: Size)
    requires t != []
    ensures 0 < r.units <= |t| && 0 < r.bytes
  {
    var u := t[|t| - 1];
    if u <= 0x7F then Size(1, 1)
    else if u <= 0x7FF then Size(1, 2)
    else if IsLow(u) && |t| > 1 && IsHigh(t[|t| - 2]) then Size(2, 4)
    else Size(1, 3)
  }

  /** The size in UTF-8, character by character from the front; a surrogate that stands alone takes three bytes. */
  function ByteCount(t: Utf16): nat {
    if t == [] then 0 else FirstSize(t).bytes + ByteCount(t[FirstSize(t).units..])
  }

  /** A place that is not inside a surrogate pair. */
  predicate Boundary(t: Utf16, k: int) {
    0 <= k <= |t| && (0 < k < |t| ==> !(IsHigh(t[k - 1]) && IsLow(t[k])))
  }

  lemma FirstOfPrefix(t: Utf16, k: nat)
    requires Boundary(t, k) && 0 < k
    ensures var n := FirstSize(t).units;
      n <= k <= |t| && FirstSize(t[..k]) == FirstSize(t) && Boundary(t[n..], k - n)
  {
  }

  lemma CountFromFirst(t: Utf16, first: Size, rest: Utf16)
    requires t != [] && first == FirstSize(t) && rest == t[first.units..]
    ensures ByteCount(t) == first.bytes + ByteCount(rest)
  {
  }

  lemma EmptyPrefix(t: Utf16)
    ensures ByteCount(t[..0]) == 0 && t[0..] == t
  {
  }

  lemma {:induction false} BytesSplit(t: Utf16, k: nat)
    requires Boundary(t, k)
    ensures ByteCount(t) == ByteCount(t[..k]) + ByteCount(t[k..])
  {
    hide *;
    if k == 0 {
      EmptyPrefix(t);
    } else {
      FirstOfPrefix(t, k);
      var first := FirstSize(t);
      var rest := t[first.units..];
      TakeOfDrop(t, first.units, k);
      DropOfTake(t, first.units, k);
      DropDrop(t, first.units, k - first.units);
      CountFromFirst(t, first, rest);
      CountFromFirst(t[..k], first, rest[..k - first.units]);
      BytesSplit(rest, k - first.units);
    }
  }

  /** Both scans find the same characters: the last character backwards is the one the forward scan ends with. */
  lemma {:induction false} BackwardAgrees(t: Utf16)
    requires t != []
    ensures Boundary(t, |t| - LastSize(t).units)
    ensures ByteCount(t) == ByteCount(t[..|t| - LastSize(t).units]) + LastSize(t).bytes
  {
    var k := |t| - LastSize(t).units;
    BytesSplit(t, k);
    assert FirstSize(t[k..]) == LastSize(t);
    assert t[k..][LastSize(t).units..] == [];
  }

  /** Suffixes that start between characters grow with every character. */
  lemma LongerSuffix(t: Utf16, j: nat, k: nat)
    requires j < k <= |t| && Boundary(t, j) && Boundary(t, k)
    ensures ByteCount(t[j..]) > ByteCount(t[k..])
  {
    hide *;
    BoundaryInTail(t, j, k);
    TakeOfDrop(t, j, k);
    DropDrop(t, j, k - j);
    BytesSplit(t[j..], k - j);
    CountIsPositive(t[j..k]);
  }

  lemma BoundaryInTail(t: Utf16, j: nat, k: nat)
    requires j < k && Boundary(t, k)
    ensures Boundary(t[j..], k - j)
  {
  }

  lemma CountIsPositive(t: Utf16)
    requires t != []
    ensures ByteCount(t) > 0
  {
  }

  // ---------- the longest suffix that fits ----------

  /** Drops characters from the front until the rest fits. */
  function Suffix(t: Utf16, limit: int): Utf16 {
    if t == [] || ByteCount(t) <= limit then t else Suffix(t[FirstSize(t).units..], limit)
  }

  /** From start on it fits, and with one character more it does not. */
  ghost predicate IsCut(t: Utf16, limit: int, start: int) {
    && Boundary(t, start) && (ByteCount(t[start..]) <= limit || start == |t|)
    && (start > 0 ==> ByteCount(t[start - LastSize(t[..start]).units..]) > limit)
  }

  lemma LastSizeInSuffix(t: Utf16, from: nat, k: nat)
    requires Boundary(t, from) && from < k <= |t|
    ensures LastSize(t[from..k]) == LastSize(t[..k])
  {
  }

  lemma CutInTail(t: Utf16, limit: int, start: nat, n: nat)
    requires IsCut(t, limit, start) && Boundary(t, n) && n <= start
    ensures IsCut(t[n..], limit, start - n)
  {
    hide ByteCount, LastSize;
    DropDrop(t, n, start - n);
    if start > n {
      var last := LastSize(t[..start]).units;
      LastSizeInSuffix(t, n, start);
      TakeOfDrop(t, n, start);
      DropDrop(t, n, start - n - last);
    }
  }

  lemma CutLeavesTooMuch(t: Utf16, limit: int, start: nat)
    requires IsCut(t, limit, start) && start > 0
    ensures ByteCount(t) > limit
  {
    hide ByteCount;
    BackwardAgrees(t[..start]);
    var k := start - LastSize(t[..start]).units;
    assert Boundary(t, k) && t[0..] == t;
    if k > 0 { LongerSuffix(t, 0, k); }
  }

  lemma {:induction false} CutIsSuffix(t: Utf16, limit: int, start: nat)
    requires IsCut(t, limit, start)
    ensures Suffix(t, limit) == t[start..]
  {
    hide ByteCount, LastSize, IsCut;
    if start == 0 {
      WholeFits(t, limit);
      assert t[0..] == t;
    } else {
      CutAtBoundary(t, limit, start);
      var n := FirstSize(t).units;
      assert Boundary(t, n) && n <= start;
      CutLeavesTooMuch(t, limit, start);
      CutInTail(t, limit, start, n);
      CutIsSuffix(t[n..], limit, start - n);
      DropDrop(t, n, start - n);
    }
  }

  lemma CutAtBoundary(t: Utf16, limit: int, start: nat)
    requires IsCut(t, limit, start)
    ensures Boundary(t, start)
  {
  }

  lemma WholeFits(t: Utf16, limit: int)
    requires IsCut(t, limit, 0)
    ensures t == [] || ByteCount(t) <= limit
  {
    assert t[0..] == t;
  }

  lemma {:induction false} SuffixFits(t: Utf16, limit: int)
    requires limit >= 0
    ensures ByteCount(Suffix(t, limit)) <= limit && |Suffix(t, limit)| <= |t|
  {
    if t != [] && ByteCount(t) > limit { SuffixFits(t[FirstSize(t).units..], limit); }
  }

  // ---------- the two scans ----------

  method Utf8ByteLength(text: Utf16) returns (bytes: nat)
    ensures bytes == ByteCount(text)
  {
    bytes := 0;
    var index := 0;
    while index < |text|
      invariant 0 <= index <= |text| && bytes + ByteCount(text[index..]) == ByteCount(text)
    {
      ghost var at, before := index, bytes;
      var codeUnit := text[index];
      if codeUnit <= 0x7F {
        bytes := bytes + 1;
      } else if codeUnit <= 0x7FF {
        bytes := bytes + 2;
      } else if IsHigh(codeUnit) && index + 1 < |text| && IsLow(text[index + 1]) {
        bytes := bytes + 4;
        index := index + 1;
      } else {
        bytes := bytes + 3;
      }
      index := index + 1;
      assert FirstSize(text[at..]) == Size(index - at, bytes - before);
      DropDrop(text, at, index - at);
    }
  }

  method Utf8Suffix(text: Utf16, limitBytes: int) returns (suffix: Utf16)
    ensures suffix == if limitBytes <= 0 then [] else Suffix(text, limitBytes)
  {
    if limitBytes <= 0 { return []; }
    var start, retainedBytes := |text|, 0;
    while start > 0
      invariant Boundary(text, start) && retainedBytes == ByteCount(text[start..]) <= limitBytes
    {
      var codeUnits, bytes := 1, 3;
      var codeUnit := text[start - 1];
      if codeUnit <= 0x7F {
        bytes := 1;
      } else if codeUnit <= 0x7FF {
        bytes := 2;
      } else if IsLow(codeUnit) && start > 1 && IsHigh(text[start - 2]) {
        codeUnits, bytes := 2, 4;
      }
      assert LastSize(text[..start]) == Size(codeUnits, bytes);
      OneCharacterMore(text, start);
      if retainedBytes + bytes > limitBytes { break; }
      retainedBytes := retainedBytes + bytes;
      start := start - codeUnits;
    }
    CutIsSuffix(text, limitBytes, start);
    return text[start..];
  }

  lemma BoundaryInFront(t: Utf16, start: nat, k: nat)
    requires k < start && Boundary(t, start) && Boundary(t[..start], k)
    ensures Boundary(t, k) && t[..start][..k] == t[..k]
  {
  }

  lemma OneCharacterMore(t: Utf16, start: nat)
    requires 0 < start <= |t| && Boundary(t, start)
    ensures var last := LastSize(t[..start]);
      Boundary(t, start - last.units) && ByteCount(t[start - last.units..]) == ByteCount(t[start..]) + last.bytes
  {
    hide *;
    var last := LastSize(t[..start]);
    var k := start - last.units;
    BackwardAgrees(t[..start]);
    BoundaryInFront(t, start, k);
    BytesSplit(t, start);
    BytesSplit(t, k);
  }

  lemma {:induction false} BytesAdd(t: Utf16, u: Utf16)
    requires t == [] || u == [] || !(IsHigh(t[|t| - 1]) && IsLow(u[0]))
    ensures ByteCount(t + u) == ByteCount(t) + ByteCount(u)
  {
    assert (t + u)[..|t|] == t && (t + u)[|t|..] == u;
    BytesSplit(t + u, |t|);
  }
}
