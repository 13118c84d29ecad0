/** Terminal output kept up to a number of UTF-8 bytes. */
module BoundedHistory {
  import opened Basics
  import opened Sequences

  /** A Unicode scalar value. */
  newtype Scalar = x: int | 0 <= x < 0xD800 || 0xE000 <= x < 0x110000
  type Text = seq<Scalar>

  const BYTE_ORDER_MARK: Scalar := 0xFEFF

  function Width(c: Scalar): (n: nat)
    ensures 1 <= n <= 4
  {
    if c <= 0x7F then 1 else if c <= 0x7FF then 2 else if c <= 0xFFFF then 3 else 4
  }

  function Utf8Length(t: Text): nat {
    if t == [] then 0 else Width(t[0]) + Utf8Length(t[1..])
  }

  lemma {:induction false} LengthAdds(t: Text, u: Text)
    ensures Utf8Length(t + u) == Utf8Length(t) + Utf8Length(u)
  {
    if t == [] {
      assert t + u == u;
    } else {
      assert (t + u)[1..] == t[1..] + u;
      LengthAdds(t[1..], u);
    }
  }

  // ---------- the longest suffix that fits ----------

  function LongestSuffix(t: Text, limit: nat): Text {
    if Utf8Length(t) <= limit then t else LongestSuffix(t[1..], limit)
  }

  /** The suffix after k characters fits, and with one character more it does not. */
  ghost predicate IsLongestAfter(t: Text, limit: nat, k: nat) {
    k <= |t| && Utf8Length(t[k..]) <= limit && (k > 0 ==> Utf8Length(t[k - 1..]) > limit)
  }

  lemma {:induction false} ShorterSuffixesAreSmaller(t: Text, j: nat, k: nat)
    requires j <= k <= |t|
    ensures Utf8Length(t[k..]) + (k - j) <= Utf8Length(t[j..])
    decreases k - j
  {
    if j < k {
      assert t[j..][1..] == t[j + 1..];
      ShorterSuffixesAreSmaller(t, j + 1, k);
    }
  }

  lemma {:induction false} LongestSuffixIs(t: Text, limit: nat, k: nat)
    requires IsLongestAfter(t, limit, k)
    ensures LongestSuffix(t, limit) == t[k..]
  {
    if k > 0 {
      assert t[1..][k - 1..] == t[k..] && (k > 1 ==> t[1..][k - 2..] == t[k - 1..]);
      ShorterSuffixesAreSmaller(t, 0, k - 1);
      assert t[0..] == t;
      LongestSuffixIs(t[1..], limit, k - 1);
    }
  }

  lemma {:induction false} LongestSuffixExists(t: Text, limit: nat) returns (k: nat)
    ensures IsLongestAfter(t, limit, k) && LongestSuffix(t, limit) == t[k..]
  {
    if Utf8Length(t) <= limit {
      k := 0;
    } else {
      k := LongestSuffixExists(t[1..], limit);
      assert t[1..][k..] == t[k + 1..];
      if k > 0 { assert t[1..][k - 1..] == t[k..]; } else { assert t[0..] == t; }
      k := k + 1;
    }
  }

  /** What was dropped before is not needed later. */
  lemma DroppingTwice(t: Text, u: Text, limit: nat)
    ensures LongestSuffix(LongestSuffix(t, limit) + u, limit) == LongestSuffix(t + u, limit)
  {
    hide Utf8Length, LongestSuffix;
    var k := LongestSuffixExists(t, limit);
    var s := LongestSuffix(t, limit) + u;
    var j := LongestSuffixExists(s, limit);
    var both := t + u;
    assert s == both[k..];
    assert s[j..] == both[k + j..];
    if j > 0 {
      assert s[j - 1..] == both[k + j - 1..];
    } else if k > 0 {
      assert both[k - 1..] == t[k - 1..] + u;
      LengthAdds(t[k - 1..], u);
    }
    LongestSuffixIs(both, limit, k + j);
  }

  // ---------- cutting at a byte ----------

  /** The characters of the last n bytes, if they start at a character boundary. */
  function TailOfSize(t: Text, n: nat): Option<Text> {
    if Utf8Length(t) == n then Some(t)
    else if t == [] || Utf8Length(t) < n then None
    else TailOfSize(t[1..], n)
  }

  lemma {:induction false} TailsAreSuffixes(t: Text, n: nat, k: nat)
    requires k <= |t| && Utf8Length(t[k..]) == n
    ensures TailOfSize(t, n) == Some(t[k..])
  {
    hide Utf8Length;
    assert t[0..] == t;
    if k > 0 {
      ShorterSuffixesAreSmaller(t, 0, k);
      DropDrop(t, 1, k - 1);
      TailsAreSuffixes(t[1..], n, k - 1);
    }
  }

  lemma {:induction false} OnlySuffixesAreTails(t: Text, n: nat) returns (k: nat)
    requires TailOfSize(t, n).Some?
    ensures k <= |t| && TailOfSize(t, n) == Some(t[k..]) && Utf8Length(t[k..]) == n
  {
    if Utf8Length(t) == n {
      k := 0;
    } else {
      k := OnlySuffixesAreTails(t[1..], n);
      assert t[1..][k..] == t[k + 1..];
      k := k + 1;
    }
  }

  /** TextDecoder.decode of the last n bytes: fatal inside a character, and a leading byte order mark is dropped. */
  function DecodedTail(t: Text, n: nat): Option<Text> {
    match TailOfSize(t, n)
    case None => None
    case Some(tail) => Some(if tail != [] && tail[0] == BYTE_ORDER_MARK then tail[1..] else tail)
  }

  /** The first tail tried that decodes is the longest that fits. */
  lemma FirstTail(t: Text, limit: nat, k: nat, n: nat)
    requires IsLongestAfter(t, limit, k) && Utf8Length(t[k..]) <= n <= limit && TailOfSize(t, n).Some?
    ensures TailOfSize(t, n) == Some(t[k..])
  {
    var j := OnlySuffixesAreTails(t, n);
    if j < k { ShorterSuffixesAreSmaller(t, j, k - 1); }
    if k < j { ShorterSuffixesAreSmaller(t, k, j); }
  }

  function WithoutMark(t: Text): Text {
    if t != [] && t[0] == BYTE_ORDER_MARK then t[1..] else t
  }

  /** What is kept when a value arrives. */
  function Appended(current: Text, value: Text, limit: nat): Text {
    if Utf8Length(value) >= limit then WithoutMark(LongestSuffix(value, limit))
    else LongestSuffix(current + value, limit)
  }

  /** Tries one byte after the other until what is left decodes. */
  method DecodeLastBytes(value: Text, limit: nat) returns (bounded: Text)
    requires Utf8Length(value) >= limit
    ensures bounded == WithoutMark(LongestSuffix(value, limit))
  {
    hide Utf8Length, LongestSuffix, TailOfSize;
    var valueBytes := Utf8Length(value);
    var offset := valueBytes - limit;
    ghost var k := LongestSuffixExists(value, limit);
    while offset < valueBytes
      invariant valueBytes - limit <= offset <= valueBytes && Utf8Length(value[k..]) <= valueBytes - offset
    {
      var decoded := DecodedTail(value, valueBytes - offset);
      if decoded.Some? {
        FirstTail(value, limit, k, valueBytes - offset);
        return decoded.value;
      }
      if Utf8Length(value[k..]) == valueBytes - offset { TailsAreSuffixes(value, valueBytes - offset, k); }
      offset := offset + 1;
    }
    ShorterSuffixesAreSmaller(value, k, |value|);
    return [];
  }

  method AppendBounded(current: Text, currentBytes: nat, value: Text, limit: nat) returns (bounded: Text, bytes: nat)
    requires currentBytes == Utf8Length(current)
    ensures bounded == Appended(current, value, limit) && bytes == Utf8Length(bounded)
  {
    hide Utf8Length, LongestSuffix, WithoutMark;
    var valueBytes := Utf8Length(value);
    if valueBytes >= limit {
      bounded := DecodeLastBytes(value, limit);
      return bounded, Utf8Length(bounded);
    }
    LengthAdds(current, value);
    var overflow := currentBytes + valueBytes - limit;
    if overflow <= 0 {
      Fits(current + value, limit);
      return current + value, currentBytes + valueBytes;
    }
    var removedBytes, offset := 0, 0;
    assert current[0..] == current;
    while offset < |current| && removedBytes < overflow
      invariant offset <= |current| && removedBytes + Utf8Length(current[offset..]) == currentBytes
      invariant offset > 0 ==> Utf8Length(current[offset - 1..]) + valueBytes > limit
    {
      FirstCharacter(current[offset..]);
      assert current[offset..][1..] == current[offset + 1..];
      removedBytes := removedBytes + Width(current[offset]);
      offset := offset + 1;
    }
    FirstCharacter(current[offset..]);
    SuffixAfterRemoval(current, value, limit, offset);
    bounded := current[offset..] + value;
    bytes := currentBytes - removedBytes + valueBytes;
  }

  lemma Fits(t: Text, limit: nat)
    requires Utf8Length(t) <= limit
    ensures LongestSuffix(t, limit) == t
  {
  }

  lemma FirstCharacter(t: Text)
    ensures Utf8Length(t) == if t == [] then 0 else Width(t[0]) + Utf8Length(t[1..])
  {
  }

  lemma SuffixAfterRemoval(current: Text, value: Text, limit: nat, k: nat)
    requires 0 < k <= |current| && Utf8Length(current[k..]) + Utf8Length(value) <= limit
    requires Utf8Length(current[k - 1..]) + Utf8Length(value) > limit
    ensures LongestSuffix(current + value, limit) == current[k..] + value
    ensures Utf8Length(current[k..] + value) == Utf8Length(current[k..]) + Utf8Length(value)
  {
    hide Utf8Length, LongestSuffix;
    var both := current + value;
    assert both[k..] == current[k..] + value && both[k - 1..] == current[k - 1..] + value;
    LengthAdds(current[k..], value);
    LengthAdds(current[k - 1..], value);
    LongestSuffixIs(both, limit, k);
  }

  // ---------- many appends ----------

  /** The append throws away a byte order mark that it should have kept. */
  predicate CutsBeforeMark(value: Text, limit: nat) {
    Utf8Length(value) >= limit && LongestSuffix(value, limit) != [] && LongestSuffix(value, limit)[0] == BYTE_ORDER_MARK
  }

  /** One append keeps the longest suffix that fits, unless it cuts in front of a byte order mark. */
  lemma AppendKeepsLongestSuffix(current: Text, value: Text, limit: nat)
    ensures Appended(current, value, limit) == LongestSuffix(current + value, limit) <==> !CutsBeforeMark(value, limit)
  {
    if Utf8Length(value) >= limit {
      var k := LongestSuffixExists(value, limit);
      var both := current + value;
      assert both[|current| + k..] == value[k..];
      if k > 0 {
        assert both[|current| + k - 1..] == value[k - 1..];
      } else if current != [] {
        assert value[0..] == value;
        assert both[|current| - 1..] == [current[|current| - 1]] + value;
        LengthAdds([current[|current| - 1]], value);
      }
      LongestSuffixIs(both, limit, |current| + k);
    }
  }

  /** A value as long as the limit that starts with a mark: the mark would fit, and is lost. */
  lemma MarkIsLost(current: Text, rest: Text)
    ensures var value, limit := [BYTE_ORDER_MARK] + rest, 3 + Utf8Length(rest);
            && CutsBeforeMark(value, limit)
            && Appended(current, value, limit) == rest
            && LongestSuffix(current + value, limit) == value
  {
    var value, limit := [BYTE_ORDER_MARK] + rest, 3 + Utf8Length(rest);
    assert value[1..] == rest;
    Fits(value, limit);
    var both, k := current + value, |current|;
    assert both[k..] == value;
    if k > 0 {
      assert both[k - 1..] == [current[k - 1]] + value;
      LengthAdds([current[k - 1]], value);
    }
    LongestSuffixIs(both, limit, k);
  }

  function Flatten(values: seq<Text>): Text {
    if values == [] then [] else Flatten(values[..|values| - 1]) + values[|values| - 1]
  }

  /** The history after appending one value after the other. */
  function Kept(values: seq<Text>, limit: nat): Text {
    if values == [] then [] else Appended(Kept(values[..|values| - 1], limit), values[|values| - 1], limit)
  }

  /** The history is the longest suffix of everything appended at all times, exactly if no append cuts before a mark. */
  lemma {:induction false} HistoryIsLongestSuffix(values: seq<Text>, limit: nat)
    ensures (forall i | 0 <= i <= |values| :: Kept(values[..i], limit) == LongestSuffix(Flatten(values[..i]), limit))
      <==> forall i | 0 <= i < |values| :: !CutsBeforeMark(values[i], limit)
  {
    hide Appended, CutsBeforeMark, LongestSuffix;
    if values == [] {
      Fits([], limit);
    } else {
      var n := |values| - 1;
      var front := values[..n];
      HistoryIsLongestSuffix(front, limit);
      assert forall i | 0 <= i <= n :: front[..i] == values[..i];
      assert values[..n + 1] == values;
      AppendKeepsLongestSuffix(Kept(front, limit), values[n], limit);
      if Kept(front, limit) == LongestSuffix(Flatten(front), limit) { DroppingTwice(Flatten(front), values[n], limit); }
      assert forall i | 0 <= i < n :: front[i] == values[i];
    }
  }

  lemma {:induction false} SuffixCharacters(t: Text, limit: nat, c: Scalar)
    requires c in LongestSuffix(t, limit)
    ensures c in t
  {
    if Utf8Length(t) > limit { SuffixCharacters(t[1..], limit, c); }
  }

  /** Without byte order marks the history is always right. */
  lemma HistoryWithoutMarks(values: seq<Text>, limit: nat)
    requires forall i | 0 <= i < |values| :: BYTE_ORDER_MARK !in values[i]
    ensures Kept(values, limit) == LongestSuffix(Flatten(values), limit)
  {
    forall i | 0 <= i < |values| ensures !CutsBeforeMark(values[i], limit) {
      if CutsBeforeMark(values[i], limit) { SuffixCharacters(values[i], limit, BYTE_ORDER_MARK); }
    }
    HistoryIsLongestSuffix(values, limit);
    assert values[..|values|] == values;
  }
}
