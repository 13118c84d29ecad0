/** The bounded debug trace, which keeps its latest snapshot while older and newer chunks are evicted. */
module TraceCollector {
  import opened Basics
  import opened Utf16Text
  import opened Sequences

  /** "[vfs-debug] snapshot " */
  const MARKER: Utf16 := [
    91, 118, 102, 115, 45, 100, 101, 98, 117, 103, 93, 32, 115, 110, 97, 112, 115, 104, 111, 116, 32]
  const NEWLINE: Unit := 10
  const CARRIAGE_RETURN: Unit := 13

  // ---------- searching ----------

  predicate At(t: Utf16, s: Utf16, i: int) {
    0 <= i <= |t| - |s| && t[i..i + |s|] == s
  }

  predicate Includes(t: Utf16, s: Utf16) {
    exists i :: 0 <= i <= |t| && At(t, s, i)
  }

  function LastIndexOf(t: Utf16, s: Utf16, below: int): (r: int)
    ensures r >= 0 ==> r < below && At(t, s, r) && forall i | r < i < below :: !At(t, s, i)
    ensures r < 0 ==> forall i | i < below :: !At(t, s, i)
    decreases below
  {
    if below <= 0 then -1 else if At(t, s, below - 1) then below - 1 else LastIndexOf(t, s, below - 1)
  }

  function LineEnd(t: Utf16, from: nat): (r: nat)
    requires from <= |t|
    ensures from <= r <= |t| && NEWLINE !in t[from..r]
    decreases |t| - from
  {
    if from == |t| || t[from] == NEWLINE then from
    else
      var r := LineEnd(t, from + 1);
      assert t[from..r] == [t[from]] + t[from + 1..r];
      r
  }

  function WithoutReturn(t: Utf16): Utf16 {
    if t != [] && t[|t| - 1] == CARRIAGE_RETURN then t[..|t| - 1] else t
  }

  /** The line of the last snapshot in a chunk. */
  function LatestSnapshot(chunk: Utf16): Utf16 {
    var start := LastIndexOf(chunk, MARKER, |chunk| + 1);
    if start < 0 then [] else WithoutReturn(chunk[start..LineEnd(chunk, start)])
  }

  /**
   * The line starts at the last marker of the chunk and runs to the end of its line, without a carriage return there.
   */
  lemma LatestSnapshotIsLastLine(chunk: Utf16, start: nat, end: nat)
    requires At(chunk, MARKER, start) && forall i | i > start :: !At(chunk, MARKER, i)
    requires start <= end <= |chunk| && NEWLINE !in chunk[start..end] && (end < |chunk| ==> chunk[end] == NEWLINE)
    ensures LatestSnapshot(chunk) ==
            if start < end && chunk[end - 1] == CARRIAGE_RETURN then chunk[start..end - 1] else chunk[start..end]
  {
    hide LastIndexOf, LineEnd, At;
    LastMarker(chunk, start);
    LineEndIs(chunk, start, end);
    if start < end { TakeOfSlice(chunk, start, end, end - 1 - start); }
  }

  lemma LastMarker(chunk: Utf16, start: nat)
    requires At(chunk, MARKER, start) && forall i | i > start :: !At(chunk, MARKER, i)
    ensures LastIndexOf(chunk, MARKER, |chunk| + 1) == start
  {
    assert start < |chunk| + 1;
  }

  lemma {:induction false} LineEndIs(t: Utf16, from: nat, end: nat)
    requires from <= end <= |t| && NEWLINE !in t[from..end] && (end < |t| ==> t[end] == NEWLINE)
    ensures LineEnd(t, from) == end
    decreases end - from
  {
    if from < end {
      assert t[from..end] == [t[from]] + t[from + 1..end];
      LineEndIs(t, from + 1, end);
    }
  }

  predicate IsPriority(chunk: Utf16) {
    Includes(chunk, MARKER)
  }

  lemma NoNewlineInMarker(chunk: Utf16, start: nat)
    requires At(chunk, MARKER, start)
    ensures LineEnd(chunk, start) >= start + |MARKER|
  {
    var end := LineEnd(chunk, start);
    LineEndsAtNewline(chunk, start);
    forall k | 0 <= k < |MARKER| ensures chunk[start + k] == MARKER[k] != NEWLINE {
      assert chunk[start..start + |MARKER|][k] == chunk[start + k];
    }
  }

  lemma LineEndsAtNewline(t: Utf16, from: nat)
    requires from <= |t|
    ensures LineEnd(t, from) < |t| ==> t[LineEnd(t, from)] == NEWLINE
    decreases |t| - from
  {
  }

  /** A snapshot line starts with the marker. */
  lemma SnapshotStartsWithMarker(chunk: Utf16)
    ensures LatestSnapshot(chunk) != [] ==> MARKER <= LatestSnapshot(chunk)
    ensures LatestSnapshot(chunk) != [] <==> IsPriority(chunk)
  {
    var start := LastIndexOf(chunk, MARKER, |chunk| + 1);
    if start >= 0 {
      NoNewlineInMarker(chunk, start);
      var line := chunk[start..LineEnd(chunk, start)];
      TakeOfSlice(chunk, start, LineEnd(chunk, start), |MARKER|);
      assert line[..|MARKER|] == MARKER;
      assert line[|MARKER| - 1] == MARKER[|MARKER| - 1];
    }
  }

  lemma IncludesThrough(t: Utf16, s: Utf16, u: Utf16)
    requires Includes(t, s) && u <= s
    ensures Includes(t, u)
  {
    var i :| 0 <= i <= |t| && At(t, s, i);
    assert t[i..i + |u|] == s[..|u|] == u;
    assert At(t, u, i);
  }

  // ---------- what is kept of a chunk ----------

  function Suffixed(t: Utf16, limit: int): Utf16 {
    if limit <= 0 then [] else Suffix(t, limit)
  }

  /** A chunk that is too big is cut to its last part, behind its latest snapshot if that fits and would be lost. */
  function Cut(chunk: Utf16, limit: nat): Utf16 {
    if ByteCount(chunk) <= limit then chunk
    else
      var snapshot, text := LatestSnapshot(chunk), Suffixed(chunk, limit);
      if snapshot != [] && ByteCount(snapshot) <= limit && !Includes(text, snapshot) then
        var separator := if ByteCount(snapshot) < limit then 1 else 0;
        var recent := Suffixed(chunk, limit - ByteCount(snapshot) - separator);
        snapshot + if recent == [] then [] else [NEWLINE] + recent
      else text
  }

  lemma OneNewlineIsOneByte()
    ensures ByteCount([NEWLINE]) == 1
  {
    assert ByteCount([NEWLINE]) == 1 + ByteCount([NEWLINE][1..]);
  }

  lemma CutFits(chunk: Utf16, limit: nat)
    ensures ByteCount(Cut(chunk, limit)) <= limit
  {
    hide Suffix, LatestSnapshot, Includes, FirstSize;
    var snapshot := LatestSnapshot(chunk);
    if ByteCount(chunk) > limit {
      if limit > 0 { SuffixFits(chunk, limit); }
      var room := limit - ByteCount(snapshot) - if ByteCount(snapshot) < limit then 1 else 0;
      var recent := Suffixed(chunk, room);
      if room > 0 { SuffixFits(chunk, room); }
      BytesAdd([NEWLINE], recent);
      OneNewlineIsOneByte();
      BytesAdd(snapshot, [NEWLINE] + recent);
      assert snapshot + [] == snapshot;
    }
  }

  /** A snapshot that fits survives the cut. */
  lemma CutKeepsSnapshot(chunk: Utf16, limit: nat)
    requires LatestSnapshot(chunk) != [] && ByteCount(LatestSnapshot(chunk)) <= limit
    ensures Includes(Cut(chunk, limit), LatestSnapshot(chunk)) && IsPriority(Cut(chunk, limit))
  {
    var snapshot, text := LatestSnapshot(chunk), Cut(chunk, limit);
    SnapshotStartsWithMarker(chunk);
    if ByteCount(chunk) <= limit {
      SnapshotIsIncluded(chunk);
    } else if !Includes(Suffixed(chunk, limit), snapshot) {
      assert text[0..|snapshot|] == snapshot;
      assert At(text, snapshot, 0);
    }
    IncludesThrough(text, snapshot, MARKER);
  }

  lemma SnapshotIsIncluded(chunk: Utf16)
    requires LatestSnapshot(chunk) != []
    ensures Includes(chunk, LatestSnapshot(chunk))
  {
    var start, snapshot := LastIndexOf(chunk, MARKER, |chunk| + 1), LatestSnapshot(chunk);
    var end := LineEnd(chunk, start);
    TakeOfSlice(chunk, start, end, |snapshot|);
    assert snapshot == chunk[start..end][..|snapshot|];
    assert At(chunk, snapshot, start);
  }

  lemma {:induction false} SuffixIsPart(t: Utf16, limit: int, s: Utf16)
    requires Includes(Suffix(t, limit), s)
    ensures Includes(t, s)
  {
    if t != [] && ByteCount(t) > limit {
      var n := FirstSize(t).units;
      SuffixIsPart(t[n..], limit, s);
      var i :| 0 <= i <= |t[n..]| && At(t[n..], s, i);
      DropDrop(t, n, i);
      TakeOfDrop(t, n + i, n + i + |s|);
      TakeOfDrop(t[n..], i, i + |s|);
      assert At(t, s, n + i);
    }
  }

  /** Cutting makes no snapshot out of a chunk that has none. */
  lemma CutMakesNoSnapshot(chunk: Utf16, limit: nat)
    requires IsPriority(Cut(chunk, limit))
    ensures IsPriority(chunk)
  {
    SnapshotStartsWithMarker(chunk);
    if LatestSnapshot(chunk) == [] && ByteCount(chunk) > limit {
      var i :| 0 <= i <= |Suffixed(chunk, limit)| && At(Suffixed(chunk, limit), MARKER, i);
      if limit > 0 { SuffixIsPart(chunk, limit, MARKER); }
    }
  }

  // ---------- retained chunks ----------

  /** A retained chunk; id tells equal chunks apart. */
  datatype Chunk = Chunk(id: nat, text: Utf16, bytes: nat, priority: bool)

  function Total(chunks: seq<Chunk>): nat {
    if chunks == [] then 0 else chunks[0].bytes + Total(chunks[1..])
  }

  lemma {:induction false} TotalAdds(a: seq<Chunk>, b: seq<Chunk>)
    ensures Total(a + b) == Total(a) + Total(b)
  {
    if a == [] {
      assert a + b == b;
    } else {
      assert (a + b)[1..] == a[1..] + b;
      TotalAdds(a[1..], b);
    }
  }

  /** Everything from the n-th chunk on, and the latest snapshot in front of it if that is older. */
  function Without(chunks: seq<Chunk>, latest: Option<Chunk>, n: nat): seq<Chunk>
    requires n <= |chunks|
  {
    (if latest.Some? && latest.value in chunks[..n] then [latest.value] else []) + chunks[n..]
  }

  ghost predicate Increasing(chunks: seq<Chunk>) {
    forall i, j | 0 <= i < j < |chunks| :: chunks[i].id < chunks[j].id
  }

  /** As few of the oldest chunks as possible are gone, never the latest snapshot. */
  ghost predicate IsEvicted(all: seq<Chunk>, latest: Option<Chunk>, limit: nat, n: nat, chunks: seq<Chunk>) {
    && n <= |all| && chunks == Without(all, latest, n) && Total(chunks) <= limit
    && forall m | 0 <= m < n :: Total(Without(all, latest, m)) > limit
  }

  lemma NothingGone(all: seq<Chunk>, latest: Option<Chunk>)
    ensures Without(all, latest, 0) == all
  {
    assert all[..0] == [] && all[0..] == all;
  }

  /** Where the n-th chunk stands when the older ones are gone. */
  function Front(all: seq<Chunk>, latest: Option<Chunk>, n: nat): nat
    requires n <= |all|
  {
    if latest.Some? && latest.value in all[..n] then 1 else 0
  }

  /** Passing over the latest snapshot removes nothing. */
  lemma LatestIsSkipped(all: seq<Chunk>, latest: Option<Chunk>, n: nat)
    requires Increasing(all) && n < |all| && latest == Some(all[n])
    ensures Without(all, latest, n + 1) == Without(all, latest, n)
    ensures forall m | n < m < |all| :: Some(all[m]) != latest
  {
    assert all[..n + 1] == all[..n] + [all[n]];
    assert forall i | 0 <= i < n :: all[i].id < all[n].id;
    assert all[n] !in all[..n];
    assert all[n..] == [all[n]] + all[n + 1..];
  }

  /** Removing the first chunk that is not the latest snapshot. */
  lemma OneMoreGone(all: seq<Chunk>, latest: Option<Chunk>, n: nat)
    requires n < |all| && latest != Some(all[n])
    ensures var before, k := Without(all, latest, n), Front(all, latest, n);
      && k < |before| && before[k] == all[n] && (forall i | 0 <= i < k :: Some(before[i]) == latest)
      && before[..k] + before[k + 1..] == Without(all, latest, n + 1)
      && Total(Without(all, latest, n + 1)) + all[n].bytes == Total(before)
  {
    var before, k := Without(all, latest, n), Front(all, latest, n);
    assert all[..n + 1] == all[..n] + [all[n]];
    assert before == before[..k] + ([all[n]] + all[n + 1..]);
    assert Without(all, latest, n + 1) == before[..k] + all[n + 1..];
    TotalAdds(before[..k], [all[n]] + all[n + 1..]);
    TotalAdds([all[n]], all[n + 1..]);
    TotalAdds(before[..k], all[n + 1..]);
    assert Total([all[n]]) == all[n].bytes + Total([all[n]][1..]);
  }

  lemma {:induction false} TextsOf(chunks: seq<Chunk>, k: nat)
    requires k < |chunks|
    ensures forall s | Includes(chunks[k].text, s) :: Includes(Joined(chunks), s)
  {
    forall s | Includes(chunks[k].text, s) ensures Includes(Joined(chunks), s) {
      if k == 0 {
        IncludedInSum([], chunks[0].text, Joined(chunks[1..]), s);
        assert [] + chunks[0].text + Joined(chunks[1..]) == Joined(chunks);
      } else {
        TextsOf(chunks[1..], k - 1);
        IncludedInSum(chunks[0].text, Joined(chunks[1..]), [], s);
        assert chunks[0].text + Joined(chunks[1..]) + [] == Joined(chunks);
      }
    }
  }

  lemma IncludedInSum(a: Utf16, t: Utf16, b: Utf16, s: Utf16)
    requires Includes(t, s)
    ensures Includes(a + t + b, s)
  {
    var i :| 0 <= i <= |t| && At(t, s, i);
    assert (a + t + b)[|a| + i..|a| + i + |s|] == t[i..i + |s|];
    assert At(a + t + b, s, |a| + i);
  }

  function Joined(chunks: seq<Chunk>): Utf16 {
    if chunks == [] then [] else chunks[0].text + Joined(chunks[1..])
  }

  class VfsDebugTraceCollector {
    const limitBytes: nat
    var chunks: seq<Chunk>
    var retainedBytes: nat
    var droppedChunks: nat
    var latestPriority: Option<Chunk>
    var nextId: nat

    ghost predicate Valid()
      reads this
    {
      && Total(chunks) == retainedBytes <= limitBytes
      && Increasing(chunks) && (forall c | c in chunks :: IsChunk(c, nextId, limitBytes))
      && (latestPriority.Some? ==> latestPriority.value in chunks && latestPriority.value.priority)
    }

    constructor (limit: int)
      ensures Valid() && chunks == [] && latestPriority == None && droppedChunks == 0
      ensures limitBytes == if limit < 0 then 0 else limit
    {
      limitBytes := if limit < 0 then 0 else limit;
      chunks, retainedBytes, droppedChunks, latestPriority, nextId := [], 0, 0, None, 0;
    }

    /**
     * Adds a chunk and evicts the oldest others until everything fits again.  The latest snapshot stays, and a snapshot
     * that fits becomes the latest one with its whole line.
     */
    method Push(chunk: Utf16)
      requires Valid()
      modifies this
      ensures Valid()
      ensures Cut(chunk, limitBytes) == [] ==> chunks == old(chunks) && latestPriority == old(latestPriority)
      ensures Cut(chunk, limitBytes) != [] ==>
        var text := Cut(chunk, limitBytes);
        var added := Chunk(old(nextId), text, ByteCount(text), IsPriority(text));
        && latestPriority == (if added.priority then Some(added) else old(latestPriority))
        && exists n :: IsEvicted(old(chunks) + [added], latestPriority, limitBytes, n, chunks)
      ensures droppedChunks == old(droppedChunks)
                + (if ByteCount(chunk) > limitBytes then 1 else 0)
                + |old(chunks)| + (if Cut(chunk, limitBytes) == [] then 0 else 1) - |chunks|
      ensures !IsPriority(chunk) ==> latestPriority == old(latestPriority)
      ensures LatestSnapshot(chunk) != [] && ByteCount(LatestSnapshot(chunk)) <= limitBytes ==>
        latestPriority.Some? && Includes(latestPriority.value.text, LatestSnapshot(chunk))
    {
      hide Total, Increasing, ByteCount, Suffix, LastIndexOf, Includes, LatestSnapshot;
      if chunk == [] {
        EmptyChunk();
        return;
      }
      var text, bytes, dropped := CutChunk(chunk);
      CutFits(chunk, limitBytes);
      if IsPriority(text) { CutMakesNoSnapshot(chunk, limitBytes); }
      if LatestSnapshot(chunk) != [] && ByteCount(LatestSnapshot(chunk)) <= limitBytes {
        CutKeepsSnapshot(chunk, limitBytes);
      }
      if dropped { droppedChunks := droppedChunks + 1; }
      if text == [] {
        EmptyIsNoPriority();
        return;
      }
      Retain(text, bytes);
    }

    /** The text that is kept of a chunk, its size, and whether something was cut off. */
    method CutChunk(chunk: Utf16) returns (text: Utf16, bytes: nat, dropped: bool)
      ensures text == Cut(chunk, limitBytes) && bytes == ByteCount(text) && dropped == (ByteCount(chunk) > limitBytes)
    {
      text := chunk;
      bytes := Utf8ByteLength(text);
      if bytes <= limitBytes { return text, bytes, false; }
      var prioritySnapshot := LatestSnapshot(text);
      var priorityBytes := Utf8ByteLength(prioritySnapshot);
      text := Utf8Suffix(text, limitBytes);
      if prioritySnapshot != [] && priorityBytes <= limitBytes && !Includes(text, prioritySnapshot) {
        var separatorBytes := if priorityBytes < limitBytes then 1 else 0;
        var recent := Utf8Suffix(chunk, limitBytes - priorityBytes - separatorBytes);
        text := prioritySnapshot + if recent == [] then [] else [NEWLINE] + recent;
      }
      bytes := Utf8ByteLength(text);
      return text, bytes, true;
    }

    method Retain(text: Utf16, bytes: nat)
      requires Valid() && text != [] && bytes == ByteCount(text) <= limitBytes
      modifies this
      ensures Valid()
      ensures var added := Chunk(old(nextId), text, bytes, IsPriority(text));
        && latestPriority == (if added.priority then Some(added) else old(latestPriority))
        && exists n :: IsEvicted(old(chunks) + [added], latestPriority, limitBytes, n, chunks)
      ensures droppedChunks == old(droppedChunks) + |old(chunks)| + 1 - |chunks|
    {
      hide Total, ByteCount, IsPriority;
      var retained := Chunk(nextId, text, bytes, IsPriority(text));
      AddedIsIncreasing(chunks, retained);
      TotalAdds(chunks, [retained]);
      TotalOfOne(retained);
      nextId := nextId + 1;
      chunks := chunks + [retained];
      retainedBytes := retainedBytes + bytes;
      if retained.priority { latestPriority := Some(retained); }
      Evict();
    }

    method Evict()
      requires Total(chunks) == retainedBytes && Increasing(chunks)
      requires forall c | c in chunks :: IsChunk(c, nextId, limitBytes)
      requires latestPriority.Some? ==> latestPriority.value in chunks && latestPriority.value.priority
      modifies this`chunks, this`retainedBytes, this`droppedChunks
      ensures Valid() && exists n :: IsEvicted(old(chunks), latestPriority, limitBytes, n, chunks)
      ensures droppedChunks == old(droppedChunks) + |old(chunks)| - |chunks|
    {
      hide Total, Increasing, IsChunk, Without, Front;
      ghost var all, n := chunks, 0;
      NothingGone(all, latestPriority);
      while retainedBytes > limitBytes
        invariant n <= |all| && chunks == Without(all, latestPriority, n) && Total(chunks) == retainedBytes
        invariant droppedChunks == old(droppedChunks) + |all| - |chunks|
        invariant forall m | 0 <= m < n :: Total(Without(all, latestPriority, m)) > limitBytes
        decreases |all| - n
      {
        if n < |all| && latestPriority == Some(all[n]) {
          LatestIsSkipped(all, latestPriority, n);
          n := n + 1;
        }
        if n == |all| { LatestFits(all, latestPriority, nextId, limitBytes); }
        OneMoreGone(all, latestPriority, n);
        var evictIndex := IndexOfOther();
        // There always is one: the fallback to the first chunk, and losing the latest snapshot to it, never happen.
        assert evictIndex == Front(all, latestPriority, n);
        retainedBytes := retainedBytes - chunks[evictIndex].bytes;
        chunks := chunks[..evictIndex] + chunks[evictIndex + 1..];
        droppedChunks := droppedChunks + 1;
        n := n + 1;
      }
      LatestStays(all, latestPriority, n);
      assert IsEvicted(all, latestPriority, limitBytes, n, chunks);
    }

    /** The oldest chunk that is not the latest snapshot. */
    method IndexOfOther() returns (index: int)
      ensures -1 <= index < |chunks|
      ensures index >= 0 ==>
        Some(chunks[index]) != latestPriority && forall i | 0 <= i < index :: Some(chunks[i]) == latestPriority
      ensures index < 0 ==> forall i | 0 <= i < |chunks| :: Some(chunks[i]) == latestPriority
    {
      for i := 0 to |chunks|
        invariant forall k | 0 <= k < i :: Some(chunks[k]) == latestPriority
      {
        if Some(chunks[i]) != latestPriority { return i; }
      }
      return -1;
    }

    /** The latest snapshot is in the trace. */
    method Snapshot() returns (trace: Utf16, dropped: nat, retained: nat)
      requires Valid()
      ensures trace == Joined(chunks) && dropped == droppedChunks && retained == Total(chunks) <= limitBytes
      ensures latestPriority.Some? ==> forall s | Includes(latestPriority.value.text, s) :: Includes(trace, s)
    {
      if latestPriority.Some? {
        var k :| 0 <= k < |chunks| && chunks[k] == latestPriority.value;
        TextsOf(chunks, k);
      }
      return Joined(chunks), droppedChunks, retainedBytes;
    }
  }

  lemma EmptyChunk()
    ensures ByteCount([]) == 0 && forall limit: nat :: Cut([], limit) == []
    ensures LatestSnapshot([]) == []
  {
    assert ByteCount([]) == 0;
    SnapshotStartsWithMarker([]);
    assert forall i | 0 <= i <= 0 :: !At([], MARKER, i);
  }

  lemma EmptyIsNoPriority()
    ensures !IsPriority([])
  {
  }

  lemma AddedIsIncreasing(chunks: seq<Chunk>, added: Chunk)
    requires Increasing(chunks) && forall c | c in chunks :: c.id < added.id
    ensures Increasing(chunks + [added])
  {
    forall i | 0 <= i < |chunks| ensures chunks[i].id < added.id { assert chunks[i] in chunks; }
  }

  lemma TotalOfOne(c: Chunk)
    ensures Total([c]) == c.bytes
  {
    assert Total([c]) == c.bytes + Total([c][1..]);
  }

  lemma LatestFits(all: seq<Chunk>, latest: Option<Chunk>, nextId: nat, limit: nat)
    requires forall c | c in all :: IsChunk(c, nextId, limit)
    ensures Total(Without(all, latest, |all|)) <= limit
  {
    assert all[..|all|] == all && all[|all|..] == [];
    if latest.Some? && latest.value in all {
      TotalOfOne(latest.value);
      assert [latest.value] + [] == [latest.value];
    }
  }

  lemma LatestStays(all: seq<Chunk>, latest: Option<Chunk>, n: nat)
    requires n <= |all| && Increasing(all) && (latest.Some? ==> latest.value in all)
    ensures Increasing(Without(all, latest, n)) && forall c | c in Without(all, latest, n) :: c in all
    ensures latest.Some? ==> latest.value in Without(all, latest, n)
  {
    assert all == all[..n] + all[n..];
  }

  predicate IsChunk(c: Chunk, nextId: nat, limit: nat) {
    c.id < nextId && c.text != [] && c.bytes == ByteCount(c.text) <= limit && c.priority == IsPriority(c.text)
  }
}
