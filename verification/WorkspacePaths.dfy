/** Workspace path strings and the names they consist of. */
module WorkspacePaths {
  import opened Inodes

  datatype ErrorCode = InvalidPath | NotFound | Exists | NotDirectory | IsDirectory | NotEmpty
  datatype Result<+T> = Ok(value: T) | Err(code: ErrorCode)

  predicate IsLetter(c: char) {
    'A' <= c <= 'Z' || 'a' <= c <= 'z'
  }

  /** "/C:/..." is refused as a Windows path. */
  predicate LooksLikeDrive(path: string) {
    |path| >= 4 && path[0] == '/' && IsLetter(path[1]) && path[2] == ':' && path[3] == '/'
  }

  predicate Refused(path: string) {
    path == "" || path[0] != '/' || '\\' in path || '\0' in path || LooksLikeDrive(path)
  }

  /** The non-empty pieces between slashes. */
  function Pieces(path: string, piece: string): Names {
    if path == "" then (if piece == "" then [] else [piece])
    else if path[0] == '/' then (if piece == "" then [] else [piece]) + Pieces(path[1..], "")
    else Pieces(path[1..], piece + [path[0]])
  }

  function WithoutDots(pieces: Names): Names {
    if pieces == [] then []
    else if pieces[0] == "." then WithoutDots(pieces[1..])
    else [pieces[0]] + WithoutDots(pieces[1..])
  }

  function Parts(path: string): Result<Names> {
    if Refused(path) then Err(InvalidPath)
    else
      var pieces := Pieces(path, "");
      if ".." in pieces then Err(InvalidPath) else Ok(WithoutDots(pieces))
  }

  predicate PlainName(n: string) {
    n != "" && n != "." && n != ".." && '/' !in n && '\\' !in n && '\0' !in n
  }

  predicate PlainNames(names: Names) {
    forall n | n in names :: PlainName(n)
  }

  lemma {:induction false} PiecesHaveNoSlash(path: string, piece: string)
    requires '/' !in piece && '\\' !in path + piece && '\0' !in path + piece
    ensures forall n | n in Pieces(path, piece) :: n != "" && '/' !in n && '\\' !in n && '\0' !in n
  {
    if path != "" {
      assert path == [path[0]] + path[1..];
      if path[0] == '/' { PiecesHaveNoSlash(path[1..], ""); } else { PiecesHaveNoSlash(path[1..], piece + [path[0]]); }
    }
  }

  lemma {:induction false} WithoutDotsKeepsTheRest(pieces: Names)
    ensures forall n :: n in WithoutDots(pieces) <==> n in pieces && n != "."
    ensures "." !in pieces ==> WithoutDots(pieces) == pieces
  {
    if pieces != [] {
      assert pieces == [pieces[0]] + pieces[1..];
      WithoutDotsKeepsTheRest(pieces[1..]);
    }
  }

  lemma PartsArePlain(path: string)
    requires Parts(path).Ok?
    ensures PlainNames(Parts(path).value)
  {
    PiecesHaveNoSlash(path, "");
    WithoutDotsKeepsTheRest(Pieces(path, ""));
  }

  // ---------- joining names again ----------

  /** "/a/b" for the names a and b; the empty string for none. */
  function Joined(names: Names): string {
    if names == [] then "" else "/" + names[0] + Joined(names[1..])
  }

  /** The normalised form of a path. */
  function Normalized(names: Names): string {
    if names == [] then "/" else Joined(names)
  }

  lemma {:induction false} PiecesOfName(n: string, rest: string, piece: string)
    requires '/' !in n
    ensures Pieces(n + rest, piece) == Pieces(rest, piece + n)
  {
    if n == "" {
      assert n + rest == rest && piece + n == piece;
    } else {
      assert (n + rest)[1..] == n[1..] + rest;
      PiecesOfName(n[1..], rest, piece + [n[0]]);
      assert piece + [n[0]] + n[1..] == piece + n;
    }
  }

  lemma {:induction false} PiecesOfJoined(names: Names, piece: string)
    requires PlainNames(names)
    ensures Pieces(Joined(names), piece) == (if piece == "" then [] else [piece]) + names
  {
    if names != [] {
      var rest := Joined(names[1..]);
      assert Joined(names) == "/" + (names[0] + rest);
      assert Joined(names)[1..] == names[0] + rest;
      assert names[0] in names;
      PiecesOfName(names[0], rest, "");
      assert "" + names[0] == names[0];
      PiecesOfJoined(names[1..], names[0]);
      assert [names[0]] + names[1..] == names;
    }
  }

  lemma {:induction false} JoinedHasOnlyNameCharacters(names: Names)
    requires PlainNames(names)
    ensures '\\' !in Joined(names) && '\0' !in Joined(names)
  {
    if names != [] {
      assert names[0] in names;
      JoinedHasOnlyNameCharacters(names[1..]);
    }
  }

  /** Normalising is the identity on names, except that "C:" followed by more reads as a drive. */
  lemma NormalizedParts(names: Names)
    requires PlainNames(names)
    ensures Parts(Normalized(names)) == if LooksLikeDrive(Normalized(names)) then Err(InvalidPath) else Ok(names)
  {
    if names == [] {
      assert Pieces("/", "") == [] + Pieces("", "");
    } else {
      JoinedHasOnlyNameCharacters(names);
      PiecesOfJoined(names, "");
      assert [] + names == names;
      WithoutDotsKeepsTheRest(names);
    }
  }

  /** The path whose names rename cannot use: it parses, and normalised it does not. */
  lemma DriveName()
    ensures Parts("//C:/x") == Ok(["C:", "x"]) && PlainNames(["C:", "x"])
    ensures Normalized(["C:", "x"]) == "/C:/x" && LooksLikeDrive("/C:/x") && Parts("/C:/x") == Err(InvalidPath)
  {
    var names: Names := ["C:", "x"];
    DriveJoined();
    hide Joined, WithoutDots, Pieces;
    PiecesOfJoined(names, "");
    LeadingSlash("/C:/x");
    WithoutDotsKeepsTheRest(names);
    assert [] + names == names && "/" + "/C:/x" == "//C:/x";
  }

  lemma DriveJoined()
    ensures Joined(["C:", "x"]) == "/C:/x"
  {
    var names: Names := ["C:", "x"];
    assert names[1..] == ["x"] && names[1..][1..] == [];
    assert Joined(names[1..]) == "/x";
  }

  lemma LeadingSlash(path: string)
    ensures Pieces("/" + path, "") == Pieces(path, "")
  {
    assert ("/" + path)[1..] == path;
    assert [] + Pieces(path, "") == Pieces(path, "");
  }

  // ---------- what any path stands for ----------

  /** What is between the slashes, whatever it is. */
  predicate AreSegments(segments: Names) {
    forall s | s in segments :: '/' !in s
  }

  /** Empty segments and dots stand for nothing. */
  function Meant(segments: Names): Names {
    if segments == [] then []
    else if segments[0] == "" || segments[0] == "." then Meant(segments[1..])
    else [segments[0]] + Meant(segments[1..])
  }

  function NotEmpty(segments: Names): Names {
    if segments == [] then []
    else if segments[0] == "" then NotEmpty(segments[1..])
    else [segments[0]] + NotEmpty(segments[1..])
  }

  lemma {:induction false} PiecesOfSegments(segments: Names, piece: string)
    requires AreSegments(segments)
    ensures Pieces(Joined(segments), piece) == (if piece == "" then [] else [piece]) + NotEmpty(segments)
  {
    if segments != [] {
      var rest := Joined(segments[1..]);
      assert Joined(segments) == "/" + (segments[0] + rest);
      assert Joined(segments)[1..] == segments[0] + rest;
      assert segments[0] in segments;
      PiecesOfName(segments[0], rest, "");
      assert "" + segments[0] == segments[0];
      PiecesOfSegments(segments[1..], segments[0]);
    }
  }

  lemma {:induction false} DotsOfSegments(segments: Names)
    ensures WithoutDots(NotEmpty(segments)) == Meant(segments)
    ensures ".." in NotEmpty(segments) <==> ".." in segments
  {
    if segments != [] {
      DotsOfSegments(segments[1..]);
      var more := NotEmpty(segments[1..]);
      assert ([segments[0]] + more)[1..] == more;
      assert segments == [segments[0]] + segments[1..];
    }
  }

  lemma {:induction false} JoinedCharacters(segments: Names, c: char)
    requires c != '/'
    ensures c in Joined(segments) <==> exists s | s in segments :: c in s
  {
    if segments != [] {
      JoinedCharacters(segments[1..], c);
      assert segments == [segments[0]] + segments[1..];
      assert c in Joined(segments) <==> c in segments[0] || c in Joined(segments[1..]);
    }
  }

  /**
   * A path from the root stands for its segments without the empty ones and the dots; it is refused for a segment that
   * goes up or holds a backslash or a NUL, and for a drive in front.
   */
  lemma PartsOfSegments(segments: Names)
    requires segments != [] && AreSegments(segments)
    ensures Parts(Joined(segments)) ==
            if ".." in segments || (exists s | s in segments :: '\\' in s) || (exists s | s in segments :: '\0' in s)
               || StartsWithDrive(segments)
            then Err(InvalidPath) else Ok(Meant(segments))
  {
    PiecesOfSegments(segments, "");
    DotsOfSegments(segments);
    JoinedCharacters(segments, '\\');
    JoinedCharacters(segments, '\0');
    DriveInFront(segments);
    JoinedStartsWithSlash(segments);
    assert [] + NotEmpty(segments) == NotEmpty(segments);
    hide Joined, Pieces, WithoutDots, LooksLikeDrive, StartsWithDrive;
  }

  /** One letter of either case and a colon, and something behind it. */
  predicate StartsWithDrive(segments: Names) {
    && |segments| >= 2 && |segments[0]| == 2 && segments[0][1] == ':'
    && ('a' <= segments[0][0] <= 'z' || 'A' <= segments[0][0] <= 'Z')
  }

  lemma DriveInFront(segments: Names)
    requires AreSegments(segments) && segments != []
    ensures LooksLikeDrive(Joined(segments)) <==> StartsWithDrive(segments)
  {
    var first, rest := segments[0], Joined(segments[1..]);
    var path := Joined(segments);
    assert first in segments && path == "/" + first + rest;
    JoinedStartsWithSlash(segments[1..]);
    assert forall i | 0 <= i < |first| :: path[i + 1] == first[i] && first[i] in first;
    if |first| + 1 < |path| { assert path[|first| + 1] == rest[0] == '/'; }
    hide Joined;
  }

  /** Every path from the root has segments, and any other is refused. */
  lemma {:induction false} EveryPathHasSegments(path: string) returns (segments: Names)
    ensures path == "" || path[0] != '/' ==> Parts(path) == Err(InvalidPath)
    ensures path != "" && path[0] == '/' ==> segments != [] && AreSegments(segments) && path == Joined(segments)
  {
    segments := [];
    if path != "" && path[0] == '/' {
      var i := 1;
      while i < |path| && path[i] != '/'
        invariant 1 <= i <= |path| && '/' !in path[1..i]
      {
        assert path[1..i + 1] == path[1..i] + [path[i]];
        i := i + 1;
      }
      var more := EveryPathHasSegments(path[i..]);
      segments := [path[1..i]] + more;
      assert segments[1..] == more;
      assert path == "/" + path[1..i] + path[i..];
      if i == |path| {
        segments := [path[1..i]];
        assert path[i..] == "" && segments[1..] == [] && Joined([]) == "";
      }
    }
  }

  lemma NoSlashInFront(x: string, y: string, v: string)
    requires '/' !in y
    ensures |x| < |y| ==> (y + v)[|x|] != '/'
  {
    if |x| < |y| { assert (y + v)[|x|] == y[|x|]; }
  }

  lemma FirstSlash(x: string, u: string, y: string, v: string)
    requires '/' !in x && '/' !in y && u != "" && u[0] == '/' && (v == "" || v[0] == '/')
    requires x + u <= y + v
    ensures x == y && u <= v
  {
    NoSlashInFront(x, y, v);
    NoSlashInFront(y, x, u);
    assert (x + u)[|x|] == (y + v)[|x|] == '/';
    assert |x| == |y|;
    assert x == (x + u)[..|x|] == (y + v)[..|x|] == y;
    assert u == (x + u)[|x|..] && v == (y + v)[|y|..];
  }

  /** A first name in front of a prefix and of the whole must be the same. */
  lemma FirstNamesPrefix(x: string, u: string, y: string, v: string)
    requires '/' !in x && '/' !in y && u != "" && u[0] == '/' && (v == "" || v[0] == '/')
    ensures "/" + (x + u) <= "/" + (y + v) <==> x == y && u <= v
  {
    var front, whole := "/" + (x + u), "/" + (y + v);
    assert front[1..] == x + u && whole[1..] == y + v;
    if front <= whole {
      assert x + u <= y + v;
      FirstSlash(x, u, y, v);
    }
  }

  lemma FirstNameFirst(a: Names, tail: string)
    requires a != []
    ensures Joined(a) + tail == "/" + (a[0] + (Joined(a[1..]) + tail))
  {
  }

  lemma JoinedStartsWithSlash(a: Names)
    ensures a != [] ==> Joined(a) != "" && Joined(a)[0] == '/'
    ensures a == [] ==> Joined(a) == ""
  {
  }

  lemma PrefixOfNames(a: Names, b: Names)
    requires a != [] && b != []
    ensures a < b <==> a[0] == b[0] && a[1..] < b[1..]
  {
    assert a == [a[0]] + a[1..] && b == [b[0]] + b[1..];
  }

  /** Comparing strings up to a slash compares names. */
  lemma {:induction false} JoinedPrefix(a: Names, b: Names)
    requires PlainNames(a) && PlainNames(b)
    ensures Joined(a) + "/" <= Joined(b) <==> a < b
  {
    hide Joined;
    JoinedStartsWithSlash(a);
    JoinedStartsWithSlash(b);
    if a == [] {
      assert "" + "/" == "/";
    } else if b != [] {
      assert a[0] in a && b[0] in b;
      JoinedPrefix(a[1..], b[1..]);
      JoinedStartsWithSlash(a[1..]);
      JoinedStartsWithSlash(b[1..]);
      FirstNameFirst(a, "/");
      FirstNameFirst(b, "");
      assert Joined(b) + "" == Joined(b) && Joined(b[1..]) + "" == Joined(b[1..]);
      FirstNamesPrefix(a[0], Joined(a[1..]) + "/", b[0], Joined(b[1..]));
      PrefixOfNames(a, b);
    }
  }

  lemma {:induction false} JoinedInjective(a: Names, b: Names)
    requires PlainNames(a) && PlainNames(b) && Joined(a) == Joined(b)
    ensures a == b
  {
    PiecesOfJoined(a, "");
    PiecesOfJoined(b, "");
    assert [] + a == a && [] + b == b;
  }
}
