/** Relative POSIX paths as `PurePosixPath` reads them, and the safety check on them. */
module PosixPath {
  import opened Common

  // The components of a path: empty ones and "." vanish.
  function Parts(s: string): seq<string> {
    PartsOf(s, [])
  }

  // `current` is the component read so far.
  function PartsOf(s: string, current: string): seq<string>
    decreases |s|
  {
    if s == [] then Kept(current)
    else if s[0] == '/' then Kept(current) + PartsOf(s[1..], [])
    else PartsOf(s[1..], current + [s[0]])
  }

  function Kept(part: string): seq<string> {
    if part == "" || part == "." then [] else [part]
  }

  function JoinParts(parts: seq<string>): string {
    if parts == [] then ""
    else if |parts| == 1 then parts[0]
    else parts[0] + ['/'] + JoinParts(parts[1..])
  }

  predicate Absolute(s: string) {
    s != [] && s[0] == '/'
  }

  // A component `Parts` can produce.
  predicate PlainPart(part: string) {
    part != "" && part != "." && '/' !in part
  }

  predicate PlainParts(parts: seq<string>) {
    forall i :: 0 <= i < |parts| ==> PlainPart(parts[i])
  }

  lemma {:induction false} PartsArePlain(s: string, current: string)
    requires '/' !in current
    ensures PlainParts(PartsOf(s, current))
    decreases |s|
  {
    if s == [] {
    } else {
      if s[0] == '/' {
        PartsArePlain(s[1..], []);
      } else {
        PartsArePlain(s[1..], current + [s[0]]);
      }
    }
  }

  lemma {:induction false} PartsOfPiece(piece: string, current: string, rest: string)
    requires '/' !in piece
    ensures PartsOf(piece + rest, current) == PartsOf(rest, current + piece)
  {
    if piece == [] {
      assert piece + rest == rest && current + piece == current;
    } else {
      assert (piece + rest)[1..] == piece[1..] + rest;
      PartsOfPiece(piece[1..], current + [piece[0]], rest);
      assert current + [piece[0]] + piece[1..] == current + piece;
    }
  }

  // Joining plain components and splitting again gives them back.
  lemma {:induction false} SplitJoined(parts: seq<string>)
    requires PlainParts(parts)
    ensures Parts(JoinParts(parts)) == parts
  {
    if parts == [] {
    } else if |parts| == 1 {
      PartsOfPiece(parts[0], [], []);
      assert parts[0] + [] == parts[0] && [] + parts[0] == parts[0];
    } else {
      var rest := JoinParts(parts[1..]);
      PartsOfPiece(parts[0], [], ['/'] + rest);
      assert parts[0] + ['/'] + rest == parts[0] + (['/'] + rest);
      assert (['/'] + rest)[1..] == rest && [] + parts[0] == parts[0];
      SplitJoined(parts[1..]);
    }
  }

  lemma JoinInjective(a: seq<string>, b: seq<string>)
    requires PlainParts(a) && PlainParts(b) && JoinParts(a) == JoinParts(b)
    ensures a == b
  {
    SplitJoined(a);
    SplitJoined(b);
  }

  function AsPosix(s: string): string {
    var joined := if Parts(s) == [] && !Absolute(s) then "." else JoinParts(Parts(s));
    if Absolute(s) then ['/'] + joined else joined
  }

  // `Path(s).name`.
  function Name(s: string): string {
    var parts := Parts(s);
    if parts == [] then "" else parts[|parts| - 1]
  }

  // The name is what follows the last slash.
  lemma {:induction false} NameFollowsSlash(dir: string, part: string)
    requires PlainPart(part)
    ensures Name(part) == part && Name(dir + ['/'] + part) == part
  {
    PartsOfPiece(part, [], []);
    assert part + [] == part && [] + part == part;
    PartsOfAppend(dir, [], part);
    assert dir + ['/'] + part == dir + (['/'] + part);
  }

  lemma {:induction false} PartsOfAppend(dir: string, current: string, part: string)
    requires PlainPart(part)
    ensures var parts := PartsOf(dir + (['/'] + part), current);
      parts != [] && parts[|parts| - 1] == part
    decreases |dir|
  {
    if dir == [] {
      assert dir + (['/'] + part) == ['/'] + part && (['/'] + part)[1..] == part;
      PartsOfPiece(part, [], []);
      assert part + [] == part && [] + part == part;
    } else {
      assert (dir + (['/'] + part))[1..] == dir[1..] + (['/'] + part);
      PartsOfAppend(dir[1..], if dir[0] == '/' then [] else current + [dir[0]], part);
    }
  }

  // `str(Path(s).parent)`, with "." shown as the empty base.
  function ParentBase(s: string): string {
    var parts := Parts(s);
    if |parts| <= 1 then (if Absolute(s) then "/" else "")
    else (if Absolute(s) then ['/'] else []) + JoinParts(parts[..|parts| - 1])
  }

  datatype PathError = NotRelativePosix | EscapesRoot

  function SafePosixPath(value: string): Result<string, PathError> {
    if value == "" || '\\' in value then Err(NotRelativePosix)
    else if Absolute(value) || ".." in Parts(value) then Err(EscapesRoot)
    else Ok(AsPosix(value))
  }

  lemma {:induction false} JoinRelative(parts: seq<string>)
    requires PlainParts(parts) && parts != []
    ensures JoinParts(parts) != [] && JoinParts(parts)[0] != '/' && JoinParts(parts) != "."
    ensures forall c :: c in JoinParts(parts) ==> c == '/' || exists i :: 0 <= i < |parts| && c in parts[i]
  {
    if |parts| <= 1 {
    } else {
      JoinRelative(parts[1..]);
      forall c | c in JoinParts(parts)
        ensures c == '/' || exists i :: 0 <= i < |parts| && c in parts[i]
      {
        if c in JoinParts(parts[1..]) && c != '/' {
          var i :| 0 <= i < |parts[1..]| && c in parts[1..][i];
          assert c in parts[i + 1];
        }
      }
    }
  }

  lemma {:induction false} PartsKeepChars(s: string, current: string, c: char)
    requires c !in s && c !in current
    ensures forall i :: 0 <= i < |PartsOf(s, current)| ==> c !in PartsOf(s, current)[i]
    decreases |s|
  {
    if s == [] {
    } else {
      if s[0] == '/' {
        PartsKeepChars(s[1..], [], c);
      } else {
        PartsKeepChars(s[1..], current + [s[0]], c);
      }
    }
  }

  // A safe path is in normal form: checking it again changes nothing.
  lemma SafeIsNormal(value: string)
    requires SafePosixPath(value).Ok?
    ensures var r := SafePosixPath(value).value;
      && SafePosixPath(r) == Ok(r)
      && Parts(r) == Parts(value)
      && r == (if Parts(value) == [] then "." else JoinParts(Parts(value)))
  {
    var parts := Parts(value);
    PartsArePlain(value, []);
    if parts == [] {
      assert Parts(".") == [] by {
        PartsOfPiece(".", [], []);
        assert "." + [] == "." && [] + "." == ".";
      }
    } else {
      JoinRelative(parts);
      SplitJoined(parts);
      PartsKeepChars(value, [], '\\');
      var r := JoinParts(parts);
      assert '\\' !in r;
    }
  }

  // Two safe paths are the same text exactly when they have the same components.
  lemma SafePathsEqual(a: string, b: string)
    requires SafePosixPath(a).Ok? && SafePosixPath(b).Ok?
    ensures SafePosixPath(a) == SafePosixPath(b) <==> Parts(a) == Parts(b)
  {
    SafeIsNormal(a);
    SafeIsNormal(b);
  }
}
