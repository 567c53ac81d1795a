/** Path strings, their components, and the tree positions that creation and lookup derive from them. */
module Paths {
  import opened Common

  type Key = seq<string>

  // ------------------------------------------------------------- string functions

  function TrimPrefix(s: string): string { if s != "" && s[0] == '/' then s[1..] else s }

  function TrimSuffix(s: string): string { if s != "" && s[|s| - 1] == '/' then s[..|s| - 1] else s }

  /** The pieces between the slashes; one piece when there is no slash. */
  function Split(s: string): (parts: seq<string>)
    ensures parts != []
  {
    if s == "" then [""]
    else if s[0] == '/' then [""] + Split(s[1..])
    else var rest := Split(s[1..]); [[s[0]] + rest[0]] + rest[1..]
  }

  function Join(parts: seq<string>): string {
    if parts == [] then ""
    else if |parts| == 1 then parts[0]
    else parts[0] + "/" + Join(parts[1..])
  }

  ghost predicate NoSlash(parts: seq<string>) {
    forall i :: 0 <= i < |parts| ==> '/' !in parts[i]
  }

  lemma {:induction false} SplitPieces(s: string)
    ensures NoSlash(Split(s))
  {
    if s != "" { SplitPieces(s[1..]); }
  }

  lemma {:induction false} JoinOfSplit(s: string)
    ensures Join(Split(s)) == s
  {
    if s != "" {
      JoinOfSplit(s[1..]);
      var rest := Split(s[1..]);
      if s[0] == '/' {
        assert Split(s)[1..] == rest;
      } else {
        assert Split(s)[1..] == rest[1..];
      }
      assert s == [s[0]] + s[1..];
    }
  }

  lemma {:induction false} SplitOfPiece(piece: string, rest: string)
    requires '/' !in piece
    ensures Split(piece) == [piece]
    ensures Split(piece + "/" + rest) == [piece] + Split(rest)
  {
    if piece == "" {
      assert piece + "/" + rest == "/" + rest;
    } else {
      SplitOfPiece(piece[1..], rest);
      assert (piece + "/" + rest)[1..] == piece[1..] + "/" + rest;
      assert piece == [piece[0]] + piece[1..];
    }
  }

  lemma {:induction false} SplitOfJoin(parts: seq<string>)
    requires parts != [] && NoSlash(parts)
    ensures Split(Join(parts)) == parts
  {
    SplitOfPiece(parts[0], Join(parts[1..]));
    if |parts| > 1 {
      SplitOfJoin(parts[1..]);
      assert parts == [parts[0]] + parts[1..];
    }
  }

  lemma {:induction false} SplitBeforeSlash(s: string)
    ensures Split(s + "/") == Split(s) + [""]
  {
    if s == "" {
      assert s + "/" == "/";
      assert "/"[1..] == "";
      assert Split("/") == [""] + Split("");
    } else {
      SplitBeforeSlash(s[1..]);
      assert (s + "/")[1..] == s[1..] + "/";
    }
  }

  lemma {:induction false} SplitLastPiece(s: string)
    requires s != "" && s[|s| - 1] != '/'
    ensures Split(s)[|Split(s)| - 1] != ""
  {
    if |s| > 1 { SplitLastPiece(s[1..]); }
  }

  // ----------------------------------------------------------- the source's helpers

  /** "/a/b/c.txt" is split into the directory "/a/b" and the name "c.txt"; the empty path is refused. */
  function SplitPath(path: string): Option<(string, string)> {
    var p := TrimPrefix(path);
    if p == "" then None else
      var parts := Split(p);
      Some(("/" + Join(parts[..|parts| - 1]), parts[|parts| - 1]))
  }

  function CleanPath(path: string): Key {
    var p := TrimSuffix(TrimPrefix(path));
    if p == "" then [] else Split(p)
  }

  /** The components that mkdirAll and resolveDir walk. */
  function DirKey(dir: string): Key {
    if dir == "/" || dir == "" then [] else CleanPath(dir)
  }

  /** Where creation and deletion put a path. */
  function CreateKey(path: string): (key: Option<Key>)
    ensures key.Some? ==> key.value != []
  {
    match SplitPath(path)
    case Some((dir, name)) => Some(DirKey(dir) + [name])
    case None => None
  }

  /** Where lookup looks for a path. */
  function GetKey(path: string): Key { CleanPath(path) }

  // ------------------------------------------------- the same on lists of components

  /** All components of a path, the empty ones included. */
  function Components(path: string): (parts: seq<string>)
    ensures parts != []
  {
    Split(TrimPrefix(path))
  }

  /** One trailing empty component is dropped, and a lone empty component stands for nothing. */
  function Cleaned(parts: seq<string>): Key {
    var kept := if |parts| >= 2 && parts[|parts| - 1] == "" then parts[..|parts| - 1] else parts;
    if kept == [""] then [] else kept
  }

  lemma {:induction false} TrailingSlash(q: string)
    ensures Cleaned(Split(q + "/")) == if q == "" then [] else Split(q)
  {
    SplitBeforeSlash(q);
    JoinOfSplit(q);
    assert (Split(q) + [""])[..|Split(q)|] == Split(q);
  }

  lemma {:induction false} TrimmedParts(p: string)
    ensures (if TrimSuffix(p) == "" then [] else Split(TrimSuffix(p))) == Cleaned(Split(p))
  {
    if p != "" && p[|p| - 1] == '/' {
      assert p == p[..|p| - 1] + "/";
      TrailingSlash(p[..|p| - 1]);
    } else if p != "" {
      SplitLastPiece(p);
    }
  }

  lemma {:induction false} GetKeyParts(path: string)
    ensures GetKey(path) == Cleaned(Components(path))
  {
    TrimmedParts(TrimPrefix(path));
  }

  lemma {:induction false} DirKeyParts(init: seq<string>)
    requires NoSlash(init)
    ensures DirKey("/" + Join(init)) == Cleaned(init)
  {
    var dir := "/" + Join(init);
    assert TrimPrefix(dir) == Join(init);
    if init != [] {
      SplitOfJoin(init);
      TrimmedParts(Join(init));
    }
  }

  lemma {:induction false} CreateKeyParts(path: string)
    ensures var parts := Components(path);
      CreateKey(path) ==
        if parts == [""] then None else Some(Cleaned(parts[..|parts| - 1]) + [parts[|parts| - 1]])
  {
    var p := TrimPrefix(path);
    var parts := Split(p);
    SplitPieces(p);
    JoinOfSplit(p);
    if p != "" {
      DirKeyParts(parts[..|parts| - 1]);
    }
  }

  /**
   The last two components are not empty; or both are, which creation and lookup shorten alike
   unless nothing else is left.
   */
  predicate Agreeable(parts: seq<string>)
    requires parts != []
  {
    var n := |parts|;
    if parts[n - 1] != "" then n == 1 || parts[n - 2] != ""
    else n >= 2 && parts[n - 2] == "" && parts != ["", ""] && parts != ["", "", ""]
  }

  /** Creation and lookup derive the same position from a path exactly when its components are agreeable. */
  lemma {:induction false} KeysAgreeIff(path: string)
    ensures CreateKey(path) == Some(GetKey(path)) <==> Agreeable(Components(path))
  {
    GetKeyParts(path);
    CreateKeyParts(path);
    var parts := Components(path);
    var n := |parts|;
    if parts != [""] {
      var init, last := parts[..n - 1], parts[n - 1];
      if last != "" {
        assert Cleaned(parts) == parts;
        AgreeNamed(parts);
      } else {
        AgreeTrailing(parts);
      }
    }
  }

  lemma {:induction false} AgreeNamed(parts: seq<string>)
    requires parts != [] && parts[|parts| - 1] != ""
    ensures Cleaned(parts[..|parts| - 1]) + [parts[|parts| - 1]] == parts <==> Agreeable(parts)
  {
    var n := |parts|;
    var init := parts[..n - 1];
    assert parts == init + [parts[n - 1]];
    if n >= 2 && parts[n - 2] == "" {
      assert |Cleaned(init)| < |init|;
    } else {
      assert Cleaned(init) == init;
    }
  }

  lemma {:induction false} AgreeTrailing(parts: seq<string>)
    requires |parts| >= 2 && parts[|parts| - 1] == ""
    ensures Cleaned(parts[..|parts| - 1]) + [""] == Cleaned(parts) <==> Agreeable(parts)
  {
    var n := |parts|;
    var init := parts[..n - 1];
    if init == [""] {
      assert parts == ["", ""];
    } else if init == ["", ""] {
      assert parts == ["", "", ""];
    } else if parts[n - 2] == "" {
      assert init == init[..n - 2] + [""];
      assert Cleaned(init) == init[..n - 2];
    } else {
      assert Cleaned(init) == init;
    }
  }

  /** A leading slash makes no difference to where a path goes, so different path strings share a position. */
  lemma {:induction false} LeadingSlashIsIgnored(path: string)
    requires path == "" || path[0] != '/'
    ensures CreateKey("/" + path) == CreateKey(path) && GetKey("/" + path) == GetKey(path)
  {
    assert TrimPrefix("/" + path) == path == TrimPrefix(path);
  }
}
