/** Paths: walking one is looking up its components in turn. */
module PathWalk {
  import opened Options

  const SLASH := '/'
  const ROOT := 1

  /** Where a walk ends, and the directory it took its last step from. */
  datatype Found = Found(ino: nat, last: nat)

  /** The next slash from a place on, or the length. */
  function Find(path: string, from: nat): (pos: nat)
    requires from <= |path|
    ensures from <= pos <= |path| && (pos < |path| ==> path[pos] == SLASH)
    ensures forall k :: from <= k < pos ==> path[k] != SLASH
    decreases |path| - from
  {
    if from == |path| || path[from] == SLASH then from else Find(path, from + 1)
  }

  /** The non-empty pieces between slashes, from a place on. */
  function Parts(path: string, i: nat): seq<string>
    decreases |path| - i
  {
    if i >= |path| then []
    else if path[i] == SLASH then Parts(path, i + 1)
    else [path[i..Find(path, i)]] + Parts(path, Find(path, i))
  }

  /** Looking up one component after the other. */
  function Fold(lookup: (nat, string) -> Option<nat>, parts: seq<string>, at: Found): Option<Found> {
    if parts == [] then Some(at)
    else match lookup(at.ino, parts[0])
      case None => None
      case Some(next) => Fold(lookup, parts[1..], Found(next, at.ino))
  }

  predicate Absolute(path: string) {
    path != "" && path[0] == SLASH
  }

  function Resolve(lookup: (nat, string) -> Option<nat>, path: string): Option<Found> {
    if Absolute(path) then Fold(lookup, Parts(path, 1), Found(ROOT, ROOT)) else None
  }

  // ----- the walker -----

  /** RecursiveLookup: the fold of lookup over the components, whatever slashes are repeated or
      left at the end; nothing for a path that is not absolute or a component that is missing. */
  method RecursiveLookup(lookup: (nat, string) -> Option<nat>, path: string) returns (r: Option<Found>)
    ensures r == Resolve(lookup, path)
  {
    if path == "" || path[0] != SLASH {
      return None;
    }
    var pos, lastPos := 1, 1;
    var at := Found(ROOT, ROOT);
    pos := Find(path, pos);
    while pos < |path|
      invariant 1 <= lastPos <= pos <= |path| && pos == Find(path, lastPos)
      invariant Resolve(lookup, path) == Fold(lookup, Parts(path, lastPos), at)
    {
      if pos != lastPos {
        var next := lookup(at.ino, path[lastPos..pos]);
        FoldOne(lookup, path[lastPos..pos], Parts(path, pos), at);
        if next.None? {
          return None;
        }
        at := Found(next.value, at.ino);
      }
      pos := pos + 1;
      lastPos := pos;
      pos := Find(path, pos);
    }
    if lastPos != |path| {
      var next := lookup(at.ino, path[lastPos..]);
      assert path[lastPos..pos] == path[lastPos..];
      FoldOne(lookup, path[lastPos..], [], at);
      if next.None? {
        return None;
      }
      at := Found(next.value, at.ino);
    }
    r := Some(at);
  }

  lemma FoldOne(lookup: (nat, string) -> Option<nat>, part: string, rest: seq<string>, at: Found)
    ensures Fold(lookup, [part] + rest, at) ==
            match lookup(at.ino, part) case None => None case Some(next) => Fold(lookup, rest, Found(next, at.ino))
    ensures Fold(lookup, [part], at) ==
            match lookup(at.ino, part) case None => None case Some(next) => Some(Found(next, at.ino))
  {
    assert ([part] + rest)[1..] == rest;
  }

  // ----- the parent -----

  /** The path without the slashes at its end. */
  function Trimmed(path: string): (r: string)
    ensures |r| <= |path| && r == path[..|r|] && (r != "" ==> r[|r| - 1] != SLASH)
    ensures forall k :: |r| <= k < |path| ==> path[k] == SLASH
  {
    if path != "" && path[|path| - 1] == SLASH then Trimmed(path[..|path| - 1]) else path
  }

  /** The place behind the last slash, or 0. */
  function LastSlash(s: string): (i: nat)
    ensures i <= |s| && (i > 0 ==> s[i - 1] == SLASH) && forall k :: i <= k < |s| ==> s[k] != SLASH
  {
    if s == "" then 0 else if s[|s| - 1] == SLASH then |s| else LastSlash(s[..|s| - 1])
  }

  function ParentPath(path: string): string {
    var t := Trimmed(path);
    if LastSlash(t) > 0 then t[..LastSlash(t)] else t
  }

  /** RecursiveLookupParent: trims slashes off the end, cuts behind the last slash, and looks up. */
  method RecursiveLookupParent(lookup: (nat, string) -> Option<nat>, path: string) returns (r: Option<nat>)
    ensures r == match Resolve(lookup, ParentPath(path)) case Some(found) => Some(found.ino) case None => None
  {
    var trimmed := path;
    while trimmed != "" && trimmed[|trimmed| - 1] == SLASH
      invariant Trimmed(trimmed) == Trimmed(path)
      decreases |trimmed|
    {
      trimmed := trimmed[..|trimmed| - 1];
    }
    var cut := LastSlash(trimmed);
    if cut > 0 {
      trimmed := trimmed[..cut];
    }
    var found := RecursiveLookup(lookup, trimmed);
    r := match found case Some(f) => Some(f.ino) case None => None;
  }

  lemma FindAt(path: string, from: nat, pos: nat)
    requires from <= pos <= |path| && (pos < |path| ==> path[pos] == SLASH)
    requires forall k :: from <= k < pos ==> path[k] != SLASH
    ensures Find(path, from) == pos
  {
  }

  lemma SamePiece(path: string, front: string, i: nat, j: nat)
    requires i < |front| <= |path| && front == path[..|front|] && path[i] != SLASH && j == Find(path, i)
    requires front[|front| - 1] == SLASH || |front| == |path| || path[|front|] == SLASH
    ensures i < j <= |front| && Find(front, i) == j && front[i..j] == path[i..j]
  {
    assert j <= |front|;
    FindAt(front, i, j);
  }

  /** A path cut where no component is broken. */
  lemma {:induction false} CutParts(path: string, front: string, i: nat)
    requires i <= |front| <= |path| && front == path[..|front|]
    requires front != "" && (front[|front| - 1] == SLASH || |front| == |path| || path[|front|] == SLASH)
    ensures Parts(path, i) == Parts(front, i) + Parts(path, |front|)
    decreases |path| - i
  {
    if i == |front| {
    } else if path[i] == SLASH {
      CutParts(path, front, i + 1);
    } else {
      var j := Find(path, i);
      SamePiece(path, front, i, j);
      CutParts(path, front, j);
      assert Parts(front, i) == [path[i..j]] + Parts(front, j);
      assert [path[i..j]] + (Parts(front, j) + Parts(path, |front|))
          == [path[i..j]] + Parts(front, j) + Parts(path, |front|);
    }
  }

  lemma {:induction false} OnlySlashes(path: string, i: nat)
    requires forall k :: i <= k < |path| ==> path[k] == SLASH
    ensures Parts(path, i) == []
    decreases |path| - i
  {
    if i < |path| { OnlySlashes(path, i + 1); }
  }

  lemma PartsTrimmed(path: string)
    requires Absolute(path)
    ensures Trimmed(path) == "" ==> Parts(path, 1) == []
    ensures Trimmed(path) != "" ==> Absolute(Trimmed(path)) && Parts(Trimmed(path), 1) == Parts(path, 1)
  {
    var t := Trimmed(path);
    if t == "" {
      OnlySlashes(path, 1);
    } else {
      CutParts(path, t, 1);
      OnlySlashes(path, |t|);
    }
  }

  lemma LastPart(t: string, cut: nat)
    requires Absolute(t) && t[|t| - 1] != SLASH && cut == LastSlash(t)
    ensures 0 < cut < |t| && Absolute(t[..cut]) && Parts(t, 1) == Parts(t[..cut], 1) + [t[cut..]]
  {
    var front := t[..cut];
    assert front[|front| - 1] == SLASH;
    CutParts(t, front, 1);
    OnePart(t, cut);
  }

  lemma OnePart(t: string, cut: nat)
    requires cut < |t| && forall k :: cut <= k < |t| ==> t[k] != SLASH
    ensures Parts(t, cut) == [t[cut..]]
  {
    FindAt(t, cut, |t|);
    assert t[cut..|t|] == t[cut..];
  }

  /** The parent path has all the components but the last. */
  lemma ParentParts(path: string)
    requires Absolute(path)
    ensures Parts(path, 1) == [] ==> ParentPath(path) == ""
    ensures Parts(path, 1) != [] ==>
              && Absolute(ParentPath(path))
              && Parts(ParentPath(path), 1) == Parts(path, 1)[..|Parts(path, 1)| - 1]
  {
    PartsTrimmed(path);
    var t := Trimmed(path);
    if t != "" {
      LastPart(t, LastSlash(t));
    }
  }

  lemma {:induction false} FoldSnoc(lookup: (nat, string) -> Option<nat>, parts: seq<string>, part: string, at: Found)
    ensures Fold(lookup, parts + [part], at) ==
            match Fold(lookup, parts, at)
            case None => None
            case Some(f) => Fold(lookup, [part], f)
  {
    if parts != [] {
      assert (parts + [part])[1..] == parts[1..] + [part];
      match lookup(at.ino, parts[0])
      case None =>
      case Some(next) => FoldSnoc(lookup, parts[1..], part, Found(next, at.ino));
    } else {
      assert [] + [part] == [part];
    }
  }

  /** On a path that resolves, the parent found by trimming the text is the directory the walk
      took its last step from, if and only if the path has a component: for the root itself the
      trimmed path is empty and its lookup fails. */
  lemma ParentAgrees(lookup: (nat, string) -> Option<nat>, path: string)
    requires Resolve(lookup, path).Some?
    ensures (var parent := Resolve(lookup, ParentPath(path));
             parent.Some? && parent.value.ino == Resolve(lookup, path).value.last)
            <==> Parts(path, 1) != []
  {
    ParentParts(path);
    var parts := Parts(path, 1);
    if parts != [] {
      var n := |parts| - 1;
      assert parts == parts[..n] + [parts[n]];
      FoldSnoc(lookup, parts[..n], parts[n], Found(ROOT, ROOT));
    }
  }

  /** The root resolves to itself, as do two slashes, and its parent is not found. */
  lemma RootHasNoParent(lookup: (nat, string) -> Option<nat>, path: string)
    requires path == "/" || path == "//"
    ensures Resolve(lookup, path) == Some(Found(ROOT, ROOT))
    ensures Resolve(lookup, ParentPath(path)) == None
  {
    OnlySlashes(path, 1);
    ParentParts(path);
  }
}
