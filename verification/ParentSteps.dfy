/** Paths with parent steps: how they resolve, inside a container and in a workspace. */
module ParentSteps {
  import opened Strings
  import opened PathParts
  import opened StorageKeys
  import opened PosixPaths
  import opened DockerPaths
  import opened WorkspaceKeys
  import opened WorkspaceReadBack

  /** A part that names an entry of a directory. */
  predicate Name(part: string) {
    part !in {"", ".", ".."} && SlashFree(part)
  }

  /** A path with exactly two leading slashes, which make a root of another kind. */
  predicate TwoSlashes(path: string) {
    StartsWith(path, "//") && !StartsWith(path, "///")
  }

  // ----- Parts -----

  lemma {:induction false} CollapseAppend(a: seq<string>, b: seq<string>, kept: seq<string>)
    ensures Collapse(a + b, kept) == Collapse(b, Collapse(a, kept))
  {
    if a == [] {
      assert a + b == b;
    } else {
      assert (a + b)[1..] == a[1..] + b;
      if a[0] == "/" || a[0] == "" || a[0] == "." {
        CollapseAppend(a[1..], b, kept);
      } else if a[0] == ".." {
        CollapseAppend(a[1..], b, if kept != [] then kept[..|kept| - 1] else kept);
      } else {
        CollapseAppend(a[1..], b, kept + [a[0]]);
      }
    }
  }

  lemma CollapseOne(part: string, kept: seq<string>)
    ensures Collapse([part], kept) ==
            if part in {"/", "", "."} then kept
            else if part == ".." then if kept != [] then kept[..|kept| - 1] else kept
            else kept + [part]
  {
    assert [part][1..] == [];
  }

  /** A parent step takes back the name before it, wherever the two stand. */
  lemma ParentCancels(a: seq<string>, x: string, b: seq<string>, kept: seq<string>)
    requires Name(x)
    ensures Collapse(a + [x, ".."] + b, kept) == Collapse(a + b, kept)
  {
    var before := Collapse(a, kept);
    assert x != "/" by {
      assert '/' in "/";
    }
    assert a + [x, ".."] + b == a + ([x] + ([".."] + b));
    CollapseAppend(a, [x] + ([".."] + b), kept);
    CollapseAppend([x], [".."] + b, before);
    CollapseAppend([".."], b, before + [x]);
    CollapseOne(x, before);
    CollapseOne("..", before + [x]);
    CollapseAppend(a, b, kept);
  }

  /** With nothing before it, it takes back the last part of where the path starts, and nothing at the root. */
  lemma ParentOfStart(b: seq<string>, start: seq<string>)
    ensures Collapse([".."] + b, start) == Collapse(b, if start != [] then start[..|start| - 1] else start)
  {
    CollapseAppend([".."], b, start);
    CollapseOne("..", start);
  }

  lemma {:induction false} CollapseRelative(parts: seq<string>, kept: seq<string>)
    ensures Collapse(RelativeParts(parts), kept) == Collapse(parts, kept)
  {
    if parts == [] {
    } else if parts[0] == "" || parts[0] == "." {
      CollapseRelative(parts[1..], kept);
    } else {
      var rest := RelativeParts(parts[1..]);
      assert ([parts[0]] + rest)[1..] == rest;
      CollapseRelative(parts[1..], Collapse([parts[0]], kept));
      CollapseAppend([parts[0]], rest, kept);
      CollapseAppend([parts[0]], parts[1..], kept);
      assert [parts[0]] + parts[1..] == parts;
    }
  }

  // ----- Normalising -----

  /** A rooted path normalises to its parts, collapsed. */
  lemma NormalizedParts(parts: seq<string>)
    requires AllSlashFree(parts) && !TwoSlashes(Absolute(parts))
    ensures Normalized(Absolute(parts)) == Absolute(Collapse(parts, []))
  {
    var path := Absolute(parts);
    RootedParts(parts);
    assert PosixParts(path) == ["/"] + RelativeParts([""] + parts);
    assert (["/"] + RelativeParts([""] + parts))[1..] == RelativeParts([""] + parts);
    CollapseRelative([""] + parts, []);
    assert ([""] + parts)[1..] == parts;
  }

  lemma RootedParts(parts: seq<string>)
    requires AllSlashFree(parts)
    ensures RelativeParts(Split(Absolute(parts))) == RelativeParts([""] + parts)
  {
    if parts == [] {
      assert Split("/") == ["", ""];
      assert ["", ""][1..] == [""] && [""] + parts == [""];
    } else {
      SplitCons("", Join(parts));
      SplitJoin(parts);
      assert Absolute(parts) == "" + "/" + Join(parts);
    }
  }

  /** `/a/x/../b` normalises as `/a/b` does, and `/../b` as `/b`. */
  lemma NormalizedCancels(a: seq<string>, x: string, b: seq<string>)
    requires Name(x) && AllSlashFree(a) && AllSlashFree(b)
    requires !TwoSlashes(Absolute(a + [x, ".."] + b)) && !TwoSlashes(Absolute(a + b))
    ensures Normalized(Absolute(a + [x, ".."] + b)) == Normalized(Absolute(a + b))
  {
    NormalizedParts(a + [x, ".."] + b);
    NormalizedParts(a + b);
    ParentCancels(a, x, b, []);
  }

  lemma NormalizedAtRoot(b: seq<string>)
    requires AllSlashFree(b) && !TwoSlashes(Absolute(b))
    ensures Normalized(Absolute([".."] + b)) == Normalized(Absolute(b))
  {
    var parts := [".."] + b;
    assert Join(parts)[0] == '.' && Absolute(parts)[1] == '.';
    assert AllSlashFree(parts) && !TwoSlashes(Absolute(parts));
    NormalizedParts(parts);
    NormalizedParts(b);
    ParentOfStart(b, []);
  }

  // ----- Inside the container -----

  /** Where a place under or outside the root is mapped. */
  function Kept(rootParts: seq<string>, place: seq<string>): string {
    if rootParts <= place then Absolute(place) else Absolute(rootParts)
  }

  lemma ClampForm(root: string, rootParts: seq<string>, parts: seq<string>)
    requires WorkspaceRoot(root, rootParts) && Plain(parts) && !TwoSlashes(Absolute(parts))
    ensures Clamp(root, Absolute(parts)) == Kept(rootParts, Collapse(parts, []))
  {
    NormalizedParts(parts);
    CollapseClean(parts, []);
    UnderMeansExtends(Collapse(parts, []), rootParts);
  }

  /** A path given in the container's own terms is resolved from `/`, and held at the root if it leaves it. */
  lemma ContainerPathResolves(root: string, rootParts: seq<string>, parts: seq<string>)
    requires WorkspaceRoot(root, rootParts) && Plain(parts)
    requires AtOrUnder(Absolute(parts), root)
    ensures MapPath(root, Absolute(parts)) == Kept(rootParts, Collapse(parts, []))
  {
    var path := Absolute(parts);
    PlainPath(parts);
    SlashesPlain(path);
    JoinStart(rootParts);
    assert path[1] == root[1] != '/';
    ClampForm(root, rootParts, parts);
  }

  /** Any other absolute path is resolved from the root, and held there if it leaves it. */
  lemma AgentPathResolves(root: string, rootParts: seq<string>, parts: seq<string>)
    requires WorkspaceRoot(root, rootParts) && Plain(parts)
    requires !AtOrUnder(Absolute(parts), root)
    ensures MapPath(root, Absolute(parts)) == Kept(rootParts, Collapse(parts, rootParts))
  {
    var path := Absolute(parts);
    PlainPath(parts);
    if path == "/" {
      SlashesPlain(path);
      OnlyRoot(parts);
      CollapseNothing(parts, rootParts);
    } else {
      AgentView(root, path);
      UnderRootPath(root, rootParts, parts);
      ClampForm(root, rootParts, rootParts + parts);
      CollapseFromRoot(rootParts, parts);
    }
  }

  lemma AgentView(root: string, path: string)
    requires '\\' !in path && StartsWith(path, "/") && path != "/" && !AtOrUnder(path, root)
    ensures MapPath(root, path) == Clamp(root, root + path)
  {
    SlashesPlain(path);
    assert path[0] == '/';
  }

  /** Every absolute path is covered: it is made of the parts between its slashes. */
  lemma AbsolutePathParts(path: string) returns (parts: seq<string>)
    requires StartsWith(path, "/")
    ensures path == Absolute(parts) && AllSlashFree(parts) && ('\\' !in path ==> Plain(parts))
  {
    var rest := path[1..];
    parts := Split(rest);
    JoinSplit(rest);
    SplitSlashFree(rest);
    assert path == "/" + rest;
    if '\\' !in path {
      assert forall c :: c in rest ==> c in path;
      SplitPlain(rest);
    }
  }

  /** A relative path, once the dots and slashes in front are gone, is resolved from the root in the same way. */
  lemma RelativePathResolves(root: string, rootParts: seq<string>, path: string)
    requires WorkspaceRoot(root, rootParts) && '\\' !in path && !StartsWith(path, "/")
    ensures MapPath(root, path) == Kept(rootParts, Collapse(Split(StripDotsAndSlashes(path)), rootParts))
  {
    var rel := StripDotsAndSlashes(path);
    SlashesPlain(path);
    NotUnderRoot(root, rootParts, path);
    if rel == "" {
      assert Split("") == [""];
      CollapseNothing([""], rootParts);
    } else {
      StripKeepsClear(path);
      OwnRest(path);
      RestUnderRoot(root, rootParts, rel);
    }
  }

  lemma NotUnderRoot(root: string, rootParts: seq<string>, path: string)
    requires WorkspaceRoot(root, rootParts) && !StartsWith(path, "/")
    ensures path != root && !StartsWith(path, root + "/")
  {
    FirstSlash(path);
    assert root[0] == '/' && (root + "/")[0] == '/';
  }

  lemma FirstSlash(path: string)
    ensures StartsWith(path, "/") <==> path != "" && path[0] == '/'
  {
    if path != "" {
      assert path[..1] == [path[0]];
    }
  }

  lemma RestUnderRoot(root: string, rootParts: seq<string>, rel: string)
    requires WorkspaceRoot(root, rootParts) && '\\' !in rel
    ensures Clamp(root, root + "/" + rel) == Kept(rootParts, Collapse(Split(rel), rootParts))
  {
    RestNormalized(root, rootParts, rel);
    SplitPlain(rel);
    CollapseClean(Split(rel), rootParts);
    UnderMeansExtends(Collapse(Split(rel), rootParts), rootParts);
  }

  /** Of the paths that mean the root as they stand, nothing is left. */
  lemma OwnRest(path: string)
    requires StripDotsAndSlashes(path) != ""
    ensures path !in {"", ".", "./", "/"}
  {
    assert "."[1..] == "" && "./"[1..] == "/" && "/"[1..] == "";
  }

  lemma PlainPath(parts: seq<string>)
    requires Plain(parts)
    ensures '\\' !in Absolute(parts)
  {
    PlainJoin(parts);
  }

  lemma {:induction false} PlainJoin(parts: seq<string>)
    requires Plain(parts)
    ensures '\\' !in Join(parts)
  {
    if parts == [] {
    } else {
      assert parts[0] in parts && forall p :: p in parts[1..] ==> p in parts;
      PlainJoin(parts[1..]);
    }
  }

  lemma OnlyRoot(parts: seq<string>)
    requires Absolute(parts) == "/"
    ensures parts == [] || parts == [""]
  {
    JoinLength(parts);
    assert |parts| == 1 ==> Absolute(parts) == "/" + parts[0] && parts == [parts[0]];
  }

  lemma JoinLength(parts: seq<string>)
    ensures |parts| > 1 ==> |Join(parts)| >= 1
  {
  }

  lemma CollapseNothing(parts: seq<string>, kept: seq<string>)
    requires parts == [] || parts == [""]
    ensures Collapse(parts, kept) == kept
  {
    CollapseOne("", kept);
  }

  lemma CollapseFromRoot(rootParts: seq<string>, parts: seq<string>)
    requires Clean(rootParts)
    ensures Collapse(rootParts + parts, []) == Collapse(parts, rootParts)
  {
    CollapseAppend(rootParts, parts, []);
    CleanCollapse(rootParts, []);
    assert [] + rootParts == rootParts;
  }

  lemma UnderRootPath(root: string, rootParts: seq<string>, parts: seq<string>)
    requires WorkspaceRoot(root, rootParts) && Plain(parts) && Absolute(parts) != "/"
    ensures root + Absolute(parts) == Absolute(rootParts + parts)
    ensures !TwoSlashes(Absolute(rootParts + parts)) && Plain(rootParts + parts)
  {
    AbsoluteAppend(rootParts, parts);
    JoinStart(rootParts);
    assert Absolute(rootParts + parts)[1] == root[1];
  }

  /** `/a/x/../b` is mapped where `/a/b` is. */
  lemma MapPathCancels(root: string, rootParts: seq<string>, a: seq<string>, x: string, b: seq<string>)
    requires WorkspaceRoot(root, rootParts) && Name(x) && '\\' !in x && Plain(a) && Plain(b)
    requires !AtOrUnder(Absolute(a + [x, ".."] + b), root) && !AtOrUnder(Absolute(a + b), root)
    ensures MapPath(root, Absolute(a + [x, ".."] + b)) == MapPath(root, Absolute(a + b))
  {
    assert Plain(a + [x, ".."] + b) by {
      assert forall p :: p in a + [x, ".."] + b ==> p in a || p == x || p == ".." || p in b;
    }
    AgentPathResolves(root, rootParts, a + [x, ".."] + b);
    AgentPathResolves(root, rootParts, a + b);
    ParentCancels(a, x, b, rootParts);
  }

  /** A path that climbs out of the root is held at it, unless it climbs back in. */
  lemma ClimbingOutIsHeld(root: string, rootParts: seq<string>, parts: seq<string>)
    requires WorkspaceRoot(root, rootParts) && Clean(parts)
    requires !AtOrUnder(Absolute([".."] + parts), root)
    ensures MapPath(root, Absolute([".."] + parts)) ==
            if parts != [] && parts[0] == rootParts[|rootParts| - 1] then Absolute(rootParts[..|rootParts| - 1] + parts)
            else root
  {
    var above, name := rootParts[..|rootParts| - 1], rootParts[|rootParts| - 1];
    assert Plain([".."] + parts);
    AgentPathResolves(root, rootParts, [".."] + parts);
    ParentOfStart(parts, rootParts);
    CleanCollapse(parts, above);
    BackInside(above, name, parts);
    assert rootParts == above + [name];
  }

  // ----- Back to the agent -----

  /** What `_to_virtual_path` makes of a normalised path, given what it answers for one outside the root. */
  function Seen(root: string, normalized: string, outside: string): string {
    if normalized == root then "/"
    else if StartsWith(normalized, root + "/") then "/" + normalized[|root| + 1..]
    else outside
  }

  lemma SeenFromRoot(root: string, rootParts: seq<string>, place: seq<string>, outside: string)
    requires WorkspaceRoot(root, rootParts) && Clean(place)
    ensures Seen(root, Absolute(place), outside) ==
            if rootParts <= place then Absolute(place[|rootParts|..]) else outside
  {
    UnderMeansExtends(place, rootParts);
    AbsoluteInjective(place, rootParts);
    if place == rootParts {
      assert place[|rootParts|..] == [];
    } else if rootParts <= place {
      SeenBelow(root, rootParts, place[|rootParts|..]);
      assert place == rootParts + place[|rootParts|..];
    }
  }

  lemma SeenBelow(root: string, rootParts: seq<string>, tail: seq<string>)
    requires WorkspaceRoot(root, rootParts) && tail != []
    ensures var path := Absolute(rootParts + tail);
            path != root && StartsWith(path, root + "/") && "/" + path[|root| + 1..] == Absolute(tail)
  {
    AbsoluteAppend(rootParts, tail);
    var path, rest := Absolute(rootParts + tail), Join(tail);
    assert path == root + "/" + rest;
    assert path[|root| + 1..] == rest;
  }

  /**
   * The agent's view of an absolute container path: the rest behind the root, wherever in the path the parent steps
   * are; a path outside the root is shown as it is, unless its text begins with the root's.
   */
  lemma ContainerPathIsSeen(root: string, rootParts: seq<string>, parts: seq<string>)
    requires WorkspaceRoot(root, rootParts) && Plain(parts) && !TwoSlashes(Absolute(parts))
    ensures var place := Collapse(parts, []);
            ToVirtualPath(root, Absolute(parts)) ==
            if rootParts <= place then Absolute(place[|rootParts|..])
            else if !StartsWith(Absolute(parts), root) then Absolute(parts) else "/"
  {
    var path, place := Absolute(parts), Collapse(parts, []);
    PlainPath(parts);
    SlashesPlain(path);
    NormalizedParts(parts);
    CollapseClean(parts, []);
    SeenFromRoot(root, rootParts, place, if !StartsWith(path, root) then path else "/");
    FirstSlash(path);
  }

  /** A relative container path is seen from the root, without the dots and slashes in front. */
  lemma RelativeContainerPathIsSeen(root: string, rootParts: seq<string>, path: string)
    requires WorkspaceRoot(root, rootParts) && '\\' !in path && !StartsWith(path, "/")
    ensures var place := Collapse(Split(StripDotsAndSlashes(path)), rootParts);
            ToVirtualPath(root, path) ==
            if rootParts <= place then Absolute(place[|rootParts|..]) else "/"
  {
    if path in {"", ".", "./"} {
      NothingStripped();
      RootIsSeen(root, path);
      NothingBelow(rootParts);
    } else {
      StripKeepsClear(path);
      RelativeView(root, path);
      RestIsSeen(root, rootParts, StripDotsAndSlashes(path));
    }
  }

  lemma RootIsSeen(root: string, path: string)
    requires '\\' !in path && path in {"", ".", "./"}
    ensures ToVirtualPath(root, path) == "/"
  {
    SlashesPlain(path);
  }

  lemma NothingBelow(rootParts: seq<string>)
    ensures var place := Collapse(Split(""), rootParts);
            rootParts <= place && Absolute(place[|rootParts|..]) == "/"
  {
    CollapseNothing([""], rootParts);
    assert rootParts[|rootParts|..] == [];
  }

  lemma RestIsSeen(root: string, rootParts: seq<string>, rel: string)
    requires WorkspaceRoot(root, rootParts) && '\\' !in rel
    ensures var place := Collapse(Split(rel), rootParts);
            Seen(root, Normalized(root + "/" + rel), "/") ==
            if rootParts <= place then Absolute(place[|rootParts|..]) else "/"
  {
    RestNormalized(root, rootParts, rel);
    SplitPlain(rel);
    CollapseClean(Split(rel), rootParts);
    SeenFromRoot(root, rootParts, Collapse(Split(rel), rootParts), "/");
  }

  lemma RelativeView(root: string, path: string)
    requires '\\' !in path && !StartsWith(path, "/") && path !in {"", ".", "./"}
    ensures ToVirtualPath(root, path) == Seen(root, Normalized(root + "/" + StripDotsAndSlashes(path)), "/")
  {
    SlashesPlain(path);
  }

  lemma NothingStripped()
    ensures forall path :: path in {"", ".", "./"} ==> StripDotsAndSlashes(path) == ""
    ensures Split("") == [""]
  {
    assert "."[1..] == "" && "./"[1..] == "/" && "/"[1..] == "";
  }

  lemma RestNormalized(root: string, rootParts: seq<string>, rel: string)
    requires WorkspaceRoot(root, rootParts) && '\\' !in rel
    ensures Normalized(root + "/" + rel) == Absolute(Collapse(Split(rel), rootParts))
  {
    var parts := Split(rel);
    JoinSplit(rel);
    SplitPlain(rel);
    assert Absolute(parts) == "/" + rel;
    AbsoluteAppend(rootParts, parts);
    JoinStart(rootParts);
    assert root + "/" + rel == root + Absolute(parts);
    assert Absolute(rootParts + parts)[1] == root[1];
    assert AllSlashFree(rootParts + parts);
    NormalizedParts(rootParts + parts);
    CollapseFromRoot(rootParts, parts);
  }

  // ----- In a workspace -----

  /** A relative fragment resolves from the workspace directory, and an absolute one from the root. */
  lemma FragmentResolves(dir: seq<string>, parts: seq<string>)
    requires parts != [] && AllSlashFree(parts)
    ensures ResolveFragment(dir, Join(parts)) == Collapse(parts, if StartsWith(Join(parts), "/") then [] else dir)
  {
    SplitJoin(parts);
    CollapseRelative(parts, if StartsWith(Join(parts), "/") then [] else dir);
  }

  /** `a/x/../b` is the place that `a/b` is, and has its key. */
  lemma FragmentCancels(w: Workspace, a: seq<string>, x: string, b: seq<string>)
    requires WorkspaceDir(w.dir) && Name(x) && AllSlashFree(a) && AllSlashFree(b) && a + b != []
    requires !StartsWith(Join(a + [x, ".."] + b), "/") && !StartsWith(Join(a + b), "/")
    ensures ResolveFragment(w.dir, Join(a + [x, ".."] + b)) == ResolveFragment(w.dir, Join(a + b))
    ensures RelativeKey(w, Join(a + [x, ".."] + b)) == RelativeKey(w, Join(a + b))
  {
    FragmentResolves(w.dir, a + [x, ".."] + b);
    FragmentResolves(w.dir, a + b);
    ParentCancels(a, x, b, w.dir);
    RelativeKeyForm(w, Join(a + [x, ".."] + b));
    RelativeKeyForm(w, Join(a + b));
  }

  /** A fragment that begins with a parent step leaves the workspace, unless it names the workspace folder again. */
  lemma ClimbingOutIsRefused(w: Workspace, parts: seq<string>)
    requires WorkspaceDir(w.dir) && w.dir != [] && Clean(parts)
    ensures RelativeKey(w, Join([".."] + parts)) ==
            if parts != [] && parts[0] == w.dir[|w.dir| - 1] then RemoteKey(w.dir, w.dir + parts[1..]) else Outside
  {
    RelativeKeyForm(w, Join([".."] + parts));
    ClimbedPlace(w.dir, parts);
    KeyOfClimbed(w.dir, parts);
  }

  lemma KeyOfClimbed(dir: seq<string>, parts: seq<string>)
    requires dir != []
    ensures RemoteKey(dir, dir[..|dir| - 1] + parts) ==
            if parts != [] && parts[0] == dir[|dir| - 1] then RemoteKey(dir, dir + parts[1..]) else Outside
  {
    BackInside(dir[..|dir| - 1], dir[|dir| - 1], parts);
    assert dir == dir[..|dir| - 1] + [dir[|dir| - 1]];
  }

  lemma ClimbedPlace(dir: seq<string>, parts: seq<string>)
    requires dir != [] && Clean(parts)
    ensures ResolveFragment(dir, Join([".."] + parts)) == dir[..|dir| - 1] + parts
  {
    assert AllSlashFree([".."] + parts);
    assert Join([".."] + parts)[0] == '.';
    FragmentResolves(dir, [".."] + parts);
    ParentOfStart(parts, dir);
    CleanCollapse(parts, dir[..|dir| - 1]);
  }

  lemma BackInside(above: seq<string>, name: string, parts: seq<string>)
    ensures above + [name] <= above + parts <==> parts != [] && parts[0] == name
    ensures parts != [] && parts[0] == name ==> above + parts == (above + [name]) + parts[1..]
  {
    if parts != [] {
      assert parts == [parts[0]] + parts[1..];
      assert (above + parts)[|above|] == parts[0] && (above + [name])[|above|] == name;
    }
    if above + [name] <= above + parts {
      assert (above + parts)[|above|] == (above + [name])[|above|];
    }
  }
}
