/** Mapping agent paths onto the workspace directory inside a Docker container, and back. */
module DockerPaths {
  import opened Strings
  import opened PathParts
  import opened StorageKeys
  import opened PosixPaths

  /** `_normalize_container_path`: a stack of parts. */
  method NormalizeContainerPath(path: string) returns (r: string)
    ensures r == Normalized(path)
  {
    var todo, parts := PosixParts(path), [];
    while todo != []
      invariant Collapse(todo, parts) == Collapse(PosixParts(path), [])
      decreases |todo|
    {
      var part := todo[0];
      todo := todo[1..];
      if part == "/" || part == "" || part == "." {
        continue;
      }
      if part == ".." {
        if parts != [] {
          parts := parts[..|parts| - 1];
        }
        continue;
      }
      parts := parts + [part];
    }
    r := if parts != [] then "/" + Join(parts) else "/";
  }

  /** `_clamp_to_workspace`. */
  function Clamp(root: string, path: string): string {
    var normalized := Normalized(path);
    if normalized == root || StartsWith(normalized, root + "/") then normalized else root
  }

  /** `s.lstrip("./")`: every leading dot and slash. */
  function StripDotsAndSlashes(s: string): string {
    if s != "" && (s[0] == '.' || s[0] == '/') then StripDotsAndSlashes(s[1..]) else s
  }

  /** `_map_path`: agent path to container path. */
  function MapPath(root: string, path: string): string {
    var raw := Slashes(path);
    if raw in {"", ".", "./", "/"} then root
    else if raw == root || StartsWith(raw, root + "/") then Clamp(root, raw)
    else if !StartsWith(raw, "/") then
      var rel := StripDotsAndSlashes(raw);
      if rel == "" then root else Clamp(root, root + "/" + rel)
    else Clamp(root, root + raw)
  }

  /** `_to_virtual_path`: container path to agent path. */
  function ToVirtualPath(root: string, path: string): string {
    var raw := Slashes(path);
    if raw in {"", ".", "./"} then "/"
    else
      var normalized := if StartsWith(raw, "/") then Normalized(raw)
                        else Normalized(root + "/" + StripDotsAndSlashes(raw));
      if normalized == root then "/"
      else if StartsWith(normalized, root + "/") then "/" + normalized[|root| + 1..]
      else if StartsWith(raw, "/") && !StartsWith(raw, root) then raw
      else "/"
  }

  /** A normalised workspace root other than `/`. */
  predicate WorkspaceRoot(root: string, parts: seq<string>) {
    parts != [] && Clean(parts) && root == Absolute(parts)
  }

  // ----- The mapping -----

  /** Clamping a path that begins with the root gives clean parts that begin with the root's. */
  lemma ClampInside(root: string, rootParts: seq<string>, path: string) returns (parts: seq<string>)
    requires WorkspaceRoot(root, rootParts)
    requires StartsWith(path, root) && '\\' !in path
    ensures Clean(parts) && rootParts <= parts && Clamp(root, path) == Absolute(parts)
  {
    JoinStart(rootParts);
    assert path[1] == root[1];
    parts := NormalizedIsClean(path);
    UnderMeansExtends(parts, rootParts);
    if !AtOrUnder(Absolute(parts), root) {
      parts := rootParts;
    }
  }

  /**
   * Whatever dots, slashes and parent steps an agent path holds, it is mapped to the workspace root
   * or to a path under it, in which no `.` or `..` is left.
   */
  lemma MapPathContained(root: string, rootParts: seq<string>, path: string) returns (parts: seq<string>)
    requires WorkspaceRoot(root, rootParts)
    ensures Clean(parts) && rootParts <= parts && MapPath(root, path) == Absolute(parts)
    ensures AtOrUnder(MapPath(root, path), root)
  {
    var raw := Slashes(path);
    SlashesClear(path);
    NormalizedClean(rootParts);
    parts := rootParts;
    if raw !in {"", ".", "./", "/"} {
      if raw == root || StartsWith(raw, root + "/") {
        parts := ClampInside(root, rootParts, raw);
      } else if !StartsWith(raw, "/") {
        var rel := StripDotsAndSlashes(raw);
        StripKeepsClear(raw);
        if rel != "" {
          parts := ClampInside(root, rootParts, root + "/" + rel);
        }
      } else {
        parts := ClampInside(root, rootParts, root + raw);
      }
    }
    UnderMeansExtends(parts, rootParts);
  }

  lemma {:induction false} StripKeepsClear(s: string)
    requires '\\' !in s
    ensures '\\' !in StripDotsAndSlashes(s)
  {
    if s == "" || (s[0] != '.' && s[0] != '/') {
    } else {
      assert forall c :: c in s[1..] ==> c in s;
      StripKeepsClear(s[1..]);
    }
  }

  /** Container paths that are already in place stay there. */
  lemma MapPathFixed(root: string, rootParts: seq<string>, parts: seq<string>)
    requires WorkspaceRoot(root, rootParts) && Clean(parts) && rootParts <= parts
    ensures MapPath(root, Absolute(parts)) == Absolute(parts)
  {
    var path := Absolute(parts);
    NormalizedClean(parts);
    SlashesPlain(path);
    UnderMeansExtends(parts, rootParts);
    JoinStart(parts);
  }

  lemma MapPathIdempotent(root: string, rootParts: seq<string>, path: string)
    requires WorkspaceRoot(root, rootParts)
    ensures MapPath(root, MapPath(root, path)) == MapPath(root, path)
  {
    var parts := MapPathContained(root, rootParts, path);
    MapPathFixed(root, rootParts, parts);
  }

  /** A clean absolute agent path that is not itself at or under the root gets the root put before it. */
  lemma MapPathForm(root: string, rootParts: seq<string>, parts: seq<string>)
    requires WorkspaceRoot(root, rootParts) && Clean(parts) && !(rootParts <= parts)
    ensures MapPath(root, Absolute(parts)) == Absolute(rootParts + parts)
  {
    var path := Absolute(parts);
    NormalizedClean(parts);
    SlashesPlain(path);
    if parts == [] {
      assert rootParts + parts == rootParts;
    } else {
      UnderMeansExtends(parts, rootParts);
      JoinStart(parts);
      AbsoluteAppend(rootParts, parts);
      NormalizedClean(rootParts + parts);
      UnderMeansExtends(rootParts + parts, rootParts);
    }
  }

  /** `_to_virtual_path` of a container path that is normalised already. */
  lemma VirtualOfNormalized(root: string, path: string)
    requires path != "" && path[0] == '/' && Slashes(path) == path && Normalized(path) == path
    ensures ToVirtualPath(root, path) ==
            if path == root then "/"
            else if StartsWith(path, root + "/") then "/" + path[|root| + 1..]
            else if !StartsWith(path, root) then path else "/"
  {
    assert path[..1] == "/";
  }

  /** The agent's view of a clean container path under the root. */
  lemma ToVirtualForm(root: string, rootParts: seq<string>, tail: seq<string>)
    requires WorkspaceRoot(root, rootParts) && Clean(tail)
    ensures ToVirtualPath(root, Absolute(rootParts + tail)) == Absolute(tail)
  {
    var path := Absolute(rootParts + tail);
    NormalizedClean(rootParts + tail);
    SlashesPlain(path);
    VirtualOfNormalized(root, path);
    if tail == [] {
      assert rootParts + tail == rootParts;
    } else {
      AbsoluteAppend(rootParts, tail);
      assert path == root + "/" + Join(tail);
      assert path[|root| + 1..] == Join(tail);
    }
  }

  /**
   * A canonical agent path survives the trip into the container and back exactly when it is not at or under
   * the root already.
   */
  lemma AgentRoundTrip(root: string, rootParts: seq<string>, parts: seq<string>)
    requires WorkspaceRoot(root, rootParts) && Clean(parts)
    ensures var v := Absolute(parts);
            ToVirtualPath(root, MapPath(root, v)) == v <==> !AtOrUnder(v, root)
  {
    UnderMeansExtends(parts, rootParts);
    if rootParts <= parts {
      PathUnderRootLosesIt(root, rootParts, parts);
    } else {
      MapPathForm(root, rootParts, parts);
      ToVirtualForm(root, rootParts, parts);
    }
  }

  lemma PathUnderRootLosesIt(root: string, rootParts: seq<string>, parts: seq<string>)
    requires WorkspaceRoot(root, rootParts) && Clean(parts) && rootParts <= parts
    ensures ToVirtualPath(root, MapPath(root, Absolute(parts))) == Absolute(parts[|rootParts|..]) != Absolute(parts)
  {
    var tail := parts[|rootParts|..];
    assert parts == rootParts + tail;
    MapPathFixed(root, rootParts, parts);
    ToVirtualForm(root, rootParts, tail);
    AbsoluteInjective(tail, parts);
  }

  /**
   * A container path under the root survives the trip to the agent and back
   * exactly when the agent's view of it is not at or under the root.
   */
  lemma ContainerRoundTrip(root: string, rootParts: seq<string>, parts: seq<string>)
    requires WorkspaceRoot(root, rootParts) && Clean(parts) && rootParts <= parts
    ensures var c := Absolute(parts);
            MapPath(root, ToVirtualPath(root, c)) == c <==> !AtOrUnder(ToVirtualPath(root, c), root)
  {
    var tail := parts[|rootParts|..];
    assert parts == rootParts + tail;
    ToVirtualForm(root, rootParts, tail);
    UnderMeansExtends(tail, rootParts);
    if rootParts <= tail {
      MapPathFixed(root, rootParts, tail);
      AbsoluteInjective(tail, parts);
    } else {
      MapPathForm(root, rootParts, tail);
    }
  }

  // ----- Relative names -----

  /** A relative path without the dots its first names begin with: what is left of a name of dots alone is nothing. */
  function Undotted(parts: seq<string>): seq<string> {
    if parts == [] then []
    else if StripDotsAndSlashes(parts[0]) == "" then Undotted(parts[1..])
    else [StripDotsAndSlashes(parts[0])] + parts[1..]
  }

  lemma {:induction false} StripAppend(s: string, t: string)
    ensures StripDotsAndSlashes(s + t)
         == if StripDotsAndSlashes(s) != "" then StripDotsAndSlashes(s) + t else StripDotsAndSlashes(t)
  {
    if s == "" {
      assert s + t == t;
    } else if s[0] == '.' || s[0] == '/' {
      assert (s + t)[1..] == s[1..] + t;
      StripAppend(s[1..], t);
    }
  }

  lemma {:induction false} StripSpecOf(s: string)
    ensures StripDotsAndSlashes(s) != "" ==> StripDotsAndSlashes(s)[0] !in {'.', '/'}
    ensures forall c :: c in StripDotsAndSlashes(s) ==> c in s
    ensures StripDotsAndSlashes(s) == s <==> s == "" || s[0] !in {'.', '/'}
    ensures |StripDotsAndSlashes(s)| <= |s|
  {
    if s == "" || (s[0] != '.' && s[0] != '/') {
    } else {
      StripSpecOf(s[1..]);
      assert forall c :: c in s[1..] ==> c in s;
    }
  }

  lemma {:induction false} UndottedClean(parts: seq<string>)
    requires Clean(parts)
    ensures Clean(Undotted(parts))
    ensures Undotted(parts) == parts <==> parts == [] || !StartsWith(parts[0], ".")
    ensures |Undotted(parts)| <= |parts|
  {
    if parts == [] {
    } else {
      var name := StripDotsAndSlashes(parts[0]);
      assert parts[0] in parts && forall p :: p in parts[1..] ==> p in parts;
      assert parts[0][0] in parts[0];
      StripSpecOf(parts[0]);
      UndottedClean(parts[1..]);
      assert name != "" ==> Undotted(parts)[0] == name;
    }
  }

  lemma {:induction false} StripOfJoin(parts: seq<string>)
    requires Clean(parts)
    ensures StripDotsAndSlashes(Join(parts)) == Join(Undotted(parts))
  {
    if parts == [] {
    } else {
      var name, rest := StripDotsAndSlashes(parts[0]), parts[1..];
      assert forall p :: p in rest ==> p in parts;
      StripOfJoin(rest);
      if rest == [] {
        assert Join(parts) == parts[0] && Undotted(rest) == [];
      } else {
        StripAppend(parts[0], "/" + Join(rest));
        assert Join(parts) == parts[0] + ("/" + Join(rest));
        assert ([name] + rest)[1..] == rest;
        assert name + ("/" + Join(rest)) == name + "/" + Join(rest);
        assert ("/" + Join(rest))[1..] == Join(rest);
      }
    }
  }

  /** Where a relative path of ordinary names is mapped: under the root, without those dots. */
  lemma RelativeForm(root: string, rootParts: seq<string>, parts: seq<string>)
    requires WorkspaceRoot(root, rootParts) && Clean(parts) && parts != []
    ensures MapPath(root, Join(parts)) == Absolute(rootParts + Undotted(parts))
  {
    var raw, undotted := Join(parts), Undotted(parts);
    JoinPlain(parts);
    SlashesPlain(raw);
    JoinStart(parts);
    NotDots(parts);
    StripOfJoin(parts);
    UndottedClean(parts);
    if undotted == [] {
      assert rootParts + undotted == rootParts;
    } else {
      JoinStart(undotted);
      AbsoluteAppend(rootParts, undotted);
      NormalizedClean(rootParts + undotted);
      UnderMeansExtends(rootParts + undotted, rootParts);
    }
  }

  lemma NotDots(parts: seq<string>)
    requires Clean(parts) && parts != []
    ensures Join(parts) !in {"", ".", "./", "/"}
  {
    JoinStart(parts);
    assert parts[0] in parts;
    if |parts| > 1 {
      var rest := parts[1..];
      assert forall p :: p in rest ==> p in parts;
      JoinStart(rest);
      assert |Join(parts)| == |parts[0]| + 1 + |Join(rest)|;
    } else {
      assert "./"[1] == '/' && "/"[0] == '/' && Join(parts) == parts[0];
    }
  }

  /**
   * A relative path of ordinary names is mapped to its own place under the root exactly when it does not
   * begin with a dot.
   */
  lemma RelativeKeepsPlace(root: string, rootParts: seq<string>, parts: seq<string>)
    requires WorkspaceRoot(root, rootParts) && Clean(parts) && parts != []
    ensures MapPath(root, Join(parts)) == Absolute(rootParts + parts) <==> !StartsWith(parts[0], ".")
  {
    RelativeForm(root, rootParts, parts);
    UndottedClean(parts);
    SameTail(rootParts, Undotted(parts), parts);
  }

  /** Two of them share a container path exactly when they differ in those dots only. */
  lemma RelativeNamesCollide(root: string, rootParts: seq<string>, a: seq<string>, b: seq<string>)
    requires WorkspaceRoot(root, rootParts) && Clean(a) && Clean(b) && a != [] && b != []
    ensures MapPath(root, Join(a)) == MapPath(root, Join(b)) <==> Undotted(a) == Undotted(b)
  {
    RelativeForm(root, rootParts, a);
    RelativeForm(root, rootParts, b);
    UndottedClean(a);
    UndottedClean(b);
    SameTail(rootParts, Undotted(a), Undotted(b));
  }

  lemma SameTail(root: seq<string>, a: seq<string>, b: seq<string>)
    requires Clean(root) && Clean(a) && Clean(b)
    ensures Absolute(root + a) == Absolute(root + b) <==> a == b
  {
    AbsoluteInjective(root + a, root + b);
    assert (root + a)[|root|..] == a && (root + b)[|root|..] == b;
  }

  /** In particular every hidden name collides with its visible namesake. */
  lemma HiddenNameCollides(root: string, rootParts: seq<string>, name: string)
    requires WorkspaceRoot(root, rootParts) && Clean([name]) && !StartsWith(name, ".")
    ensures MapPath(root, "." + name) == MapPath(root, name)
  {
    var visible, hidden := [name], ["." + name];
    assert name in visible && name[0] in name;
    assert Clean(hidden) by {
      assert ("." + name)[1] == name[0];
    }
    StripSpecOf(name);
    assert ("." + name)[1..] == name;
    RelativeNamesCollide(root, rootParts, visible, hidden);
  }
}
