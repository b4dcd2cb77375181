/**
 * Storage keys of an agent workspace on a cloud backend.
 *
 * A workspace-relative path becomes a key in the workspace's own remote folder; reads also probe the
 * places where earlier versions kept their files. Paths are given without surrounding blanks.
 */
module WorkspaceKeys {
  import opened Strings
  import opened PathParts
  import opened StorageKeys
  import opened PosixPaths

  /** `_strip_relative_prefix`. */
  function StripRelative(fragment: string): string {
    if StartsWith(fragment, "./") || StartsWith(fragment, ".\\") then fragment[2..] else fragment
  }

  // ----- The prefix for system files -----

  /** `normalize_system_files_path`: a prefix inside the workspace, or None for a refused value. */
  function NormalizeSystemPath(value: string): Option<string> {
    var given := Slashes(value);
    if given in {"", ".", "./"} then Some("")
    else if StartsWith(given, "/") || StartsWith(given, "~") then None
    else
      var text := RStrip(given, '/');
      if text in {"", "."} then Some("")
      else
        var parts := RelativeParts(Split(text));
        if parts == [] || ".." in parts then None else Some(Join(parts))
  }

  const SYSTEM_DIR_NAMES := {"skills", "_builtin_skills", "agents", "sessions"}
  const SYSTEM_FILE_NAMES := {
    ".bootstrapped", ".env", "checkpoints.sqlite", "memory.sqlite", "memory.sqlite-wal", "memory.sqlite-shm"
  }
  const LEGACY_READ_ROOT_DIRS := {"skills", "agents"}

  /** `is_system_logical_entry`. */
  predicate IsSystemEntry(name: string) {
    name in SYSTEM_DIR_NAMES || name in SYSTEM_FILE_NAMES || StartsWith(name, "memory.sqlite")
  }

  /** The part of a path that decides whether it is a system path. */
  function SystemBody(path: string): string {
    StripRelative(LStrip(Slashes(path), '/'))
  }

  /** A system path that is not under the prefix already. */
  predicate Recognised(body: string, prefix: string) {
    body !in {"", "."} && !AtOrUnder(body, prefix) && IsSystemEntry(Split(body)[0])
  }

  /** `apply_system_files_prefix` once its prefix is normalised. */
  function Prefixed(path: string, prefix: string): string {
    var raw, body := Slashes(path), SystemBody(path);
    if prefix == "" || raw in {"", ".", "./"} || !Recognised(body, prefix) then path
    else if StartsWith(raw, "/") then "/" + (prefix + "/" + body)
    else prefix + "/" + body
  }

  /** `apply_system_files_prefix`, which normalises its prefix on every call; None when that is refused. */
  function ApplySystemPrefix(path: string, system: string): Option<string> {
    match NormalizeSystemPath(system)
    case None => None
    case Some(prefix) => Some(Prefixed(path, prefix))
  }

  /** A prefix that `normalize_system_files_path` can return, and so one that a workspace can hold. */
  ghost predicate SystemPrefix(prefix: string) {
    exists value :: NormalizeSystemPath(value) == Some(prefix)
  }

  /** An accepted prefix is empty, or made of parts that stay inside the workspace. */
  lemma SystemPrefixForm(prefix: string) returns (parts: seq<string>)
    requires SystemPrefix(prefix)
    ensures prefix == Join(parts) && Clean(parts) && (prefix == "" <==> parts == [])
  {
    var value :| NormalizeSystemPath(value) == Some(prefix);
    var text := RStrip(Slashes(value), '/');
    parts := [];
    if Slashes(value) !in {"", ".", "./"} && text !in {"", "."} {
      parts := RelativeParts(Split(text));
      SlashesClear(value);
      RStripSpec(Slashes(value), '/');
      SplitPlain(text);
      SplitSlashFree(text);
      RelativeFrom(Split(text));
      assert parts[0] in parts;
      JoinHead(parts);
    }
  }

  /** How such a prefix begins. */
  lemma PrefixHead(prefix: string)
    requires SystemPrefix(prefix) && prefix != ""
    ensures prefix[0] != '/' && '\\' !in prefix && !StartsWith(prefix, "./") && prefix != "."
  {
    var parts := SystemPrefixForm(prefix);
    assert parts[0] in parts;
    JoinPlain(parts);
    JoinHead(parts);
  }

  /** An accepted prefix is accepted again, as it is, exactly when it does not begin with a tilde. */
  lemma Renormalizes(prefix: string)
    requires SystemPrefix(prefix)
    ensures NormalizeSystemPath(prefix) == if StartsWith(prefix, "~") then None else Some(prefix)
  {
    if prefix != "" {
      var parts := SystemPrefixForm(prefix);
      PrefixHead(prefix);
      SlashesPlain(prefix);
      JoinEnds(parts);
      SplitJoin(parts);
      CleanRelative(parts);
      assert RStrip(prefix, '/') == prefix;
    }
  }

  /** Such a prefix can be given: it hides behind a `./`, and then every path is refused. */
  lemma TildePrefixRefusesAll(path: string)
    ensures NormalizeSystemPath("./~x") == Some("~x") && ApplySystemPrefix(path, "~x") == None
  {
    SlashesPlain("./~x");
    SlashesPlain("~x");
    assert RStrip("./~x", '/') == "./~x";
    SplitSlashFreeString("~x");
    SplitCons(".", "~x");
    assert "." + "/" + "~x" == "./~x" && [".", "~x"][1..] == ["~x"] && ["~x"][1..] == [];
    assert RelativeParts([".", "~x"]) == RelativeParts(["~x"]) == ["~x"];
  }

  lemma {:induction false} RelativeFrom(parts: seq<string>)
    requires AllSlashFree(parts)
    ensures forall p :: p in RelativeParts(parts) ==> p in parts && p != "" && p != "." && SlashFree(p)
    ensures parts != [] && parts[0] != "" && parts[0] != "." ==>
            RelativeParts(parts) != [] && RelativeParts(parts)[0] == parts[0]
  {
    if parts == [] {
    } else {
      assert parts[0] in parts && forall p :: p in parts[1..] ==> p in parts;
      RelativeFrom(parts[1..]);
    }
  }

  /** How a joined list begins. */
  lemma JoinHead(parts: seq<string>)
    requires parts != [] && parts[0] != "" && SlashFree(parts[0]) && parts[0] != "."
    ensures Join(parts) != "" && Join(parts)[0] == parts[0][0] != '/'
    ensures !StartsWith(Join(parts), "./") && Join(parts) != "."
  {
    assert parts[0][0] in parts[0];
    assert parts[0] <= Join(parts);
    assert |parts[0]| > 1 ==> parts[0][1] == Join(parts)[1] && parts[0][1] in parts[0];
    assert |parts[0]| == 1 ==> parts[0] == [parts[0][0]];
  }

  // ----- Idempotence of the prefix -----

  lemma SystemBodyOfPrefixed(prefix: string, body: string)
    requires prefix != "" && prefix[0] != '/' && !StartsWith(prefix, "./") && prefix != "."
    requires '\\' !in prefix && '\\' !in body
    ensures SystemBody(prefix + "/" + body) == SystemBody("/" + (prefix + "/" + body)) == prefix + "/" + body
  {
    var p := prefix + "/" + body;
    assert p[0] == prefix[0];
    SlashesPlain(p);
    SlashesPlain("/" + p);
    LStripPlain(p, p);
    LStripPlain("/" + p, p);
    assert |prefix| > 1 ==> p[1] == prefix[1];
    assert |prefix| == 1 ==> prefix == [prefix[0]];
    assert p[0] != '\\' && p[1] != '\\';
  }

  lemma BodyClear(path: string)
    ensures '\\' !in SystemBody(path)
  {
    SlashesClear(path);
    LStripSpec(Slashes(path), '/');
  }

  /** Applying an accepted prefix twice is applying it once; both are refused for a prefix that begins with a tilde. */
  lemma ApplySystemPrefixIdempotent(path: string, prefix: string)
    requires SystemPrefix(prefix)
    ensures ApplySystemPrefix(path, prefix).None? <==> StartsWith(prefix, "~")
    ensures ApplySystemPrefix(path, prefix).Some? ==>
              ApplySystemPrefix(ApplySystemPrefix(path, prefix).value, prefix) == ApplySystemPrefix(path, prefix)
  {
    Renormalizes(prefix);
    var once := Prefixed(path, prefix);
    if once != path {
      PrefixHead(prefix);
      BodyClear(path);
      SystemBodyOfPrefixed(prefix, SystemBody(path));
    }
  }

  // ----- Keys -----

  /** A backend key, or the refusal of a path outside the workspace, or of the workspace's own prefix. */
  datatype KeyResult = Key(key: string) | Outside | BadPrefix

  /** One workspace: its directory, its system prefix, and how `~` paths expand. */
  datatype Workspace = Workspace(dir: seq<string>, system: string, expand: string -> string)

  /** `remote_workspace_virtual_root`. */
  function RemoteRoot(dir: seq<string>): string {
    var text := if dir == [] then "" else Absolute(dir);
    if StartsWith(text, "/.octop/") then text
    else "/.octop/workspaces/" + (if dir == [] then "workspace" else dir[|dir| - 1])
  }

  /** `_stored_relative`; None when the prefix is refused. */
  function StoredRelative(w: Workspace, path: string): Option<string> {
    var fragment := StripRelative(Slashes(path));
    if fragment in {"", "."} then Some(fragment) else ApplySystemPrefix(fragment, w.system)
  }

  /** `(workspace / fragment).resolve()`, without symbolic links. */
  function ResolveFragment(dir: seq<string>, fragment: string): seq<string> {
    Collapse(RelativeParts(Split(fragment)), if StartsWith(fragment, "/") then [] else dir)
  }

  /** A path that must lie in the workspace, as a key in its remote folder. */
  function RemoteKey(dir: seq<string>, local: seq<string>): KeyResult {
    if !(dir <= local) then Outside
    else
      var rel := Join(local[|dir|..]);
      Key(if rel == "" then RemoteRoot(dir) else RemoteRoot(dir) + "/" + rel)
  }

  /** `_remap_cloud_absolute`. */
  function RemapAbsolute(dir: seq<string>, mapped: string): string {
    var inside := RemoteKey(dir, Collapse(RelativeParts(Split(mapped)), []));
    var text := RStrip(Slashes(mapped), '/');
    var raw := if text == "" then "/" else text;
    if inside.Key? then inside.key
    else if AtOrUnder(raw, RemoteRoot(dir)) then raw
    else if StartsWith(mapped, "/") then mapped else "/" + mapped
  }

  /** The fragment of a relative path, with or without system mapping. */
  function Fragment(w: Workspace, path: string, mapSystem: bool): Option<string> {
    if mapSystem then StoredRelative(w, path) else Some(StripRelative(Slashes(path)))
  }

  /** `_backend_storage_key` on a cloud backend. */
  function StorageKey(w: Workspace, path: string, mapSystem: bool): KeyResult {
    if StartsWith(path, "~") then Key(RemapAbsolute(w.dir, w.expand(path)))
    else if StartsWith(path, "/") then
      match ApplySystemPrefix(Slashes(path), w.system)
      case None => BadPrefix
      case Some(mapped) => Key(RemapAbsolute(w.dir, mapped))
    else
      match Fragment(w, path, mapSystem)
      case None => BadPrefix
      case Some(fragment) => RelativeKey(w, fragment)
  }

  function RelativeKey(w: Workspace, fragment: string): KeyResult {
    if fragment in {"", "."} then Key(RemoteRoot(w.dir)) else RemoteKey(w.dir, ResolveFragment(w.dir, fragment))
  }

  /** `_legacy_flattened_key`, without system mapping: where files lay before workspaces had folders. */
  function LegacyKey(path: string): Option<string> {
    var text := Slashes(path);
    if StartsWith(text, "~") || StartsWith(text, "/") then None
    else
      var stored := StripRelative(text);
      if stored in {"", "."} then None else Some("/" + stored)
  }

  /** `_candidate_storage_keys`, without system mapping; None when the first key is refused. */
  function CandidateKeys(w: Workspace, fragment: string): Option<seq<string>> {
    match StorageKey(w, fragment, false)
    case Outside => None
    case BadPrefix => None
    case Key(key) =>
      var legacy := LegacyKey(fragment);
      Some(if legacy.Some? && legacy.value != key then [key, legacy.value] else [key])
  }

  /**
   * `_read_fragments`: where a logical path may be stored, the canonical place first; None when the prefix is
   * refused. With a prefix, an empty canonical place is left out, and nothing may be left.
   */
  function ReadFragments(w: Workspace, path: string): Option<seq<string>> {
    var s := Slashes(path);
    if StartsWith(s, "~") || StartsWith(s, "/") then Some([s]) else RelativeFragments(w, LStrip(StripRelative(s), '/'))
  }

  function RelativeFragments(w: Workspace, raw: string): Option<seq<string>> {
    if raw in {"", "."} then Some(["."]) else Assembled(w.system, StoredRelative(w, raw), LegacyFragment(w, raw))
  }

  function Assembled(system: string, canonical: Option<string>, legacy: string): Option<seq<string>> {
    match canonical
    case None => None
    case Some(c) => Some(if system == "" then [c] else WithLegacy(c, legacy))
  }

  /** Where a system path lay before the prefix was set; "" for none. */
  function LegacyFragment(w: Workspace, raw: string): string {
    if StartsWith(raw, w.system + "/") then raw[|w.system| + 1..]
    else if Split(raw)[0] in LEGACY_READ_ROOT_DIRS then raw
    else ""
  }

  function WithLegacy(canonical: string, legacy: string): seq<string> {
    (if canonical != "" then [canonical] else []) + if legacy != "" && legacy != canonical then [legacy] else []
  }

  // ----- Containment -----

  /** A workspace directory: normalised parts. */
  predicate WorkspaceDir(dir: seq<string>) {
    Clean(dir)
  }

  /**
   * A relative path, with slashes or backslashes, is refused exactly when it resolves outside the workspace
   * directory; otherwise its key is the remote root or lies under it, with no `.` or `..` left in the rest.
   */
  lemma RelativeKeyContained(w: Workspace, path: string, mapSystem: bool) returns (rest: seq<string>)
    requires WorkspaceDir(w.dir) && !StartsWith(path, "~") && !StartsWith(path, "/")
    ensures var fragment, key := Fragment(w, path, mapSystem), StorageKey(w, path, mapSystem);
            && (key.BadPrefix? <==> fragment.None?)
            && (key.Outside? <==> fragment.Some? && !(w.dir <= ResolveFragment(w.dir, fragment.value)))
            && (key.Key? ==>
                Clean(rest) && key.key == RemoteRoot(w.dir) + (if rest == [] then "" else "/" + Join(rest)))
            && (key.Key? ==> AtOrUnder(key.key, RemoteRoot(w.dir)))
  {
    rest := [];
    var found := Fragment(w, path, mapSystem);
    if found.Some? {
      var fragment := found.value;
      FragmentClear(w, path, mapSystem);
      if fragment in {"", "."} {
        DotResolvesToDir(w.dir, fragment);
      } else {
        ResolveClean(w.dir, fragment);
        rest := RemoteKeyForm(w.dir, ResolveFragment(w.dir, fragment));
      }
    }
  }

  lemma ResolveClean(dir: seq<string>, fragment: string)
    requires Clean(dir) && '\\' !in fragment
    ensures Clean(ResolveFragment(dir, fragment))
  {
    SplitPlain(fragment);
    RelativePlain(Split(fragment));
    CollapseClean(RelativeParts(Split(fragment)), if StartsWith(fragment, "/") then [] else dir);
  }

  lemma RemoteKeyForm(dir: seq<string>, local: seq<string>) returns (rest: seq<string>)
    requires Clean(local)
    ensures dir <= local ==> Clean(rest) && RemoteKey(dir, local).Key?
    ensures dir <= local ==>
            RemoteKey(dir, local).key == RemoteRoot(dir) + (if rest == [] then "" else "/" + Join(rest))
    ensures dir <= local ==> AtOrUnder(RemoteKey(dir, local).key, RemoteRoot(dir))
  {
    rest := [];
    if dir <= local {
      rest := local[|dir|..];
      assert forall p :: p in rest ==> p in local;
      if rest != [] {
        JoinStart(rest);
        assert RemoteRoot(dir) + "/" + Join(rest) == RemoteRoot(dir) + ("/" + Join(rest));
      }
    }
  }

  lemma DotResolvesToDir(dir: seq<string>, fragment: string)
    requires fragment in {"", "."}
    ensures ResolveFragment(dir, fragment) == dir
  {
    if fragment == "." {
      SplitSlashFreeString(".");
    }
    assert RelativeParts(Split(fragment)) == [];
  }

  /** No backslash is left in a fragment. */
  lemma FragmentClear(w: Workspace, path: string, mapSystem: bool)
    requires Fragment(w, path, mapSystem).Some?
    ensures '\\' !in Fragment(w, path, mapSystem).value
  {
    var fragment := StripRelative(Slashes(path));
    SlashesClear(path);
    assert '\\' !in fragment;
    if mapSystem && fragment !in {"", "."} {
      var prefix := NormalizeSystemPath(w.system).value;
      BodyClear(fragment);
      if prefix != "" {
        assert SystemPrefix(prefix);
        PrefixHead(prefix);
      }
    }
  }

  /** The remote root as a list of parts. */
  function RootParts(dir: seq<string>): seq<string> {
    if |dir| >= 2 && dir[0] == ".octop" then dir
    else [".octop", "workspaces", if dir == [] then "workspace" else dir[|dir| - 1]]
  }

  lemma RemoteRootForm(dir: seq<string>)
    requires WorkspaceDir(dir)
    ensures Clean(RootParts(dir)) && RootParts(dir) != [] && RemoteRoot(dir) == Absolute(RootParts(dir))
  {
    PlainNames();
    var name := if dir == [] then "workspace" else dir[|dir| - 1];
    assert dir != [] ==> name in dir;
    NestedRoot(name);
    if dir != [] {
      UnderOctop(dir);
    }
  }

  lemma PlainNames()
    ensures Clean([".octop"]) && Clean(["workspaces"]) && Clean(["workspace"])
  {
    assert forall c: char :: c in ".octop" || c in "workspaces" || c in "workspace" ==> c != '/' && c != '\\';
  }

  lemma NestedRoot(name: string)
    requires Clean([name])
    ensures Clean([".octop", "workspaces", name])
    ensures Absolute([".octop", "workspaces", name]) == "/.octop/workspaces/" + name
  {
    var nested := [".octop", "workspaces", name];
    PlainNames();
    assert name in [name] && ".octop" in [".octop"] && "workspaces" in ["workspaces"];
    var tail := ["workspaces", name];
    assert nested[1..] == tail && tail[1..] == [name];
    assert Join(tail) == "workspaces" + "/" + name && Join(nested) == ".octop" + "/" + Join(tail);
    assert "/" + (".octop" + "/" + ("workspaces" + "/" + name)) == "/.octop/workspaces/" + name;
  }

  lemma UnderOctop(dir: seq<string>)
    requires dir != [] && Clean(dir)
    ensures StartsWith(Absolute(dir), "/.octop/") <==> |dir| >= 2 && dir[0] == ".octop"
  {
    var octop := [".octop"];
    UnderMeansExtends(dir, octop);
    AbsoluteInjective(dir, octop);
    assert Absolute(octop) + "/" == "/.octop/";
    assert octop <= dir <==> dir[0] == ".octop";
    assert |dir| == 1 && dir[0] == ".octop" ==> dir == octop;
    assert |Absolute(octop)| < |Absolute(octop) + "/"|;
  }

  /** Remote folders none of which contains the other share no key. */
  lemma RootsApart(a: seq<string>, b: seq<string>, key: string)
    requires a != [] && b != [] && Clean(a) && Clean(b) && !(a <= b) && !(b <= a)
    requires AtOrUnder(key, Absolute(a))
    ensures !AtOrUnder(key, Absolute(b))
  {
    var pa, pb, v := Absolute(a), Absolute(b), key + "/";
    UnderMeansExtends(a, b); UnderMeansExtends(b, a);
    AbsoluteCanonical(a); AbsoluteCanonical(b);
    if AtOrUnder(key, pb) {
      assert pa + "/" <= v && pb + "/" <= v;
      assert DirTail(pa) == (pa + "/")[1..] && DirTail(pb) == (pb + "/")[1..];
      TailsNest(pa, pb, v[1..]);
    }
  }

  /** Two workspaces share a key in their remote folders exactly when one remote root contains the other. */
  lemma WorkspacesApart(dir1: seq<string>, dir2: seq<string>)
    requires WorkspaceDir(dir1) && WorkspaceDir(dir2)
    ensures (exists key :: AtOrUnder(key, RemoteRoot(dir1)) && AtOrUnder(key, RemoteRoot(dir2))) <==>
            RootParts(dir1) <= RootParts(dir2) || RootParts(dir2) <= RootParts(dir1)
  {
    var a, b := RootParts(dir1), RootParts(dir2);
    RemoteRootForm(dir1); RemoteRootForm(dir2);
    UnderMeansExtends(a, b); UnderMeansExtends(b, a);
    if !(a <= b) && !(b <= a) {
      forall key | AtOrUnder(key, RemoteRoot(dir1))
        ensures !AtOrUnder(key, RemoteRoot(dir2))
      {
        RootsApart(a, b, key);
      }
    } else {
      var key := if a <= b then RemoteRoot(dir2) else RemoteRoot(dir1);
      assert AtOrUnder(key, RemoteRoot(dir1)) && AtOrUnder(key, RemoteRoot(dir2));
    }
  }

  /** In particular, host workspaces with different folder names are kept apart. */
  lemma DifferentNamesApart(dir1: seq<string>, dir2: seq<string>, key: string)
    requires WorkspaceDir(dir1) && WorkspaceDir(dir2) && dir1 != [] && dir2 != []
    requires dir1[0] != ".octop" && dir2[0] != ".octop" && dir1[|dir1| - 1] != dir2[|dir2| - 1]
    requires AtOrUnder(key, RemoteRoot(dir1))
    ensures !AtOrUnder(key, RemoteRoot(dir2))
  {
    RemoteRootForm(dir1); RemoteRootForm(dir2);
    assert RootParts(dir1)[2] != RootParts(dir2)[2];
    RootsApart(RootParts(dir1), RootParts(dir2), key);
  }

  // ----- Absolute paths -----

  /** An absolute path inside the workspace directory goes to the remote folder, and any other one stays. */
  lemma AbsolutePathIsMapped(dir: seq<string>, parts: seq<string>)
    requires WorkspaceDir(dir) && Clean(parts)
    ensures RemapAbsolute(dir, Absolute(parts)) ==
            if dir <= parts
            then RemoteRoot(dir) + (if parts == dir then "" else "/" + Join(parts[|dir|..]))
            else Absolute(parts)
  {
    AbsoluteParts(parts);
    if dir <= parts {
      KeyInside(dir, parts);
    } else {
      AbsoluteKept(parts);
    }
  }

  lemma KeyInside(dir: seq<string>, parts: seq<string>)
    requires Clean(parts) && dir <= parts
    ensures RemoteKey(dir, parts) ==
            Key(RemoteRoot(dir) + (if parts == dir then "" else "/" + Join(parts[|dir|..])))
  {
    var root, rest := RemoteRoot(dir), parts[|dir|..];
    RestOrNone(dir, parts);
    if rest != [] {
      assert forall p :: p in rest ==> p in parts;
      JoinStart(rest);
      Appended(root, Join(rest));
    }
  }

  lemma RestOrNone(dir: seq<string>, parts: seq<string>)
    requires dir <= parts
    ensures parts[|dir|..] == [] <==> parts == dir
  {
  }

  lemma Appended(root: string, rel: string)
    ensures root + "/" + rel == root + ("/" + rel)
  {
  }

  lemma AbsoluteKept(parts: seq<string>)
    requires Clean(parts)
    ensures var path := Absolute(parts);
            && StartsWith(path, "/")
            && Slashes(path) == path
            && (if RStrip(path, '/') == "" then "/" else RStrip(path, '/')) == path
  {
    JoinPlain(parts);
    SlashesPlain(Absolute(parts));
    if parts == [] {
      assert RStrip("/", '/') == "";
    } else {
      JoinEnds(parts);
      assert !EndsWith(Absolute(parts), '/');
    }
  }
}
