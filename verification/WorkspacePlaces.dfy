/** Where the files of a workspace are stored, and in which order a read looks for them, for ordinary paths. */
module WorkspacePlaces {
  import opened Strings
  import opened PathParts
  import opened StorageKeys
  import opened PosixPaths
  import opened WorkspaceKeys
  import opened WorkspaceFiles
  import opened WorkspaceReadBack

  /** The names along an ordinary relative path: no dots, no parent steps, no blank ones, no tilde in front. */
  predicate Ordinary(parts: seq<string>) {
    parts != [] && Clean(parts) && !StartsWith(parts[0], "~")
  }

  /** The entries of a workspace that belong to the system, and those whose older place is still read. */
  lemma SystemEntries(name: string)
    ensures IsSystemEntry(name) <==>
            || name == "skills" || name == "_builtin_skills" || name == "agents" || name == "sessions"
            || name == ".bootstrapped" || name == ".env" || name == "checkpoints.sqlite"
            || (|name| >= 13 && name[..13] == "memory.sqlite")
    ensures name in LEGACY_READ_ROOT_DIRS <==> name == "skills" || name == "agents"
  {
    assert "memory.sqlite-wal"[..13] == "memory.sqlite" && "memory.sqlite-shm"[..13] == "memory.sqlite";
  }

  /** The prefix as the list of its names; a workspace can use it. */
  predicate PrefixParts(system: string, prefix: seq<string>) {
    system == Join(prefix) && Clean(prefix) && (prefix != [] ==> !StartsWith(prefix[0], "~"))
  }

  /** Where the names of a path are stored: system entries go under the prefix, unless they are under it already. */
  function Stored(prefix: seq<string>, parts: seq<string>): seq<string>
    requires parts != []
  {
    if prefix != [] && IsSystemEntry(parts[0]) && !(prefix <= parts) then prefix + parts else parts
  }

  lemma PrefixIsUsable(system: string, prefix: seq<string>)
    requires PrefixParts(system, prefix)
    ensures NormalizeSystemPath(system) == Some(system) && SystemPrefix(system)
    ensures system == "" <==> prefix == []
  {
    if prefix != [] {
      JoinStart(prefix);
      FirstChar(prefix);
      JoinPlain(prefix);
      SlashesPlain(system);
      JoinEnds(prefix);
      SlashFreeParts(prefix);
      SplitJoin(prefix);
      CleanRelative(prefix);
      assert RStrip(system, '/') == system;
    }
  }

  /** An ordinary path begins with its first name, and so not with a dot and slash, a tilde or a slash. */
  lemma FirstChar(parts: seq<string>)
    requires parts != [] && Clean(parts) && !StartsWith(parts[0], "~")
    ensures Join(parts) !in {"", ".", "./"} && !StartsWith(Join(parts), "./") && !StartsWith(Join(parts), "/")
    ensures !StartsWith(Join(parts), "~")
  {
    assert parts[0] in parts;
    JoinHead(parts);
    assert Join(parts)[0] == parts[0][0];
    assert parts[0][..1] == [parts[0][0]];
    assert "./"[..1] == ".";
  }

  lemma PlainText(parts: seq<string>)
    requires parts != [] && Clean(parts) && !StartsWith(parts[0], "~")
    ensures var path := Join(parts);
            && Slashes(path) == path && StripRelative(path) == path && LStrip(path, '/') == path
            && SystemBody(path) == path && SystemBody("/" + path) == path && Slashes("/" + path) == "/" + path
            && Split(path) == parts
  {
    var path := Join(parts);
    JoinPlain(parts);
    JoinStart(parts);
    FirstChar(parts);
    SlashesPlain(path);
    SlashesPlain("/" + path);
    LStripPlain(path, path);
    LStripPlain("/" + path, path);
    SlashFreeParts(parts);
    SplitJoin(parts);
    assert |path| > 1 ==> path[1] in path;
  }

  lemma StoredClean(prefix: seq<string>, parts: seq<string>)
    requires Clean(prefix) && Ordinary(parts) && (prefix != [] ==> !StartsWith(prefix[0], "~"))
    ensures Ordinary(Stored(prefix, parts))
  {
  }

  /** The prefix is recognised in the text of a path exactly if its names are there. */
  lemma UnderPrefix(prefix: seq<string>, parts: seq<string>)
    requires prefix != [] && parts != [] && Clean(prefix) && Clean(parts)
    ensures AtOrUnder(Join(parts), Join(prefix)) <==> prefix <= parts
  {
    SlashFreeParts(prefix);
    SlashFreeParts(parts);
    JoinPrefix(prefix, parts);
    if Join(parts) == Join(prefix) {
      JoinInjective(parts, prefix);
    }
    assert prefix <= parts && |prefix| == |parts| ==> prefix == parts;
  }

  /** What putting the prefix before a path comes to, for a relative and an absolute one. */
  lemma PrefixedPath(system: string, prefix: seq<string>, parts: seq<string>)
    requires PrefixParts(system, prefix) && Ordinary(parts)
    ensures Prefixed(Join(parts), system) == Join(Stored(prefix, parts))
    ensures Prefixed("/" + Join(parts), system) == "/" + Join(Stored(prefix, parts))
  {
    var path := Join(parts);
    PrefixIsUsable(system, prefix);
    PlainText(parts);
    FirstChar(parts);
    if prefix != [] {
      UnderPrefix(prefix, parts);
      JoinAppend(prefix, parts);
    }
  }

  /** The key of a place in the workspace. */
  function KeyOf(w: Workspace, parts: seq<string>): string {
    RemoteRoot(w.dir) + (if parts == [] then "" else "/" + Join(parts))
  }

  lemma PlaceKey(w: Workspace, parts: seq<string>)
    requires WorkspaceDir(w.dir) && parts != [] && Clean(parts)
    ensures RelativeKey(w, Join(parts)) == RemoteKey(w.dir, w.dir + parts) == Key(KeyOf(w, parts))
  {
    RelativeKeyForm(w, Join(parts));
    CleanPlace(w.dir, parts);
    JoinStart(parts);
    assert (w.dir + parts)[|w.dir|..] == parts;
    Appended(RemoteRoot(w.dir), Join(parts));
  }

  /** An ordinary relative path is written in the remote folder, under the prefix if its first name is a system one. */
  lemma RelativePathIsStored(w: Workspace, prefix: seq<string>, parts: seq<string>)
    requires WorkspaceDir(w.dir) && PrefixParts(w.system, prefix) && Ordinary(parts)
    ensures StorageKey(w, Join(parts), true) == Key(KeyOf(w, Stored(prefix, parts)))
    ensures StorageKey(w, Join(parts), false) == Key(KeyOf(w, parts))
  {
    PrefixIsUsable(w.system, prefix);
    PlainText(parts);
    FirstChar(parts);
    PrefixedPath(w.system, prefix, parts);
    StoredClean(prefix, parts);
    PlaceKey(w, parts);
    PlaceKey(w, Stored(prefix, parts));
  }

  // ----- Absolute paths -----

  /** An absolute path gets the prefix as a relative one does, and is mapped after that. */
  lemma AbsolutePathIsStored(w: Workspace, prefix: seq<string>, parts: seq<string>)
    requires WorkspaceDir(w.dir) && PrefixParts(w.system, prefix) && Ordinary(parts)
    ensures StorageKey(w, Absolute(parts), true) == Key(RemapAbsolute(w.dir, Absolute(Stored(prefix, parts))))
  {
    PrefixIsUsable(w.system, prefix);
    PlainText(parts);
    PrefixedPath(w.system, prefix, parts);
    StoredClean(prefix, parts);
    assert Absolute(parts)[0] == '/';
  }

  /** The relative and the absolute name of a file in the workspace directory give one key, away from the prefix. */
  lemma TwoNamesOfAFile(w: Workspace, parts: seq<string>)
    requires Ordinary(parts) && Ordinary(w.dir + parts) && w.system == ""
    ensures StorageKey(w, Absolute(w.dir + parts), true) == StorageKey(w, Join(parts), true) == Key(KeyOf(w, parts))
  {
    assert forall p :: p in w.dir ==> p in w.dir + parts;
    assert PrefixParts(w.system, []);
    RelativePathIsStored(w, [], parts);
    AbsolutePathIsStored(w, [], w.dir + parts);
    AbsolutePathIsMapped(w.dir, w.dir + parts);
    assert (w.dir + parts)[|w.dir|..] == parts;
  }

  // ----- Reading -----

  /** The keys a read tries for one place: in the remote folder, then as before workspaces had folders. */
  function Tried(w: Workspace, parts: seq<string>): seq<string>
    requires parts != []
  {
    if StartsWith(parts[0], "~") then [RemapAbsolute(w.dir, w.expand(Join(parts)))]
    else [KeyOf(w, parts), Absolute(parts)]
  }

  /** Where a path lay before the prefix was set; [] for nowhere else. */
  function Before(prefix: seq<string>, parts: seq<string>): seq<string>
    requires parts != []
  {
    if prefix == [] then []
    else if prefix < parts then parts[|prefix|..]
    else if prefix != parts && parts[0] in LEGACY_READ_ROOT_DIRS then parts
    else []
  }

  lemma TriedKeys(w: Workspace, parts: seq<string>)
    requires WorkspaceDir(w.dir) && parts != [] && Clean(parts)
    ensures CandidateKeys(w, Join(parts)) == Some(Tried(w, parts))
  {
    if StartsWith(parts[0], "~") {
      TildeText(parts);
    } else {
      PlainText(parts);
      FirstChar(parts);
      PlaceKey(w, parts);
      RemoteRootForm(w.dir);
      assert |KeyOf(w, parts)| > |Absolute(parts)|;
    }
  }

  lemma TildeText(parts: seq<string>)
    requires parts != [] && Clean(parts) && StartsWith(parts[0], "~")
    ensures Slashes(Join(parts)) == Join(parts) && StartsWith(Join(parts), "~")
  {
    JoinPlain(parts);
    SlashesPlain(Join(parts));
    assert parts[0][0] == '~' && Join(parts)[0] == parts[0][0];
    assert Join(parts)[..1] == [parts[0][0]];
  }

  /** The fragments of an ordinary path: where it is stored, and where it lay before. */
  lemma FragmentsOf(w: Workspace, prefix: seq<string>, parts: seq<string>)
    requires WorkspaceDir(w.dir) && PrefixParts(w.system, prefix) && Ordinary(parts)
    ensures var before := Before(prefix, parts);
            ReadFragments(w, Join(parts)) ==
            Some([Join(Stored(prefix, parts))] + if before == [] then [] else [Join(before)])
  {
    var path := Join(parts);
    PrefixIsUsable(w.system, prefix);
    PlainText(parts);
    FirstChar(parts);
    PrefixedPath(w.system, prefix, parts);
    StoredClean(prefix, parts);
    FirstChar(Stored(prefix, parts));
    assert StoredRelative(w, path) == Some(Join(Stored(prefix, parts)));
    if prefix != [] {
      LegacyOf(w, prefix, parts);
      OtherPlace(prefix, parts);
      WholePrefix(prefix, parts);
    } else {
      assert Before(prefix, parts) == [];
      assert [Join(Stored(prefix, parts))] + [] == [Join(Stored(prefix, parts))];
    }
  }

  lemma WholePrefix(prefix: seq<string>, parts: seq<string>)
    ensures prefix <= parts <==> prefix < parts || prefix == parts
  {
  }

  lemma LegacyOf(w: Workspace, prefix: seq<string>, parts: seq<string>)
    requires PrefixParts(w.system, prefix) && prefix != [] && Ordinary(parts)
    ensures LegacyFragment(w, Join(parts)) ==
            if prefix < parts then Join(parts[|prefix|..])
            else if parts[0] in LEGACY_READ_ROOT_DIRS then Join(parts)
            else ""
  {
    PlainText(parts);
    SlashFreeParts(prefix);
    SlashFreeParts(parts);
    JoinPrefix(prefix, parts);
    if prefix < parts {
      var rest := parts[|prefix|..];
      assert parts == prefix + rest;
      JoinAppend(prefix, rest);
      assert Join(parts)[|w.system| + 1..] == Join(rest);
    }
  }

  lemma OtherPlace(prefix: seq<string>, parts: seq<string>)
    requires prefix != [] && Clean(prefix) && Ordinary(parts)
    requires !StartsWith(prefix[0], "~")
    ensures prefix < parts ==>
              Join(parts[|prefix|..]) != "" && Join(parts[|prefix|..]) != Join(Stored(prefix, parts))
    ensures !(prefix <= parts) && parts[0] in LEGACY_READ_ROOT_DIRS ==>
              Join(parts) != "" && Join(parts) != Join(Stored(prefix, parts))
    ensures prefix == parts ==> Join(Stored(prefix, parts)) == Join(parts)
  {
    StoredClean(prefix, parts);
    var stored := Stored(prefix, parts);
    SlashFreeParts(stored);
    JoinStart(parts);
    SlashFreeParts(parts);
    if prefix < parts {
      var rest := parts[|prefix|..];
      assert forall p :: p in rest ==> p in parts;
      JoinStart(rest);
      SlashFreeParts(rest);
      if Join(rest) == Join(stored) {
        JoinInjective(rest, stored);
      }
    } else if Join(parts) == Join(stored) {
      JoinInjective(parts, stored);
    }
  }

  /**
   * A read of an ordinary path tries, in this order and nothing else: the place where it is written, that place
   * without the remote folder, and the same two for where it lay before the prefix was set.
   */
  lemma ReadOrder(w: Workspace, prefix: seq<string>, parts: seq<string>)
    requires WorkspaceDir(w.dir) && PrefixParts(w.system, prefix) && Ordinary(parts)
    ensures ReadFragments(w, Join(parts)).Some?
    ensures var before := Before(prefix, parts);
            ProbedKeys(w, ReadFragments(w, Join(parts)).value) ==
            Tried(w, Stored(prefix, parts)) + if before == [] then [] else Tried(w, before)
  {
    var stored, before := Stored(prefix, parts), Before(prefix, parts);
    FragmentsOf(w, prefix, parts);
    StoredClean(prefix, parts);
    TriedKeys(w, stored);
    if before == [] {
      ProbedOne(w, Join(stored));
    } else {
      assert forall p :: p in before ==> p in parts;
      TriedKeys(w, before);
      ProbedTwo(w, Join(stored), Join(before));
    }
  }

  lemma ProbedOne(w: Workspace, a: string)
    requires CandidateKeys(w, a).Some?
    ensures ProbedKeys(w, [a] + []) == CandidateKeys(w, a).value
  {
    assert ([a] + [])[1..] == [];
  }

  lemma ProbedTwo(w: Workspace, a: string, b: string)
    requires CandidateKeys(w, a).Some? && CandidateKeys(w, b).Some?
    ensures ProbedKeys(w, [a] + [b]) == CandidateKeys(w, a).value + CandidateKeys(w, b).value
  {
    var rest := [b];
    assert ([a] + rest)[1..] == rest;
    assert rest[1..] == [];
    assert ProbedKeys(w, rest) == CandidateKeys(w, b).value + [];
  }

  // ----- The prefix -----

  lemma {:induction false} RelativeAppend(a: seq<string>, b: seq<string>)
    ensures RelativeParts(a + b) == RelativeParts(a) + RelativeParts(b)
  {
    if a == [] {
      assert a + b == b;
    } else {
      assert (a + b)[1..] == a[1..] + b;
      RelativeAppend(a[1..], b);
    }
  }

  lemma {:induction false} StrippedNames(s: string)
    ensures RelativeParts(Split(RStrip(s, '/'))) == RelativeParts(Split(s))
  {
    if s == "" || s[|s| - 1] != '/' {
    } else {
      var t := s[..|s| - 1];
      StrippedNames(t);
      assert s == t + "/" + "";
      SplitAtSlash(t, "");
      RelativeAppend(Split(t), [""]);
      assert RelativeParts([""]) == [];
    }
  }

  /**
   * A value for the prefix is accepted exactly if it is relative, does not begin with a tilde, and names no parent
   * step; what is accepted are its names, joined. Of a value without names only the plainest are accepted, as none.
   */
  lemma PrefixExactly(value: string)
    requires var given := Slashes(value); !StartsWith(given, "/") && !StartsWith(given, "~")
    ensures var names := RelativeParts(Split(Slashes(value)));
            && (names != [] ==> NormalizeSystemPath(value) == if ".." in names then None else Some(Join(names)))
            && (names == [] && NormalizeSystemPath(value).Some? ==> NormalizeSystemPath(value) == Some(""))
            && (names == [] ==> (NormalizeSystemPath(value).Some? <==>
                                 Slashes(value) == "" || RStrip(Slashes(value), '/') == "."))
  {
    var given := Slashes(value);
    StrippedNames(given);
    RStripSpec(given, '/');
    PlainestHaveNoNames();
    assert RStrip(".", '/') == "." && RStrip("./", '/') == RStrip("./"[..1], '/') && "./"[..1] == ".";
  }

  lemma PlainestHaveNoNames()
    ensures RelativeParts(Split("")) == RelativeParts(Split(".")) == RelativeParts(Split("./")) == []
  {
    SplitSlashFreeString("");
    SplitSlashFreeString(".");
    SplitCons(".", "");
    assert "." + "/" + "" == "./";
    assert [""][1..] == [] && ["."][1..] == [] && (["."] + [""])[1..] == [""];
    assert RelativeParts([""]) == [];
    assert RelativeParts(["."]) == [];
  }
}
