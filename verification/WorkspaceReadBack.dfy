/** Which workspace paths are read from where they are written. */
module WorkspaceReadBack {
  import opened Strings
  import opened PathParts
  import opened StorageKeys
  import opened PosixPaths
  import opened WorkspaceKeys
  import opened WorkspaceFiles

  /** The first key a read probes; None when the read is refused before it, or probes nothing. */
  function FirstProbed(w: Workspace, path: string): Option<string> {
    match ReadFragments(w, path)
    case None => None
    case Some(fragments) =>
      if fragments == [] then None
      else
        var key := StorageKey(w, fragments[0], false);
        if key.Key? then Some(key.key) else None
  }

  /** Reading after this forced write gives what is stored under the key it wrote. */
  ghost predicate ReadsBack(w: Workspace, path: string, key: string, files: map<string, string>,
                            content: string, limit: nat)
  {
    var after := ForceWrite(files, key, content);
    after.Some? && key in after.value ==> ReadPath(w, after.value, path, limit) == Text(Cut(after.value[key], limit))
  }

  /**
   * A path reads back after every forced write, on every store and whatever older copies lie elsewhere, exactly
   * when a read probes the written key first.
   */
  lemma ReadBackIffProbedFirst(w: Workspace, path: string, key: string)
    requires StorageKey(w, path, true) == Key(key)
    ensures (forall files, content, limit :: ReadsBack(w, path, key, files, content, limit)) <==>
            FirstProbed(w, path) == Some(key)
  {
    if FirstProbed(w, path) == Some(key) {
      forall files, content, limit: nat
        ensures ReadsBack(w, path, key, files, content, limit)
      {
        var keys := CandidateKeys(w, ReadFragments(w, path).value[0]).value;
        assert keys[0] == key;
      }
    } else {
      var files := if FirstProbed(w, path).Some? then map[FirstProbed(w, path).value := "older"] else map[];
      var after := files[key := ""];
      assert ForceWrite(files, key, "") == Some(after);
      if FirstProbed(w, path).Some? {
        var keys := CandidateKeys(w, ReadFragments(w, path).value[0]).value;
        assert keys[0] == FirstProbed(w, path).value;
        assert after[keys[0]] == "older";
      }
      assert !ReadsBack(w, path, key, files, "", 1);
    }
  }

  /** After a successful forced write such a path exists and reads as written, up to what a forced write can replace. */
  lemma ReadBack(w: Workspace, files: map<string, string>, path: string, content: string, limit: nat)
    requires StorageKey(w, path, true).Key? && FirstProbed(w, path) == Some(StorageKey(w, path, true).key)
    requires ForceWrite(files, StorageKey(w, path, true).key, content).Some?
    ensures var key := StorageKey(w, path, true).key;
            var after := ForceWrite(files, key, content).value;
            && key in after
            && ReadPath(w, after, path, limit) == Text(Cut(after[key], limit))
            && (after[key] == content <==> key !in files || |files[key]| <= FORCE_LIMIT)
  {
    var key := StorageKey(w, path, true).key;
    ForceWriteStores(files, key, content);
    ReadBackIffProbedFirst(w, path, key);
    assert ReadsBack(w, path, key, files, content, limit);
  }

  // ----- Absolute and home paths -----

  /** Absolute paths always read back. */
  lemma AbsoluteReadsBack(w: Workspace, path: string, key: string)
    requires StartsWith(path, "/") && StorageKey(w, path, true) == Key(key)
    ensures FirstProbed(w, path) == Some(key)
  {
    SlashesStart(path);
    SlashesTwice(path);
  }

  /** Home paths do exactly if their backslashes do not change where they expand to. */
  lemma HomeReadsBack(w: Workspace, path: string, key: string)
    requires StartsWith(path, "~") && StorageKey(w, path, true) == Key(key)
    ensures FirstProbed(w, path) == Some(key) <==> RemapAbsolute(w.dir, w.expand(Slashes(path))) == key
  {
    SlashesStart(path);
  }

  lemma SlashesStart(path: string)
    requires path != ""
    ensures Slashes(path) != "" && Slashes(path)[0] == if path[0] == '\\' then '/' else path[0]
  {
  }

  lemma SlashesTwice(path: string)
    ensures Slashes(Slashes(path)) == Slashes(path)
  {
    SlashesClear(path);
    SlashesPlain(Slashes(path));
  }

  // ----- Relative paths -----

  lemma RelativeKeyForm(w: Workspace, fragment: string)
    ensures RelativeKey(w, fragment) == RemoteKey(w.dir, ResolveFragment(w.dir, fragment))
  {
    if fragment in {"", "."} {
      DotResolvesToDir(w.dir, fragment);
      assert w.dir[|w.dir|..] == [];
    }
  }

  lemma RemoteKeyInjective(dir: seq<string>, a: seq<string>, b: seq<string>)
    requires Clean(a) && Clean(b) && RemoteKey(dir, a).Key?
    ensures RemoteKey(dir, a) == RemoteKey(dir, b) <==> a == b
  {
    if dir <= b {
      var restA, restB := a[|dir|..], b[|dir|..];
      assert a == dir + restA && b == dir + restB;
      assert forall p :: p in restA ==> p in a;
      assert forall p :: p in restB ==> p in b;
      TailsInjective(RemoteRoot(dir), restA, restB);
    }
  }

  lemma TailsInjective(root: string, a: seq<string>, b: seq<string>)
    requires Clean(a) && Clean(b)
    ensures (if Join(a) == "" then root else root + "/" + Join(a)) ==
            (if Join(b) == "" then root else root + "/" + Join(b))
       <==> a == b
  {
    if a != [] {
      JoinStart(a);
    }
    if b != [] {
      JoinStart(b);
    }
    assert Join(a) != "" ==> (root + "/" + Join(a))[|root| + 1..] == Join(a);
    assert Join(b) != "" ==> (root + "/" + Join(b))[|root| + 1..] == Join(b);
    if Join(a) == Join(b) && a != [] && b != [] {
      SlashFreeParts(a); SlashFreeParts(b);
      JoinInjective(a, b);
    }
  }

  /** Two relative fragments name the same key exactly when they resolve to the same place. */
  lemma SamePlace(w: Workspace, a: string, b: string)
    requires WorkspaceDir(w.dir) && '\\' !in a && '\\' !in b && RelativeKey(w, a).Key?
    ensures RelativeKey(w, a) == RelativeKey(w, b) <==> ResolveFragment(w.dir, a) == ResolveFragment(w.dir, b)
  {
    RelativeKeyForm(w, a); RelativeKeyForm(w, b);
    ResolveClean(w.dir, a); ResolveClean(w.dir, b);
    RemoteKeyInjective(w.dir, ResolveFragment(w.dir, a), ResolveFragment(w.dir, b));
  }

  /**
   * A path that begins with a backslash is written as an absolute fragment and read as an absolute path: the
   * same place.
   */
  lemma BackslashReadsBack(w: Workspace, path: string, key: string)
    requires StartsWith(path, "\\") && StorageKey(w, path, true) == Key(key)
    ensures FirstProbed(w, path) == Some(key)
  {
    var s := Slashes(path);
    SlashesStart(path);
    SlashesTwice(path);
    var a := Fragment(w, path, true).value;
    assert StripRelative(s) == s && a[0] == '/';
    RelativeKeyForm(w, a);
  }

  /** Where a read looks for what its first fragment names. */
  function FirstPlace(w: Workspace, c: string): KeyResult {
    if StartsWith(c, "~") then Key(RemapAbsolute(w.dir, w.expand(c)))
    else if StartsWith(c, "/") then StorageKey(w, c, false)
    else RelativeKey(w, StripRelative(c))
  }

  /**
   * Any other relative path reads back exactly if its canonical fragment, stripped once more as reads strip it,
   * leads where the written fragment leads: by expansion for a `~` fragment, by mapping for an absolute one, and
   * otherwise by resolving to the same place.
   */
  lemma RelativeReadsBack(w: Workspace, path: string, key: string, c: string)
    requires WorkspaceDir(w.dir) && path != "" && path[0] !in {'~', '/', '\\'}
    requires StorageKey(w, path, true) == Key(key)
    requires ReadFragments(w, path).Some? && ReadFragments(w, path).value != [] && ReadFragments(w, path).value[0] == c
    ensures Fragment(w, path, true).Some?
    ensures FirstProbed(w, path) == Some(key) <==>
            if StartsWith(c, "~") || StartsWith(c, "/") then FirstPlace(w, c) == Key(key)
            else ResolveFragment(w.dir, StripRelative(c)) == ResolveFragment(w.dir, Fragment(w, path, true).value)
  {
    var s, a := Slashes(path), Fragment(w, path, true).value;
    SlashesStart(path);
    FirstFragmentClear(w, path);
    SlashesPlain(c);
    FragmentClear(w, path, true);
    if !StartsWith(c, "~") && !StartsWith(c, "/") {
      SamePlace(w, a, StripRelative(c));
    }
  }

  lemma FirstFragmentClear(w: Workspace, path: string)
    requires ReadFragments(w, path).Some? && ReadFragments(w, path).value != []
    ensures '\\' !in ReadFragments(w, path).value[0]
  {
    var s := Slashes(path);
    SlashesClear(path);
    if !StartsWith(s, "~") && !StartsWith(s, "/") {
      LStripSpec(StripRelative(s), '/');
      FirstOfRelativeClear(w, LStrip(StripRelative(s), '/'));
    }
  }

  lemma FirstOfRelativeClear(w: Workspace, raw: string)
    requires '\\' !in raw && RelativeFragments(w, raw).Some? && RelativeFragments(w, raw).value != []
    ensures '\\' !in RelativeFragments(w, raw).value[0]
  {
    if raw !in {"", "."} {
      FragmentClear(w, raw, true);
    }
  }

  /** The same for a fragment read as a relative one, given where both fragments lead. */
  lemma RelativeFragmentReadsBack(w: Workspace, path: string, key: string, c: string, read: seq<string>,
                                  written: seq<string>)
    requires WorkspaceDir(w.dir) && path != "" && path[0] !in {'~', '/', '\\'}
    requires StorageKey(w, path, true) == Key(key)
    requires ReadFragments(w, path).Some? && ReadFragments(w, path).value != [] && ReadFragments(w, path).value[0] == c
    requires !StartsWith(c, "~") && !StartsWith(c, "/") && ResolveFragment(w.dir, StripRelative(c)) == read
    requires Fragment(w, path, true).Some? && ResolveFragment(w.dir, Fragment(w, path, true).value) == written
    ensures FirstProbed(w, path) == Some(key) <==> read == written
  {
    RelativeReadsBack(w, path, key, c);
  }

  // ----- Paths by their leading `./` -----

  function Dots(k: nat): string {
    if k == 0 then "" else "./" + Dots(k - 1)
  }

  /** Every path is some leading `./` and a rest without one. */
  lemma {:induction false} DotsOf(s: string) returns (k: nat, core: string)
    ensures s == Dots(k) + core && !StartsWith(core, "./")
  {
    if StartsWith(s, "./") {
      k, core := DotsOf(s[2..]);
      k := k + 1;
      assert s == "./" + s[2..];
      assert s == Dots(k) + core;
    } else {
      k, core := 0, s;
    }
  }

  /** The rest of a path in which backslashes have been replaced. */
  predicate CoreOf(core: string) {
    !StartsWith(core, "./") && '\\' !in core
  }

  lemma DotsHead(k: nat, core: string)
    requires CoreOf(core)
    ensures '\\' !in Dots(k) + core
    ensures StripRelative(Dots(k) + core) == Dots(if k > 0 then k - 1 else 0) + core
    ensures k > 0 ==> Dots(k) + core == "./" + (Dots(k - 1) + core)
    ensures k > 0 ==> LStrip(Dots(k) + core, '/') == Dots(k) + core && (Dots(k) + core)[0] == '.'
    ensures k == 0 ==> Dots(k) + core == core
  {
    DotsClear(k);
    if k > 0 {
      var t := Dots(k - 1) + core;
      assert Dots(k) + core == "./" + t;
      assert ("./" + t)[2..] == t;
    } else {
      assert Dots(k) + core == core;
      assert |core| > 1 ==> core[1] in core;
      assert !StartsWith(core, ".\\") && StripRelative(core) == core;
    }
  }

  lemma {:induction false} DotsClear(k: nat)
    ensures '\\' !in Dots(k)
  {
    if k == 0 {
    } else {
      DotsClear(k - 1);
    }
  }

  /** Behind at least one `./`, resolving is relative and takes no notice of it. */
  lemma {:induction false} PlaceBehindDots(dir: seq<string>, k: nat, core: string)
    requires CoreOf(core) && k > 0
    ensures ResolveFragment(dir, Dots(k) + core) == Collapse(RelativeParts(Split(core)), dir)
  {
    var t := Dots(k - 1) + core;
    DotsHead(k, core);
    assert Dots(k) + core == "." + "/" + t;
    SplitCons(".", t);
    assert (["."] + Split(t))[1..] == Split(t);
    if k > 1 {
      DotsHead(k - 1, core);
      PlaceBehindDots(dir, k - 1, core);
    } else {
      assert t == core;
    }
  }

  lemma NoSuchEntries()
    ensures !IsSystemEntry(".") && !IsSystemEntry("")
  {
  }

  lemma NotRecognised(head: string, rest: string, prefix: string)
    requires head == "" || head == "."
    ensures !Recognised(head + "/" + rest, prefix)
  {
    NoSuchEntries();
    SplitCons(head, rest);
    assert ([head] + Split(rest))[0] == head;
  }

  lemma PrefixedUnrecognised(path: string, body: string, prefix: string)
    requires SystemBody(path) == body && !Recognised(body, prefix)
    ensures Prefixed(path, prefix) == path
  {
  }

  /** Behind two or more `./` nothing is recognised as a system path. */
  lemma NothingBehindTwoDots(k: nat, core: string, prefix: string)
    requires CoreOf(core) && k >= 2
    ensures Prefixed(Dots(k) + core, prefix) == Dots(k) + core
  {
    var path, rest := Dots(k) + core, Dots(k - 2) + core;
    DotsHead(k, core);
    DotsHead(k - 1, core);
    SlashesPlain(path);
    var body := Dots(k - 1) + core;
    assert body == "." + "/" + rest;
    NotRecognised(".", rest, prefix);
    PrefixedUnrecognised(path, body, prefix);
  }

  /** Nor behind one, before a slash. */
  lemma NothingBehindDotSlash(core: string, prefix: string)
    requires CoreOf(core) && StartsWith(core, "/")
    ensures Prefixed(Dots(1) + core, prefix) == Dots(1) + core
  {
    BodyBehindDot(core);
    SlashFirst(core, prefix);
    PrefixedUnrecognised(Dots(1) + core, core, prefix);
  }

  lemma BodyBehindDot(core: string)
    requires CoreOf(core)
    ensures SystemBody(Dots(1) + core) == core
  {
    DotsHead(1, core);
    DotsHead(0, core);
    SlashesPlain(Dots(1) + core);
  }

  lemma SlashFirst(core: string, prefix: string)
    requires StartsWith(core, "/")
    ensures !Recognised(core, prefix)
  {
    assert core == "" + "/" + core[1..];
    NotRecognised("", core[1..], prefix);
  }

  lemma PrefixedRecognised(path: string, raw: string, body: string, prefix: string)
    requires Slashes(path) == raw && SystemBody(path) == body && prefix != "" && raw !in {"", ".", "./"}
    requires Recognised(body, prefix) && !StartsWith(raw, "/")
    ensures Prefixed(path, prefix) == prefix + "/" + body
  {
  }

  /** Otherwise one `./` makes no difference to that. */
  lemma SystemBehindOneDot(core: string, prefix: string)
    requires CoreOf(core) && !StartsWith(core, "/")
    ensures Prefixed(Dots(1) + core, prefix) ==
            if Prefixed(core, prefix) == core then Dots(1) + core else Prefixed(core, prefix)
  {
    var path := Dots(1) + core;
    DotsHead(1, core);
    DotsHead(0, core);
    SlashesPlain(path);
    SlashesPlain(core);
    LStripPlain(core, core);
    assert SystemBody(path) == core == SystemBody(core);
    if prefix != "" && core !in {"", "."} && Recognised(core, prefix) {
      PrefixedRecognised(path, path, core, prefix);
      PrefixedRecognised(core, core, core, prefix);
      assert |prefix + "/" + core| > |core|;
    }
  }

  /** What a path of this form is written as. */
  lemma WrittenFragment(w: Workspace, path: string, k: nat, core: string)
    requires CoreOf(core) && Slashes(path) == Dots(k) + core && path != "" && path[0] !in {'~', '/', '\\'}
    requires SystemPrefix(w.system) && StorageKey(w, path, true).Key?
    ensures Fragment(w, path, true) == Some(Prefixed(Dots(if k > 0 then k - 1 else 0) + core, w.system))
    ensures NormalizeSystemPath(w.system) == Some(w.system) || Dots(if k > 0 then k - 1 else 0) + core in {"", "."}
  {
    DotsHead(k, core);
    Renormalizes(w.system);
    PrefixedDot(StripRelative(Slashes(path)), w.system);
  }

  lemma PrefixedDot(f: string, prefix: string)
    ensures f in {"", ".", "./"} ==> Prefixed(f, prefix) == f
  {
    if f in {"", ".", "./"} {
      assert '\\' !in f;
      SlashesPlain(f);
    }
  }

  /** What a read of it looks for first, behind two `./` or more. */
  lemma ReadBehindTwoDots(w: Workspace, path: string, rest: string)
    requires Slashes(path) == "./" + ("./" + rest) && path != "" && path[0] !in {'~', '/', '\\'}
    requires NormalizeSystemPath(w.system) == Some(w.system)
    ensures var c := Prefixed(rest, w.system);
            ReadFragments(w, path) == Some(if c == "" && w.system != "" then [] else [c])
  {
    var raw := "./" + rest;
    SlashesClear(path);
    assert Slashes(path)[2..] == raw && raw[2..] == rest;
    assert StripRelative(Slashes(path)) == raw && raw[0] == '.' && LStrip(raw, '/') == raw;
    StoredBehindDots(w, rest);
    if w.system != "" {
      NoLegacyBehindDots(w, rest);
    }
    FragmentsFrom(w, path, raw, Prefixed(rest, w.system));
  }

  lemma FragmentsFrom(w: Workspace, path: string, raw: string, c: string)
    requires path != "" && path[0] !in {'~', '/', '\\'}
    requires raw == LStrip(StripRelative(Slashes(path)), '/') && raw !in {"", "."}
    requires StoredRelative(w, raw) == Some(c) && (w.system != "" ==> LegacyFragment(w, raw) == "")
    ensures ReadFragments(w, path) == Some(if c == "" && w.system != "" then [] else [c])
  {
    SlashesStart(path);
    var legacy := LegacyFragment(w, raw);
    AssembledWithout(w.system, c, legacy);
    assert RelativeFragments(w, raw) == Assembled(w.system, Some(c), legacy);
  }

  lemma AssembledWithout(system: string, c: string, legacy: string)
    requires system != "" ==> legacy == ""
    ensures Assembled(system, Some(c), legacy) == Some(if c == "" && system != "" then [] else [c])
  {
    var none: seq<string> := [];
    assert [c] + none == [c] && none + none == none;
  }

  lemma StoredBehindDots(w: Workspace, rest: string)
    requires '\\' !in rest && NormalizeSystemPath(w.system) == Some(w.system)
    ensures StoredRelative(w, "./" + rest) == Some(Prefixed(rest, w.system))
  {
    var raw := "./" + rest;
    SlashesPlain(raw);
    assert raw[2..] == rest;
    PrefixedDot(rest, w.system);
  }

  lemma NoLegacyBehindDots(w: Workspace, rest: string)
    requires NormalizeSystemPath(w.system) == Some(w.system) && w.system != ""
    ensures LegacyFragment(w, "./" + rest) == ""
  {
    assert SystemPrefix(w.system);
    PrefixHead(w.system);
    assert "./" + rest == "." + "/" + rest;
    SplitCons(".", rest);
    assert Split("./" + rest)[0] == ".";
    NoPrefixOfDots(w.system, rest);
  }

  lemma NoPrefixOfDots(prefix: string, rest: string)
    requires prefix != "" && prefix[0] != '/' && !StartsWith(prefix, "./") && prefix != "."
    ensures !StartsWith("./" + rest, prefix + "/")
  {
    var p, r := prefix + "/", "./" + rest;
    assert r[0] == '.' && r[1] == '/' && p[0] == prefix[0];
    assert |prefix| == 1 ==> prefix == [prefix[0]];
    assert |prefix| > 1 ==> p[1] == prefix[1] && prefix[..2] == [prefix[0], prefix[1]];
  }

  /** And behind one or none. */
  lemma ReadBehindOneDot(w: Workspace, path: string, k: nat, core: string)
    requires CoreOf(core) && Slashes(path) == Dots(k) + core && path != "" && path[0] !in {'~', '/', '\\'}
    requires k <= 1 && !StartsWith(core, "/")
    ensures core in {"", "."} ==> ReadFragments(w, path) == Some(["."])
    ensures core !in {"", "."} && NormalizeSystemPath(w.system) == Some(w.system) ==>
              && ReadFragments(w, path).Some? && ReadFragments(w, path).value != []
              && ReadFragments(w, path).value[0] == Prefixed(core, w.system) != ""
  {
    SlashesStart(path);
    DotsHead(k, core);
    DotsHead(0, core);
    LStripPlain(core, core);
    SlashesPlain(core);
  }

  // ----- Exactly which relative paths read back -----

  lemma PrefixedPlain(core: string, prefix: string)
    requires CoreOf(core) && SystemPrefix(prefix) && !StartsWith(core, "/")
    ensures Prefixed(core, prefix) == core || (prefix != "" && Prefixed(core, prefix) == prefix + "/" + core)
    ensures StripRelative(Prefixed(core, prefix)) == Prefixed(core, prefix)
    ensures !StartsWith(Prefixed(core, prefix), "/") && '\\' !in Prefixed(core, prefix)
    ensures StartsWith(Prefixed(core, prefix), "~") ==> StartsWith(core, "~") || StartsWith(prefix, "~")
  {
    DotsHead(0, core);
    SlashesPlain(core);
    LStripPlain(core, core);
    assert SystemBody(core) == core;
    if prefix != "" {
      PrefixHead(prefix);
      var p := prefix + "/" + core;
      assert p[0] == prefix[0];
      assert |prefix| > 1 ==> p[1] == prefix[1];
      assert |prefix| == 1 ==> prefix == [prefix[0]];
      assert '\\' !in p && p[1] in p;
    }
  }

  /** A relative fragment, and where it leads stripped once more or not. */
  ghost predicate LeadsTo(w: Workspace, x: string, core: string) {
    && ResolveFragment(w.dir, x) == ResolveFragment(w.dir, core)
    && ResolveFragment(w.dir, StripRelative(x)) == ResolveFragment(w.dir, core)
    && !StartsWith(x, "/") && !StartsWith(x, "~")
  }

  lemma DotsLeadTo(w: Workspace, j: nat, core: string)
    requires CoreOf(core) && !StartsWith(core, "/") && !StartsWith(core, "~")
    ensures LeadsTo(w, Dots(j) + core, core)
  {
    DotsHead(j, core);
    DotsHead(0, core);
    if j > 0 {
      PlaceBehindDots(w.dir, j, core);
    }
    if j > 1 {
      PlaceBehindDots(w.dir, j - 1, core);
    }
  }

  /** Where a fragment leads that the prefix is put before, if it is put there. */
  lemma PlaceOfPrefixed(w: Workspace, j: nat, core: string)
    requires CoreOf(core) && SystemPrefix(w.system) && !StartsWith(core, "/") && !StartsWith(core, "~")
    requires !StartsWith(w.system, "~")
    ensures LeadsTo(w, Prefixed(Dots(j) + core, w.system), if j <= 1 then Prefixed(core, w.system) else core)
  {
    DotsLeadTo(w, j, core);
    if j >= 2 {
      NothingBehindTwoDots(j, core, w.system);
    } else {
      PrefixedPlain(core, w.system);
      if j == 1 {
        SystemBehindOneDot(core, w.system);
      } else {
        DotsHead(0, core);
      }
    }
  }

  /** The workspace directory itself reads back. */
  lemma DotReadsBack(w: Workspace, path: string, dot: string, key: string)
    requires dot in {"", "."} && ReadFragments(w, path) == Some(["."])
    requires StorageKey(w, path, true) == Key(key) && RelativeKey(w, dot).Key? && key == RelativeKey(w, dot).key
    ensures FirstProbed(w, path) == Some(key)
  {
    SlashesPlain(".");
    assert "."[0] == '.' && StripRelative(".") == ".";
  }

  /**
   * A path whose rest is an ordinary relative one reads back unless it is `././`, or has exactly three leading
   * `./` before a system path: the write then sees one too many of them to put the prefix before it, the read does
   * not. That makes a difference if the prefix leads elsewhere.
   */
  lemma PlainReadsBack(w: Workspace, path: string, k: nat, core: string, key: string)
    requires WorkspaceDir(w.dir) && SystemPrefix(w.system)
    requires CoreOf(core) && Slashes(path) == Dots(k) + core && path != "" && path[0] !in {'~', '/', '\\'}
    requires !StartsWith(core, "/") && !StartsWith(core, "~")
    requires StorageKey(w, path, true) == Key(key)
    ensures FirstProbed(w, path) == Some(key) <==>
            && !(k == 2 && core == "" && w.system != "")
            && (k == 3 ==> ResolveFragment(w.dir, Prefixed(core, w.system)) == ResolveFragment(w.dir, core))
  {
    if k <= 1 && core in {"", "."} {
      ReadBehindOneDot(w, path, k, core);
      WrittenFragment(w, path, k, core);
      DotsHead(0, core);
      PrefixedDot(core, w.system);
      DotReadsBack(w, path, core, key);
    } else {
      var a, fragments := PlainFragments(w, path, k, core);
      if fragments != [] {
        RelativeReadsBack(w, path, key, fragments[0]);
      }
    }
  }

  /** The written fragment and the read ones, and where they lead. */
  lemma PlainFragments(w: Workspace, path: string, k: nat, core: string) returns (a: string, fragments: seq<string>)
    requires SystemPrefix(w.system) && StorageKey(w, path, true).Key?
    requires CoreOf(core) && Slashes(path) == Dots(k) + core && path != "" && path[0] !in {'~', '/', '\\'}
    requires !StartsWith(core, "/") && !StartsWith(core, "~") && (k <= 1 ==> core !in {"", "."})
    ensures Fragment(w, path, true) == Some(a) && ReadFragments(w, path) == Some(fragments)
    ensures fragments == [] <==> k == 2 && core == "" && w.system != ""
    ensures LeadsTo(w, a, if k <= 2 then Prefixed(core, w.system) else core)
    ensures fragments != [] ==> LeadsTo(w, fragments[0], if k <= 3 then Prefixed(core, w.system) else core)
  {
    a := Written(w, path, k, core);
    if k <= 1 {
      fragments := NearRead(w, path, k, core);
    } else {
      Renormalizes(w.system);
      fragments := FarRead(w, path, k, core);
      PlaceOfPrefixed(w, k - 2, core);
    }
  }

  lemma Written(w: Workspace, path: string, k: nat, core: string) returns (a: string)
    requires SystemPrefix(w.system) && StorageKey(w, path, true).Key?
    requires CoreOf(core) && Slashes(path) == Dots(k) + core && path != "" && path[0] !in {'~', '/', '\\'}
    requires !StartsWith(core, "/") && !StartsWith(core, "~") && (k <= 1 ==> core !in {"", "."})
    ensures Fragment(w, path, true) == Some(a) && !StartsWith(w.system, "~")
    ensures LeadsTo(w, a, if k <= 2 then Prefixed(core, w.system) else core)
  {
    var j := if k > 0 then k - 1 else 0;
    WrittenFragment(w, path, k, core);
    DotsHead(j, core);
    Renormalizes(w.system);
    PlaceOfPrefixed(w, j, core);
    a := Prefixed(Dots(j) + core, w.system);
  }

  lemma FarRead(w: Workspace, path: string, k: nat, core: string) returns (fragments: seq<string>)
    requires NormalizeSystemPath(w.system) == Some(w.system)
    requires CoreOf(core) && Slashes(path) == Dots(k) + core && path != "" && path[0] !in {'~', '/', '\\'} && k >= 2
    ensures ReadFragments(w, path) == Some(fragments)
    ensures fragments == [] <==> k == 2 && core == "" && w.system != ""
    ensures fragments != [] ==> fragments[0] == Prefixed(Dots(k - 2) + core, w.system)
  {
    TwoDots(k, core);
    EmptyPrefixed(k - 2, core, w.system);
    fragments := ReadOfRest(w, path, Dots(k - 2) + core);
  }

  lemma TwoDots(k: nat, core: string)
    requires k >= 2
    ensures Dots(k) + core == "./" + ("./" + (Dots(k - 2) + core))
  {
    assert Dots(k) == "./" + ("./" + Dots(k - 2));
  }

  lemma ReadOfRest(w: Workspace, path: string, rest: string) returns (fragments: seq<string>)
    requires Slashes(path) == "./" + ("./" + rest) && path != "" && path[0] !in {'~', '/', '\\'}
    requires NormalizeSystemPath(w.system) == Some(w.system)
    ensures ReadFragments(w, path) == Some(fragments)
    ensures fragments == [] <==> Prefixed(rest, w.system) == "" && w.system != ""
    ensures fragments != [] ==> fragments[0] == Prefixed(rest, w.system)
  {
    ReadBehindTwoDots(w, path, rest);
    fragments := ReadFragments(w, path).value;
  }

  lemma NearRead(w: Workspace, path: string, k: nat, core: string) returns (fragments: seq<string>)
    requires SystemPrefix(w.system) && !StartsWith(w.system, "~")
    requires CoreOf(core) && Slashes(path) == Dots(k) + core && path != "" && path[0] !in {'~', '/', '\\'}
    requires !StartsWith(core, "/") && !StartsWith(core, "~") && k <= 1 && core !in {"", "."}
    ensures ReadFragments(w, path) == Some(fragments) && fragments != []
    ensures LeadsTo(w, fragments[0], Prefixed(core, w.system))
  {
    Renormalizes(w.system);
    DotsHead(0, core);
    PlaceOfPrefixed(w, 0, core);
    ReadBehindOneDot(w, path, k, core);
    fragments := ReadFragments(w, path).value;
  }

  lemma EmptyPrefixed(k: nat, core: string, prefix: string)
    requires CoreOf(core)
    ensures Prefixed(Dots(k) + core, prefix) == "" <==> k == 0 && core == ""
  {
    DotsHead(k, core);
    PrefixedDot(core, prefix);
  }

  lemma NoTildeEntry(core: string, prefix: string)
    requires CoreOf(core) && StartsWith(core, "~")
    ensures Prefixed(core, prefix) == core
  {
    DotsHead(0, core);
    SlashesPlain(core);
    LStripPlain(core, core);
    assert SystemBody(core) == core;
    var name := Split(core)[0];
    assert name[0] == '~';
    TildeIsNoEntry(name);
  }

  lemma TildeIsNoEntry(name: string)
    requires name != "" && name[0] == '~'
    ensures !IsSystemEntry(name)
  {
    assert "memory.sqlite"[0] == 'm';
  }

  /** A fragment that no prefix is put before, behind any number of `./`. */
  lemma NeverPrefixed(j: nat, core: string, prefix: string)
    requires CoreOf(core) && (StartsWith(core, "~") || (StartsWith(core, "/") && j > 0))
    ensures Prefixed(Dots(j) + core, prefix) == Dots(j) + core
  {
    if j >= 2 {
      NothingBehindTwoDots(j, core, prefix);
    } else if StartsWith(core, "/") {
      NothingBehindDotSlash(core, prefix);
    } else {
      NoTildeEntry(core, prefix);
      DotsHead(0, core);
      SystemBehindOneDot(core, prefix);
    }
  }

  /** Behind at least one `./`, a fragment of that kind is written where it leads from the workspace directory. */
  lemma NeverPrefixedIsWritten(w: Workspace, path: string, k: nat, core: string)
    requires SystemPrefix(w.system) && StorageKey(w, path, true).Key?
    requires CoreOf(core) && Slashes(path) == Dots(k) + core && path != "" && path[0] !in {'~', '/', '\\'}
    requires StartsWith(core, "~") || (StartsWith(core, "/") && k > 1)
    requires k > 0
    ensures Fragment(w, path, true) == Some(Dots(k - 1) + core) && NormalizeSystemPath(w.system) == Some(w.system)
    ensures ResolveFragment(w.dir, Dots(k - 1) + core) == Collapse(RelativeParts(Split(core)), w.dir)
  {
    WrittenFragment(w, path, k, core);
    NeverPrefixed(k - 1, core, w.system);
    DotsHead(k - 1, core);
    if k > 1 {
      PlaceBehindDots(w.dir, k - 1, core);
    }
  }

  /**
   * A path whose rest begins with `~` is written in the workspace. Behind one `./` or two it is read where the rest
   * expands to, so it reads back exactly if that is the same place; behind three or more it always does.
   */
  lemma TildeReadsBack(w: Workspace, path: string, k: nat, core: string, key: string)
    requires WorkspaceDir(w.dir) && SystemPrefix(w.system)
    requires CoreOf(core) && Slashes(path) == Dots(k) + core && path != "" && path[0] !in {'~', '/', '\\'}
    requires StartsWith(core, "~") && k > 0
    requires StorageKey(w, path, true) == Key(key)
    ensures FirstProbed(w, path) == Some(key) <==> k >= 3 || RemapAbsolute(w.dir, w.expand(core)) == key
  {
    NeverPrefixedIsWritten(w, path, k, core);
    if k == 1 {
      ReadBehindOneDot(w, path, k, core);
      NoTildeEntry(core, w.system);
      RelativeReadsBack(w, path, key, core);
    } else {
      NeverPrefixed(k - 2, core, w.system);
      var fragments := FarRead(w, path, k, core);
      DotsHead(k - 2, core);
      RelativeReadsBack(w, path, key, Dots(k - 2) + core);
      if k > 3 {
        PlaceBehindDots(w.dir, k - 3, core);
      } else {
        DotsHead(0, core);
      }
    }
  }

  /**
   * A path whose rest begins with a slash behind two or more `./` is written in the workspace. Behind two it is read
   * as the absolute path, behind three as an absolute fragment, and behind more as it was written.
   */
  lemma SlashReadsBack(w: Workspace, path: string, k: nat, core: string, key: string)
    requires WorkspaceDir(w.dir) && SystemPrefix(w.system)
    requires CoreOf(core) && Slashes(path) == Dots(k) + core && path != "" && path[0] !in {'~', '/', '\\'}
    requires StartsWith(core, "/") && k > 1
    requires StorageKey(w, path, true) == Key(key)
    ensures FirstProbed(w, path) == Some(key) <==>
            && (k == 2 ==> RemapAbsolute(w.dir, Prefixed(core, w.system)) == key)
            && (k == 3 ==> ResolveFragment(w.dir, core) == ResolveFragment(w.dir, "./" + core))
  {
    if k == 2 {
      SlashBehindTwo(w, path, core, key);
    } else {
      SlashBehindMore(w, path, k, core, key);
    }
  }

  lemma SlashBehindTwo(w: Workspace, path: string, core: string, key: string)
    requires WorkspaceDir(w.dir) && SystemPrefix(w.system)
    requires CoreOf(core) && Slashes(path) == Dots(2) + core && path != "" && path[0] !in {'~', '/', '\\'}
    requires StartsWith(core, "/") && StorageKey(w, path, true) == Key(key)
    ensures FirstProbed(w, path) == Some(key) <==> RemapAbsolute(w.dir, Prefixed(core, w.system)) == key
  {
    NeverPrefixedIsWritten(w, path, 2, core);
    var fragments := FarRead(w, path, 2, core);
    DotsHead(0, core);
    AbsoluteFragment(w, core);
    RelativeReadsBack(w, path, key, Prefixed(core, w.system));
  }

  lemma SlashBehindMore(w: Workspace, path: string, k: nat, core: string, key: string)
    requires WorkspaceDir(w.dir) && SystemPrefix(w.system) && k >= 3
    requires CoreOf(core) && Slashes(path) == Dots(k) + core && path != "" && path[0] !in {'~', '/', '\\'}
    requires StartsWith(core, "/") && StorageKey(w, path, true) == Key(key)
    ensures FirstProbed(w, path) == Some(key) <==>
            (k == 3 ==> ResolveFragment(w.dir, core) == ResolveFragment(w.dir, "./" + core))
  {
    NeverPrefixedIsWritten(w, path, k, core);
    var c := ReadBehindMore(w, path, k, core);
    RelativeFragmentReadsBack(w, path, key, c, ResolveFragment(w.dir, StripRelative(c)),
                              ResolveFragment(w.dir, "./" + core));
  }

  lemma ReadBehindMore(w: Workspace, path: string, k: nat, core: string) returns (c: string)
    requires NormalizeSystemPath(w.system) == Some(w.system) && k >= 3
    requires CoreOf(core) && Slashes(path) == Dots(k) + core && path != "" && path[0] !in {'~', '/', '\\'}
    requires StartsWith(core, "/")
    ensures ReadFragments(w, path).Some? && ReadFragments(w, path).value != [] && ReadFragments(w, path).value[0] == c
    ensures !StartsWith(c, "~") && !StartsWith(c, "/")
    ensures ResolveFragment(w.dir, StripRelative(c)) == ResolveFragment(w.dir, if k == 3 then core else "./" + core)
    ensures ResolveFragment(w.dir, "./" + core) == Collapse(RelativeParts(Split(core)), w.dir)
  {
    c := Dots(k - 2) + core;
    var fragments := FarRead(w, path, k, core);
    NeverPrefixed(k - 2, core, w.system);
    DotsHead(k - 2, core);
    BehindDotsOrNot(w, k, core);
  }

  lemma BehindDotsOrNot(w: Workspace, k: nat, core: string)
    requires CoreOf(core) && k >= 3
    ensures k > 3 ==> ResolveFragment(w.dir, Dots(k - 3) + core) == Collapse(RelativeParts(Split(core)), w.dir)
    ensures k == 3 ==> Dots(k - 3) + core == core
    ensures ResolveFragment(w.dir, "./" + core) == Collapse(RelativeParts(Split(core)), w.dir)
  {
    DotsHead(1, core);
    DotsHead(0, core);
    PlaceBehindDots(w.dir, 1, core);
    if k > 3 {
      PlaceBehindDots(w.dir, k - 3, core);
    }
  }

  /** What is read of an absolute fragment: it has its prefix already. */
  lemma AbsoluteFragment(w: Workspace, core: string)
    requires CoreOf(core) && StartsWith(core, "/") && NormalizeSystemPath(w.system) == Some(w.system)
    ensures FirstPlace(w, Prefixed(core, w.system)) == Key(RemapAbsolute(w.dir, Prefixed(core, w.system)))
    ensures StartsWith(Prefixed(core, w.system), "/")
  {
    var c := Prefixed(core, w.system);
    assert SystemPrefix(w.system);
    ApplySystemPrefixIdempotent(core, w.system);
    SlashesPlain(core);
    BodyClear(core);
    if w.system != "" {
      PrefixHead(w.system);
    }
    assert '\\' !in c;
    SlashesPlain(c);
  }

  /**
   * Behind a single `./` an absolute rest is written as such, but read without its slashes, below the
   * workspace directory.
   */
  lemma SlashBehindOneDotReadsBack(w: Workspace, path: string, core: string, key: string)
    requires WorkspaceDir(w.dir) && SystemPrefix(w.system)
    requires CoreOf(core) && StartsWith(core, "/") && Slashes(path) == "./" + core
             && path != "" && path[0] !in {'~', '/', '\\'}
    requires StorageKey(w, path, true) == Key(key)
    requires var raw := LStrip(core, '/'); CoreOf(raw) && !StartsWith(raw, "~") && raw !in {"", "."}
    ensures FirstProbed(w, path) == Some(key) <==>
            ResolveFragment(w.dir, Prefixed(LStrip(core, '/'), w.system)) ==
                ResolveFragment(w.dir, Prefixed(core, w.system))
  {
    var raw := LStrip(core, '/');
    LStripSpec(core, '/');
    DotsHead(1, core);
    DotsHead(0, core);
    DotsHead(0, raw);
    assert Dots(1) == "./";
    WrittenFragment(w, path, 1, core);
    PlainStored(w, raw);
    FirstOfAssembled(w, path, raw, Prefixed(raw, w.system));
    RelativeFragmentReadsBack(w, path, key, Prefixed(raw, w.system), ResolveFragment(w.dir, Prefixed(raw, w.system)),
                              ResolveFragment(w.dir, Prefixed(core, w.system)));
  }

  lemma PlainStored(w: Workspace, raw: string)
    requires CoreOf(raw) && NormalizeSystemPath(w.system) == Some(w.system) && raw !in {"", "."}
    requires !StartsWith(raw, "/") && !StartsWith(raw, "~")
    ensures StoredRelative(w, raw) == Some(Prefixed(raw, w.system)) && Prefixed(raw, w.system) != ""
    ensures StripRelative(Prefixed(raw, w.system)) == Prefixed(raw, w.system)
    ensures !StartsWith(Prefixed(raw, w.system), "/") && !StartsWith(Prefixed(raw, w.system), "~")
  {
    assert SystemPrefix(w.system);
    Renormalizes(w.system);
    DotsHead(0, raw);
    SlashesPlain(raw);
    PrefixedPlain(raw, w.system);
  }

  lemma FirstOfAssembled(w: Workspace, path: string, raw: string, c: string)
    requires path != "" && path[0] !in {'~', '/', '\\'}
    requires raw == LStrip(StripRelative(Slashes(path)), '/') && raw !in {"", "."}
    requires StoredRelative(w, raw) == Some(c) && c != ""
    ensures ReadFragments(w, path).Some? && ReadFragments(w, path).value != [] && ReadFragments(w, path).value[0] == c
  {
    SlashesStart(path);
    assert RelativeFragments(w, raw) == Assembled(w.system, Some(c), LegacyFragment(w, raw));
  }

  // ----- Paths that are lost -----

  lemma CleanPlace(dir: seq<string>, parts: seq<string>)
    requires Clean(parts) && parts != []
    ensures ResolveFragment(dir, Join(parts)) == dir + parts
  {
    JoinStart(parts);
    SlashFreeParts(parts);
    SplitJoin(parts);
    CleanRelative(parts);
    CleanCollapse(parts, dir);
  }

  /** Every system path of ordinary names that the prefix is put before is lost behind exactly three `./`. */
  lemma ThreeDotsLoseSystemPaths(w: Workspace, path: string, parts: seq<string>, key: string)
    requires WorkspaceDir(w.dir) && SystemPrefix(w.system)
    requires Clean(parts) && parts != [] && CoreOf(Join(parts)) && !StartsWith(Join(parts), "~")
    requires w.system != "" && Recognised(Join(parts), w.system)
    requires Slashes(path) == Dots(3) + Join(parts) && path != "" && path[0] !in {'~', '/', '\\'}
    requires StorageKey(w, path, true) == Key(key)
    ensures FirstProbed(w, path) != Some(key)
  {
    var core := Join(parts);
    JoinStart(parts);
    PlainReadsBack(w, path, 3, core, key);
    DotsHead(0, core);
    SlashesPlain(core);
    LStripPlain(core, core);
    PrefixedRecognised(core, core, core, w.system);
    var system := SystemPrefixForm(w.system);
    JoinAppend(system, parts);
    assert forall p :: p in system + parts ==> p in system || p in parts;
    CleanPlace(w.dir, parts);
    CleanPlace(w.dir, system + parts);
    assert |w.dir + (system + parts)| > |w.dir + parts|;
  }

  /** Such a path: with the prefix `p`, `./././skills` is written without it and read with it. */
  lemma ThreeDotsLoseSystemPathsOccurs()
    ensures Recognised("skills", "p") && NormalizeSystemPath("p") == Some("p")
  {
    SkillsIsRecognised();
    OnePartPrefix();
  }

  lemma SkillsIsRecognised()
    ensures Recognised("skills", "p")
  {
    SplitSlashFreeString("skills");
    assert "skills" in SYSTEM_DIR_NAMES;
    assert "skills"[0] == 's' && "p"[0] == 'p' && ("p" + "/")[0] == 'p';
  }

  lemma OnePartPrefix()
    ensures NormalizeSystemPath("p") == Some("p")
  {
    SlashesPlain("p");
    SplitSlashFreeString("p");
    assert RStrip("p", '/') == "p";
    assert ["p"][1..] == [] && RelativeParts(["p"]) == ["p"];
  }

  /** What a read of a `~` behind one `./` looks for first, whatever was written. */
  lemma TildeFirstProbed(w: Workspace, core: string)
    requires CoreOf(core) && StartsWith(core, "~") && NormalizeSystemPath(w.system) == Some(w.system)
    ensures FirstProbed(w, "./" + core) == Some(RemapAbsolute(w.dir, w.expand(core)))
  {
    DotsHead(1, core);
    assert Dots(1) == "./";
    SlashesPlain("./" + core);
    ReadBehindOneDot(w, "./" + core, 1, core);
    NoTildeEntry(core, w.system);
    SlashesPlain(core);
  }

  /** A `~` behind `./` is lost where the home lies elsewhere: written in the workspace, it is read in the home. */
  lemma TildeAfterDotsIsLost(w: Workspace)
    requires w.dir == ["w"] && w.system == "" && w.expand("~x") == "/h"
    ensures StorageKey(w, "./~x", true) == Key("/.octop/workspaces/w/~x") && FirstProbed(w, "./~x") == Some("/h")
  {
    TildeIsWritten(w);
    TildeFragment();
    TildeIsRead(w);
  }

  lemma TildeIsRead(w: Workspace)
    requires w.dir == ["w"] && w.system == "" && w.expand("~x") == "/h"
    ensures FirstProbed(w, "./~x") == Some("/h")
  {
    var core := "~x";
    assert "./" + core == "./~x" && core[0] == '~' && core[1] == 'x';
    assert NormalizeSystemPath("") == Some("");
    TildeFirstProbed(w, core);
    HomeIsOutside();
  }

  lemma TildeIsWritten(w: Workspace)
    requires w.system == ""
    ensures StorageKey(w, "./~x", true) == RemoteKey(w.dir, ResolveFragment(w.dir, "~x"))
  {
    SlashesPlain("./~x");
    assert "./~x"[2..] == "~x" && StripRelative("./~x") == "~x";
    assert ApplySystemPrefix("~x", "") == Some("~x");
  }

  lemma TildeFragment()
    ensures ResolveFragment(["w"], "~x") == ["w", "~x"]
    ensures RemoteKey(["w"], ["w", "~x"]) == Key("/.octop/workspaces/w/~x")
  {
    SplitSlashFreeString("~x");
    assert RelativeParts(["~x"]) == ["~x"];
    assert Collapse(["~x"], ["w"]) == ["w"] + ["~x"] == ["w", "~x"];
    assert ["w", "~x"][1..] == ["~x"];
    assert RemoteRoot(["w"]) == "/.octop/workspaces/w";
  }

  lemma HomeIsOutside()
    ensures RemapAbsolute(["w"], "/h") == "/h"
  {
    var dir, home := ["w"], ["h"];
    assert Absolute(home) == "/h";
    assert dir[0] != home[0];
    AbsolutePathIsMapped(dir, home);
  }
}
