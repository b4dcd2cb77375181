/**
 * Packaged skills: copied into a workspace tree by tree (`_sync.py`) and listed
 * as one merged map (`templates.py`). Both let a language overlay English.
 */
module BuiltinSkills {
  import opened Strings
  import opened PathParts

  datatype Entry =
    | File(name: string, content: string)
    | Dir(name: string, entries: seq<Entry>)

  predicate Hidden(name: string) {
    StartsWith(name, "__") || StartsWith(name, ".")
  }

  /** A directory as a file system can hold it: no two entries of the same name. */
  predicate WellFormed(entries: seq<Entry>) {
    (forall e :: e in entries ==> SlashFree(e.name) && (e.Dir? ==> WellFormed(e.entries))) &&
    forall i, j :: 0 <= i < j < |entries| ==> entries[i].name != entries[j].name
  }

  /** The content of the file that a path of visible names leads to. */
  function Lookup(entries: seq<Entry>, path: seq<string>): Option<string>
    decreases path, entries
  {
    if entries == [] || path == [] || Hidden(path[0]) then None
    else if entries[0].name != path[0] then Lookup(entries[1..], path)
    else
      match entries[0]
      case File(_, content) => if |path| == 1 then Some(content) else None
      case Dir(_, below) => Lookup(below, path[1..])
  }

  /** What walking a tree and writing every visible file under `prefix` leaves; a later file wins. */
  function Walk(entries: seq<Entry>, prefix: string): map<string, string> {
    if entries == [] then map[]
    else if Hidden(entries[0].name) then Walk(entries[1..], prefix)
    else
      match entries[0]
      case File(name, content) => map[prefix + name := content] + Walk(entries[1..], prefix)
      case Dir(name, below) => Walk(below, prefix + name + "/") + Walk(entries[1..], prefix)
  }

  lemma WellFormedTail(entries: seq<Entry>)
    requires WellFormed(entries) && entries != []
    ensures WellFormed(entries[1..])
    ensures forall e :: e in entries[1..] ==> e.name != entries[0].name
  {
    assert forall e :: e in entries[1..] ==> e in entries;
  }

  /** A walk takes the entries one after the other. */
  lemma WalkStep(entries: seq<Entry>, prefix: string)
    requires entries != []
    ensures Walk(entries, prefix) == Walk([entries[0]], prefix) + Walk(entries[1..], prefix)
    ensures Hidden(entries[0].name) ==> Walk([entries[0]], prefix) == map[]
    ensures !Hidden(entries[0].name) && entries[0].Dir? ==>
              Walk([entries[0]], prefix) == Walk(entries[0].entries, prefix + entries[0].name + "/")
    ensures !Hidden(entries[0].name) && entries[0].File? ==>
              Walk([entries[0]], prefix) == map[prefix + entries[0].name := entries[0].content]
  {
    var first := [entries[0]];
    assert Walk(first[1..], prefix) == map[];
  }

  lemma MergeAssociative<T>(a: map<string, T>, b: map<string, T>, c: map<string, T>)
    ensures (a + b) + c == a + (b + c)
  {
  }

  lemma {:induction false} LookupNames(entries: seq<Entry>, path: seq<string>)
    requires WellFormed(entries) && Lookup(entries, path).Some?
    ensures path != [] && AllSlashFree(path) && !Hidden(path[0])
    ensures exists e :: e in entries && e.name == path[0]
    decreases path, entries
  {
    if entries[0].name != path[0] {
      WellFormedTail(entries);
      LookupNames(entries[1..], path);
    } else {
      assert entries[0] in entries;
      if entries[0].Dir? {
        LookupNames(entries[0].entries, path[1..]);
      }
      assert forall p :: p in path ==> p == path[0] || p in path[1..];
    }
  }

  /** Every key of a walk is the path of a visible file. */
  lemma {:induction false} WalkedIsFile(entries: seq<Entry>, prefix: string, key: string) returns (path: seq<string>)
    requires WellFormed(entries) && key in Walk(entries, prefix)
    ensures Lookup(entries, path) == Some(Walk(entries, prefix)[key])
    ensures path != [] && key == prefix + Join(path)
  {
    var rest := entries[1..];
    WellFormedTail(entries);
    if Hidden(entries[0].name) || key in Walk(rest, prefix) {
      path := WalkedIsFile(rest, prefix, key);
      LookupNames(rest, path);
    } else {
      assert entries[0] in entries;
      match entries[0]
      case File(name, content) =>
        path := [name];
      case Dir(name, below) =>
        var sub := WalkedIsFile(below, prefix + name + "/", key);
        path := [name] + sub;
        assert path[1..] == sub;
        assert prefix + Join(path) == prefix + name + "/" + Join(sub);
    }
  }

  /** Every visible file is walked, under its own key and with its own content. */
  lemma {:induction false} FileIsWalked(entries: seq<Entry>, prefix: string, path: seq<string>)
    requires WellFormed(entries) && Lookup(entries, path).Some?
    ensures prefix + Join(path) in Walk(entries, prefix)
    ensures Walk(entries, prefix)[prefix + Join(path)] == Lookup(entries, path).value
    decreases path, entries
  {
    var rest, key := entries[1..], prefix + Join(path);
    WellFormedTail(entries);
    WalkStep(entries, prefix);
    if entries[0].name != path[0] {
      FileIsWalked(rest, prefix, path);
    } else {
      assert entries[0] in entries;
      if entries[0].Dir? {
        FileIsWalked(entries[0].entries, prefix + path[0] + "/", path[1..]);
        LookupNames(entries[0].entries, path[1..]);
        KeyBelow(prefix, path);
      }
      assert key in Walk([entries[0]], prefix);
      NotWalkedTwice(entries, rest, prefix, path);
    }
  }

  lemma KeyBelow(prefix: string, path: seq<string>)
    requires |path| > 1
    ensures prefix + Join(path) == prefix + path[0] + "/" + Join(path[1..])
  {
    Regroup(prefix, path[0], "/", Join(path[1..]));
  }

  lemma Regroup(prefix: string, a: string, slash: string, b: string)
    ensures prefix + (a + slash + b) == prefix + a + slash + b
  {
  }

  lemma NotWalkedTwice(entries: seq<Entry>, rest: seq<Entry>, prefix: string, path: seq<string>)
    requires WellFormed(entries) && Lookup(entries, path).Some? && WellFormed(rest)
    requires forall e :: e in rest ==> e.name != path[0]
    ensures prefix + Join(path) !in Walk(rest, prefix)
  {
    LookupNames(entries, path);
    if prefix + Join(path) in Walk(rest, prefix) {
      var other := WalkedIsFile(rest, prefix, prefix + Join(path));
      LookupNames(rest, other);
      assert Join(other) == (prefix + Join(other))[|prefix|..];
      assert Join(path) == (prefix + Join(path))[|prefix|..];
      JoinInjective(other, path);
    }
  }

  /** What a walk leaves at a path is what looking the path up in the tree gives. */
  lemma WalkIsLookup(entries: seq<Entry>, prefix: string, path: seq<string>)
    requires WellFormed(entries) && path != [] && AllSlashFree(path)
    ensures prefix + Join(path) in Walk(entries, prefix) <==> Lookup(entries, path).Some?
    ensures Lookup(entries, path).Some? ==>
              Walk(entries, prefix)[prefix + Join(path)] == Lookup(entries, path).value
  {
    if Lookup(entries, path).Some? {
      FileIsWalked(entries, prefix, path);
    } else if prefix + Join(path) in Walk(entries, prefix) {
      var other := WalkedIsFile(entries, prefix, prefix + Join(path));
      LookupNames(entries, other);
      assert Join(other) == (prefix + Join(other))[|prefix|..];
      assert Join(path) == (prefix + Join(path))[|prefix|..];
      JoinInjective(other, path);
    }
  }

  /** Two walks of one tree differ in their prefix only. */
  lemma WalkFrom(entries: seq<Entry>, prefix: string, rel: string)
    requires WellFormed(entries)
    ensures prefix + rel in Walk(entries, prefix) <==> rel in Walk(entries, "")
    ensures rel in Walk(entries, "") ==> Walk(entries, prefix)[prefix + rel] == Walk(entries, "")[rel]
  {
    if prefix + rel in Walk(entries, prefix) {
      var path := WalkedIsFile(entries, prefix, prefix + rel);
      assert Join(path) == (prefix + Join(path))[|prefix|..];
      assert rel == (prefix + rel)[|prefix|..];
      FileIsWalked(entries, "", path);
      assert "" + Join(path) == rel;
    }
    if rel in Walk(entries, "") {
      var path := WalkedIsFile(entries, "", rel);
      assert Join(path) == "" + Join(path) == rel;
      FileIsWalked(entries, prefix, path);
    }
  }

  // ---------------------------------------------------------------- copying into a workspace

  const VERSION_FILE := ".version"

  predicate UpToDate(files: map<string, string>, root: string, version: string) {
    var path := root + "/" + VERSION_FILE;
    path in files && Strip(files[path]) == version
  }

  /** The paths of a walk, in the order of the walk. */
  function PathList(entries: seq<Entry>, prefix: string): seq<string> {
    if entries == [] then []
    else if Hidden(entries[0].name) then PathList(entries[1..], prefix)
    else
      match entries[0]
      case File(name, _) => [prefix + name] + PathList(entries[1..], prefix)
      case Dir(name, below) => PathList(below, prefix + name + "/") + PathList(entries[1..], prefix)
  }

  function Directories(entries: seq<Entry>): seq<Entry> {
    if entries == [] then []
    else if entries[0].Dir? then [entries[0]] + Directories(entries[1..])
    else Directories(entries[1..])
  }

  /** The English tree, and over it the tree of the language if there is one. */
  function Overlay(package: map<string, seq<Entry>>, language: string, prefix: string): map<string, string>
    requires "en" in package
  {
    if language == "en" || language !in package then Walk(package["en"], prefix)
    else Walk(package["en"], prefix) + Walk(package[language], prefix)
  }

  method CollectPathsRecursive(source: seq<Entry>, destPrefix: string, before: seq<string>) returns (out: seq<string>)
    ensures out == before + PathList(source, destPrefix + "/")
  {
    out := before;
    for i := 0 to |source|
      invariant out + PathList(source[i..], destPrefix + "/") == before + PathList(source, destPrefix + "/")
    {
      var entry := source[i];
      assert source[i..][1..] == source[i + 1..];
      if Hidden(entry.name) {
        continue;
      }
      if entry.Dir? {
        assert destPrefix + "/" + entry.name + "/" == (destPrefix + "/" + entry.name) + "/";
        out := CollectPathsRecursive(entry.entries, destPrefix + "/" + entry.name, out);
      } else {
        out := out + [destPrefix + "/" + entry.name];
      }
    }
  }

  method CollectSkillPaths(langDir: seq<Entry>, destRoot: string) returns (out: seq<string>)
    ensures out == PathList(Directories(langDir), destRoot + "/")
  {
    out := [];
    for i := 0 to |langDir|
      invariant out + PathList(Directories(langDir[i..]), destRoot + "/") ==
                PathList(Directories(langDir), destRoot + "/")
    {
      var entry := langDir[i];
      assert langDir[i..][1..] == langDir[i + 1..];
      if entry.Dir? {
        assert ([entry] + Directories(langDir[i + 1..]))[1..] == Directories(langDir[i + 1..]);
      }
      if Hidden(entry.name) || !entry.Dir? {
        continue;
      }
      assert destRoot + "/" + entry.name + "/" == (destRoot + "/" + entry.name) + "/";
      out := CollectPathsRecursive(entry.entries, destRoot + "/" + entry.name, out);
    }
  }

  /** The workspace as forced writes see it: a file per path, a write replaces it. */
  class Workspace {
    var files: map<string, string>

    constructor ()
      ensures files == map[]
    {
      files := map[];
    }

    method WriteText(path: string, content: string)
      modifies this
      ensures files == old(files)[path := content]
    {
      files := files[path := content];
    }

    method CopyTree(source: seq<Entry>, destDir: string)
      modifies this
      ensures files == old(files) + Walk(source, destDir + "/")
    {
      ghost var prefix := destDir + "/";
      for i := 0 to |source|
        invariant files + Walk(source[i..], prefix) == old(files) + Walk(source, prefix)
      {
        var entry := source[i];
        ghost var was := files;
        assert source[i..][1..] == source[i + 1..];
        WalkStep(source[i..], prefix);
        MergeAssociative(files, Walk([entry], prefix), Walk(source[i + 1..], prefix));
        if Hidden(entry.name) {
          continue;
        }
        var entryPath := destDir + "/" + entry.name;
        if entry.Dir? {
          assert prefix + entry.name + "/" == entryPath + "/";
          CopyTree(entry.entries, entryPath);
        } else {
          WriteText(entryPath, entry.content);
        }
        assert files == was + Walk([entry], prefix);
      }
    }

    /** `sync_builtin_skills_to_backend`; a package without English fails before anything is written. */
    method Sync(package: map<string, seq<Entry>>, version: string, language: string, root: string)
      returns (synced: bool, fallback: seq<string>)
      modifies this
      ensures synced <==> !UpToDate(old(files), root, version) && "en" in package
      ensures !synced ==> files == old(files) && fallback == []
      ensures synced ==>
              files == (old(files) + Overlay(package, language, root + "/"))[root + "/" + VERSION_FILE := version]
      ensures synced && (language == "en" || language in package) ==> fallback == []
      ensures synced && language != "en" && language !in package ==>
        fallback == PathList(Directories(package["en"]), root + "/")
    {
      fallback := [];
      if UpToDate(files, root, version) || "en" !in package {
        return false, [];
      }
      CopyTree(package["en"], root);
      if language != "en" {
        if language in package {
          CopyTree(package[language], root);
          assert files == old(files) + Overlay(package, language, root + "/");
        } else {
          fallback := CollectSkillPaths(package["en"], root);
        }
      }
      WriteText(root + "/" + VERSION_FILE, version);
      return true, fallback;
    }
  }

  // ---------------------------------------------------------------- listing as one merged map

  datatype Served = Served(language: string, content: string, fallback: bool)

  function Tag(files: map<string, string>, language: string, fallback: bool): map<string, Served> {
    map path | path in files :: Served(language, files[path], fallback)
  }

  predicate IsSkillDir(e: Entry) {
    e.Dir? && exists f :: f in e.entries && f.File? && f.name == "SKILL.md"
  }

  function Skills(entries: seq<Entry>): seq<Entry> {
    if entries == [] then []
    else if IsSkillDir(entries[0]) then [entries[0]] + Skills(entries[1..])
    else Skills(entries[1..])
  }

  /** What the two passes leave: the language on top of English, each file marked. */
  function Listing(package: map<string, seq<Entry>>, language: string): map<string, Served>
    requires "en" in package
  {
    var en := Walk(Skills(package["en"]), "");
    if language == "en" || language !in package then Tag(en, "en", false)
    else Tag(en, "en", true) + Tag(Walk(Skills(package[language]), ""), language, false)
  }

  lemma {:induction false} SkillsWellFormed(entries: seq<Entry>)
    requires WellFormed(entries)
    ensures WellFormed(Skills(entries)) && forall e :: e in Skills(entries) ==> e in entries
  {
    if entries == [] {
    } else {
      WellFormedTail(entries);
      SkillsWellFormed(entries[1..]);
      assert entries[0] in entries && forall e :: e in entries[1..] ==> e in entries;
    }
  }

  lemma SkillsStep(entries: seq<Entry>)
    requires WellFormed(entries) && entries != []
    ensures var e := entries[0];
            if Hidden(e.name) || !IsSkillDir(e) then Walk(Skills(entries), "") == Walk(Skills(entries[1..]), "")
            else
              && Walk([e], "") == Walk(e.entries, "" + e.name + "/")
              && Walk(Skills(entries), "") == Walk([e], "") + Walk(Skills(entries[1..]), "")
              && Walk([e], "").Keys !! Walk(Skills(entries[1..]), "").Keys
  {
    if IsSkillDir(entries[0]) {
      var skills := Skills(entries);
      assert skills[0] == entries[0] && skills[1..] == Skills(entries[1..]);
      SkillsWellFormed(entries);
      WalkStep(skills, "");
      FirstAndRestApart(skills, "");
    }
  }

  lemma FirstAndRestApart(entries: seq<Entry>, prefix: string)
    requires WellFormed(entries) && entries != []
    ensures Walk([entries[0]], prefix).Keys !! Walk(entries[1..], prefix).Keys
  {
    var first, rest := [entries[0]], entries[1..];
    WellFormedTail(entries);
    assert WellFormed(first);
    forall key | key in Walk(first, prefix)
      ensures key !in Walk(rest, prefix)
    {
      var path := WalkedIsFile(first, prefix, key);
      LookupNames(first, path);
      NotWalkedTwice(first, rest, prefix, path);
    }
  }

  /** One pass over `files`: as a fallback it only fills gaps, otherwise it replaces. */
  function Pass(merged: map<string, Served>, files: map<string, string>, language: string,
                fallback: bool): map<string, Served>
  {
    if fallback then Tag(files, language, true) + merged else merged + Tag(files, language, false)
  }

  /** A pass may be taken in parts. */
  lemma PassInParts(merged: map<string, Served>, first: map<string, string>, rest: map<string, string>,
                    language: string, fallback: bool)
    requires first.Keys !! rest.Keys
    ensures Pass(merged, first + rest, language, fallback)
         == Pass(Pass(merged, first, language, fallback), rest, language, fallback)
  {
    var f, r := Tag(first, language, fallback), Tag(rest, language, fallback);
    TagMerge(first, rest, language, fallback);
    DisjointMerge(f, r);
    MergeAssociative(r, f, merged);
    MergeAssociative(merged, f, r);
  }

  lemma TagMerge(a: map<string, string>, b: map<string, string>, language: string, fallback: bool)
    ensures Tag(a + b, language, fallback) == Tag(a, language, fallback) + Tag(b, language, fallback)
  {
  }

  lemma DisjointMerge<T>(a: map<string, T>, b: map<string, T>)
    requires a.Keys !! b.Keys
    ensures a + b == b + a
  {
  }

  /** `setdefault` for a fallback file, assignment for any other. */
  lemma PassOfOneFile(merged: map<string, Served>, path: string, content: string, language: string, fallback: bool)
    ensures Pass(merged, map[path := content], language, fallback)
         == if fallback && path in merged then merged else merged[path := Served(language, content, fallback)]
  {
  }

  lemma PassOfNothing(merged: map<string, Served>, language: string, fallback: bool)
    ensures Pass(merged, map[], language, fallback) == merged
  {
    assert Tag(map[], language, fallback) == map[];
  }

  class MergedFiles {
    var merged: map<string, Served>

    constructor ()
      ensures merged == map[]
    {
      merged := map[];
    }

    /** `_collect_files_merged`: a fallback file only fills a gap, any other replaces what is there. */
    method Collect(directory: seq<Entry>, prefix: string, language: string, fallback: bool)
      requires WellFormed(directory)
      modifies this
      ensures merged == Pass(old(merged), Walk(directory, prefix), language, fallback)
    {
      for i := 0 to |directory|
        invariant WellFormed(directory[i..])
        invariant Pass(merged, Walk(directory[i..], prefix), language, fallback)
               == Pass(old(merged), Walk(directory, prefix), language, fallback)
      {
        var entry := directory[i];
        ghost var first, rest := Walk([entry], prefix), Walk(directory[i + 1..], prefix);
        assert directory[i..][0] == entry && directory[i..][1..] == directory[i + 1..];
        WellFormedTail(directory[i..]);
        WalkStep(directory[i..], prefix);
        FirstAndRestApart(directory[i..], prefix);
        PassInParts(merged, first, rest, language, fallback);
        if Hidden(entry.name) {
          PassOfNothing(merged, language, fallback);
          continue;
        }
        assert entry in directory[i..];
        if entry.Dir? {
          Collect(entry.entries, prefix + entry.name + "/", language, fallback);
        } else {
          var path := prefix + entry.name;
          PassOfOneFile(merged, path, entry.content, language, fallback);
          if !fallback || path !in merged {
            merged := merged[path := Served(language, entry.content, fallback)];
          }
        }
      }
      PassOfNothing(merged, language, fallback);
    }

    /** One language's top level: only its skill directories are entered. */
    method CollectSkills(entries: seq<Entry>, language: string, fallback: bool)
      requires WellFormed(entries)
      modifies this
      ensures merged == Pass(old(merged), Walk(Skills(entries), ""), language, fallback)
    {
      for i := 0 to |entries|
        invariant WellFormed(entries[i..])
        invariant Pass(merged, Walk(Skills(entries[i..]), ""), language, fallback)
               == Pass(old(merged), Walk(Skills(entries), ""), language, fallback)
      {
        var entry := entries[i];
        assert entries[i..][0] == entry && entries[i..][1..] == entries[i + 1..];
        WellFormedTail(entries[i..]);
        SkillsStep(entries[i..]);
        if Hidden(entry.name) || !IsSkillDir(entry) {
          continue;
        }
        assert entry in entries[i..];
        PassInParts(merged, Walk([entry], ""), Walk(Skills(entries[i + 1..]), ""), language, fallback);
        assert "" + entry.name + "/" == entry.name + "/";
        Collect(entry.entries, entry.name + "/", language, fallback);
      }
      PassOfNothing(merged, language, fallback);
    }
  }

  /** `iter_builtin_skills`, before the sort by path; None when the package has no English tree. */
  method IterBuiltinSkills(package: map<string, seq<Entry>>, language: string)
    returns (listed: Option<map<string, Served>>)
    requires forall l :: l in package ==> WellFormed(package[l])
    ensures listed == if "en" in package then Some(Listing(package, language)) else None
  {
    if "en" !in package {
      return None;
    }
    var files := new MergedFiles();
    if language == "en" || language !in package {
      files.CollectSkills(package["en"], "en", false);
      PassOfNothing(Tag(Walk(Skills(package["en"]), ""), "en", false), "en", false);
    } else {
      files.CollectSkills(package["en"], "en", true);
      files.CollectSkills(package[language], language, false);
    }
    assert files.merged == Listing(package, language);
    return Some(files.merged);
  }

  // ---------------------------------------------------------------- results

  /** The language wins on every path it has, English fills every other, and the mark says which it was. */
  lemma LanguageOverEnglish(package: map<string, seq<Entry>>, language: string, path: seq<string>)
    requires forall l :: l in package ==> WellFormed(package[l])
    requires "en" in package && language in package && language != "en"
    requires path != [] && AllSlashFree(path)
    ensures var listed, own, en := Listing(package, language),
              Lookup(Skills(package[language]), path), Lookup(Skills(package["en"]), path);
            && (Join(path) in listed <==> own.Some? || en.Some?)
            && (own.Some? ==> listed[Join(path)] == Served(language, own.value, false))
            && (own.None? && en.Some? ==> listed[Join(path)] == Served("en", en.value, true))
  {
    SkillsWellFormed(package["en"]);
    SkillsWellFormed(package[language]);
    WalkIsLookup(Skills(package["en"]), "", path);
    WalkIsLookup(Skills(package[language]), "", path);
    assert "" + Join(path) == Join(path);
  }

  /** After a sync the same holds of the files in the workspace; a path neither tree has keeps its old content. */
  lemma SyncedFile(files: map<string, string>, package: map<string, seq<Entry>>, language: string,
                   root: string, version: string, path: seq<string>)
    requires forall l :: l in package ==> WellFormed(package[l])
    requires "en" in package && language in package && language != "en"
    requires path != [] && AllSlashFree(path) && path != [VERSION_FILE]
    ensures var synced := (files + Overlay(package, language, root + "/"))[root + "/" + VERSION_FILE := version];
            var key, own, en := root + "/" + Join(path), Lookup(package[language], path), Lookup(package["en"], path);
            && (key in synced <==> own.Some? || en.Some? || key in files)
            && (own.Some? ==> synced[key] == own.value)
            && (own.None? && en.Some? ==> synced[key] == en.value)
            && (own.None? && en.None? && key in files ==> synced[key] == files[key])
  {
    WalkIsLookup(package["en"], root + "/", path);
    WalkIsLookup(package[language], root + "/", path);
    if root + "/" + Join(path) == root + "/" + VERSION_FILE {
      assert Join(path) == (root + "/" + Join(path))[|root| + 1..];
      assert (root + "/" + VERSION_FILE)[|root| + 1..] == Join([VERSION_FILE]);
      JoinInjective(path, [VERSION_FILE]);
    }
  }

  /** Every visible entry is a skill directory. */
  predicate OnlySkills(entries: seq<Entry>) {
    forall e :: e in entries ==> Hidden(e.name) || IsSkillDir(e)
  }

  lemma {:induction false} SkillsAreAll(entries: seq<Entry>, prefix: string)
    requires WellFormed(entries) && OnlySkills(entries)
    ensures Walk(Skills(entries), prefix) == Walk(entries, prefix)
  {
    if entries == [] {
    } else {
      WellFormedTail(entries);
      assert entries[0] in entries;
      SkillsAreAll(entries[1..], prefix);
      WalkStep(entries, prefix);
      if IsSkillDir(entries[0]) {
        assert Skills(entries)[0] == entries[0] && Skills(entries)[1..] == Skills(entries[1..]);
        WalkStep(Skills(entries), prefix);
      }
    }
  }

  /** The visible entries that are not skill directories hold no visible file. */
  predicate NoStrayFiles(entries: seq<Entry>) {
    forall e :: e in entries ==> IsSkillDir(e) || Walk([e], "") == map[]
  }

  lemma {:induction false} SkillsWithin(entries: seq<Entry>)
    requires WellFormed(entries)
    ensures forall k :: k in Walk(Skills(entries), "") ==>
              k in Walk(entries, "") && Walk(entries, "")[k] == Walk(Skills(entries), "")[k]
  {
    if entries == [] {
    } else {
      WellFormedTail(entries);
      SkillsWithin(entries[1..]);
      WalkStep(entries, "");
      FirstAndRestApart(entries, "");
      if IsSkillDir(entries[0]) {
        assert Skills(entries)[0] == entries[0] && Skills(entries)[1..] == Skills(entries[1..]);
        WalkStep(Skills(entries), "");
      }
    }
  }

  lemma CancelFirst(a: map<string, string>, b: map<string, string>, c: map<string, string>)
    requires a.Keys !! b.Keys && a.Keys !! c.Keys
    ensures a + b == a + c <==> b == c
  {
    if a + b == a + c {
      assert b == (a + b) - a.Keys;
      assert c == (a + c) - a.Keys;
    }
  }

  lemma StrayShows(stray: map<string, string>, all: map<string, string>, skills: map<string, string>)
    requires stray.Keys !! all.Keys
    requires forall k :: k in skills ==> k in all && all[k] == skills[k]
    ensures skills == stray + all <==> stray == map[] && skills == all
  {
    if skills == stray + all {
      assert forall k :: k in stray ==> k in stray + all;
      assert stray.Keys == {};
      assert stray == map[];
      assert stray + all == all;
    }
  }

  /**
   * Of one tree, the copy and the listing have the same files exactly when no file lies outside the skill
   * directories.
   */
  lemma {:induction false} CopyIsListingIffNoStrays(entries: seq<Entry>)
    requires WellFormed(entries)
    ensures Walk(Skills(entries), "") == Walk(entries, "") <==> NoStrayFiles(entries)
  {
    if entries == [] {
    } else {
      var first, rest := entries[0], entries[1..];
      WellFormedTail(entries);
      CopyIsListingIffNoStrays(rest);
      WalkStep(entries, "");
      FirstAndRestApart(entries, "");
      assert forall e :: e in entries <==> e == first || e in rest;
      SkillsWithin(rest);
      if IsSkillDir(first) {
        assert Skills(entries)[0] == first && Skills(entries)[1..] == Skills(rest);
        WalkStep(Skills(entries), "");
        CancelFirst(Walk([first], ""), Walk(Skills(rest), ""), Walk(rest, ""));
      } else {
        StrayShows(Walk([first], ""), Walk(rest, ""), Walk(Skills(rest), ""));
      }
    }
  }

  /**
   * The files a sync copies are the files the listing serves, with the same
   * contents, when both trees hold nothing but skill directories.
   */
  lemma CopiedIsListed(package: map<string, seq<Entry>>, language: string, root: string, rel: string)
    requires forall l :: l in package ==> WellFormed(package[l]) && OnlySkills(package[l])
    requires "en" in package
    ensures rel in Listing(package, language) <==> root + "/" + rel in Overlay(package, language, root + "/")
    ensures rel in Listing(package, language) ==>
              Overlay(package, language, root + "/")[root + "/" + rel] == Listing(package, language)[rel].content
  {
    WalkFrom(package["en"], root + "/", rel);
    SkillsAreAll(package["en"], "");
    if language in package {
      WalkFrom(package[language], root + "/", rel);
      SkillsAreAll(package[language], "");
    }
  }

  /** The entries the listing does not enter. */
  function Others(entries: seq<Entry>): seq<Entry> {
    if entries == [] then []
    else if IsSkillDir(entries[0]) then Others(entries[1..])
    else [entries[0]] + Others(entries[1..])
  }

  /** The visible files outside the skill directories. */
  function StrayFiles(entries: seq<Entry>): map<string, string> {
    Walk(Others(entries), "")
  }

  lemma {:induction false} WalkSplits(entries: seq<Entry>)
    requires WellFormed(entries)
    ensures Walk(entries, "") == Walk(Skills(entries), "") + StrayFiles(entries)
    ensures Walk(Skills(entries), "").Keys !! StrayFiles(entries).Keys
  {
    if entries == [] {
    } else {
      var first, rest := Walk([entries[0]], ""), entries[1..];
      var skills, strays := Walk(Skills(rest), ""), StrayFiles(rest);
      WellFormedTail(entries);
      WalkSplits(rest);
      WalkStep(entries, "");
      FirstAndRestApart(entries, "");
      if IsSkillDir(entries[0]) {
        assert Skills(entries)[0] == entries[0] && Skills(entries)[1..] == Skills(rest);
        WalkStep(Skills(entries), "");
        MergeAssociative(first, skills, strays);
      } else {
        assert Others(entries)[0] == entries[0] && Others(entries)[1..] == Others(rest);
        WalkStep(Others(entries), "");
        DisjointMerge(first, skills);
        MergeAssociative(first, skills, strays);
        MergeAssociative(skills, first, strays);
      }
    }
  }

  /** Stray files do no harm if English has the language's already, and the language has English's. */
  predicate StraysHarmless(en: seq<Entry>, own: seq<Entry>) {
    && (forall path :: path in StrayFiles(own) ==>
          path in Walk(Skills(en), "") && Walk(Skills(en), "")[path] == StrayFiles(own)[path])
    && (forall path :: path in StrayFiles(en) ==> path in Walk(Skills(own), ""))
  }

  lemma MergedSplits(skills: map<string, string>, strays: map<string, string>,
                     ownSkills: map<string, string>, ownStrays: map<string, string>)
    requires skills.Keys !! strays.Keys && ownSkills.Keys !! ownStrays.Keys
    ensures (skills + strays) + (ownSkills + ownStrays) == skills + ownSkills <==>
            && (forall path :: path in ownStrays ==> path in skills && skills[path] == ownStrays[path])
            && (forall path :: path in strays ==> path in ownSkills)
  {
    var copied, listed := (skills + strays) + (ownSkills + ownStrays), skills + ownSkills;
    if copied == listed {
      forall path | path in ownStrays
        ensures path in skills && skills[path] == ownStrays[path]
      {
        assert path in copied && copied[path] == ownStrays[path];
      }
      forall path | path in strays
        ensures path in ownSkills
      {
        assert path in copied;
      }
    }
  }

  /** The tree that overlays English, if there is one. */
  function OwnTree(package: map<string, seq<Entry>>, language: string): seq<Entry> {
    if language == "en" || language !in package then [] else package[language]
  }

  /** The listing serves a path exactly if the sync copies it, with the same content. */
  ghost predicate ListedAsCopied(package: map<string, seq<Entry>>, language: string, root: string, rel: string)
    requires "en" in package
  {
    var listed, copied := Listing(package, language), Overlay(package, language, root + "/");
    && (rel in listed <==> root + "/" + rel in copied)
    && (rel in listed ==> copied[root + "/" + rel] == listed[rel].content)
  }

  lemma ListedAsCopiedForm(package: map<string, seq<Entry>>, language: string, root: string, rel: string)
    requires forall l :: l in package ==> WellFormed(package[l])
    requires "en" in package
    ensures var own := OwnTree(package, language);
            var copied := Walk(package["en"], "") + Walk(own, "");
            var listed := Walk(Skills(package["en"]), "") + Walk(Skills(own), "");
            ListedAsCopied(package, language, root, rel) <==>
            (rel in listed <==> rel in copied) && (rel in listed ==> copied[rel] == listed[rel])
  {
    WalkFrom(package["en"], root + "/", rel);
    if language in package {
      WalkFrom(package[language], root + "/", rel);
    }
  }

  /** For any two trees, exactly when the sync copies what the listing serves. */
  lemma CopiedIsListedIffHarmless(package: map<string, seq<Entry>>, language: string, root: string)
    requires forall l :: l in package ==> WellFormed(package[l])
    requires "en" in package
    ensures (forall rel :: ListedAsCopied(package, language, root, rel)) <==>
            StraysHarmless(package["en"], OwnTree(package, language))
  {
    var en, own := package["en"], OwnTree(package, language);
    var copied, listed := Walk(en, "") + Walk(own, ""), Walk(Skills(en), "") + Walk(Skills(own), "");
    WalkSplits(en);
    WalkSplits(own);
    MergedSplits(Walk(Skills(en), ""), StrayFiles(en), Walk(Skills(own), ""), StrayFiles(own));
    forall rel
      ensures ListedAsCopied(package, language, root, rel) <==>
              (rel in listed <==> rel in copied) && (rel in listed ==> copied[rel] == listed[rel])
    {
      ListedAsCopiedForm(package, language, root, rel);
    }
    PointwiseEqual(copied, listed);
  }

  lemma PointwiseEqual(a: map<string, string>, b: map<string, string>)
    ensures a == b <==> forall rel :: (rel in b <==> rel in a) && (rel in b ==> a[rel] == b[rel])
  {
  }

  /** A sync writes below its root only, and never deletes. */
  lemma SyncWritesBelowRoot(package: map<string, seq<Entry>>, language: string, root: string, key: string)
    requires forall l :: l in package ==> WellFormed(package[l])
    requires "en" in package
    requires key in Overlay(package, language, root + "/")
    ensures root + "/" <= key && key != root + "/" + VERSION_FILE
  {
    var l :=
      if language in package && language != "en" && key in Walk(package[language], root + "/") then language else "en";
    var path := WalkedIsFile(package[l], root + "/", key);
    LookupNames(package[l], path);
    if key == root + "/" + VERSION_FILE {
      assert Join(path) == (root + "/" + Join(path))[|root| + 1..];
      assert (root + "/" + VERSION_FILE)[|root| + 1..] == Join([VERSION_FILE]);
      JoinInjective(path, [VERSION_FILE]);
    }
  }

  /**
   * A file the language holds in a directory without a SKILL.md of its own is
   * copied over the English one but never listed: the listing keeps the English content.
   */
  lemma TranslationOutsideSkillDir(package: map<string, seq<Entry>>, language: string, root: string, path: seq<string>)
    requires forall l :: l in package ==> WellFormed(package[l])
    requires "en" in package && language in package && language != "en"
    requires Lookup(package[language], path).Some? && Lookup(Skills(package[language]), path).None?
    requires Lookup(Skills(package["en"]), path).Some?
    ensures Join(path) in Listing(package, language)
            && root + "/" + Join(path) in Overlay(package, language, root + "/")
    ensures Listing(package, language)[Join(path)] == Served("en", Lookup(Skills(package["en"]), path).value, true)
    ensures Overlay(package, language, root + "/")[root + "/" + Join(path)] == Lookup(package[language], path).value
  {
    LookupNames(package[language], path);
    LanguageOverEnglish(package, language, path);
    WalkIsLookup(package[language], root + "/", path);
  }

  /** Such a package: the translated file "t" lies beside no translated SKILL.md. */
  lemma TranslationOutsideSkillDirOccurs(english: string, translated: string)
    ensures var en, zh := [Dir("x", [File("SKILL.md", ""), File("t", english)])], [Dir("x", [File("t", translated)])];
            && WellFormed(en) && WellFormed(zh)
            && Lookup(zh, ["x", "t"]) == Some(translated) && Lookup(Skills(zh), ["x", "t"]) == None
            && Lookup(Skills(en), ["x", "t"]) == Some(english)
  {
    var skill, bare := [File("SKILL.md", ""), File("t", english)], [File("t", translated)];
    assert "x"[0] == 'x' && !Hidden("x") && "t"[0] == 't' && !Hidden("t");
    assert skill[0] in skill && skill[1..] == [File("t", english)];
    assert Lookup(skill, ["t"]) == Some(english);
    OneDirectory("x", bare, "t");
    OneDirectory("x", skill, "t");
  }

  lemma OneDirectory(name: string, below: seq<Entry>, file: string)
    requires !Hidden(name) && SlashFree(name) && WellFormed(below)
    ensures var one := [Dir(name, below)];
            && WellFormed(one)
            && Lookup(one, [name, file]) == Lookup(below, [file])
            && Skills(one) == if IsSkillDir(Dir(name, below)) then one else []
  {
    var one := [Dir(name, below)];
    assert [name, file][1..] == [file];
    assert Skills(one[1..]) == [];
  }

  /**
   * The fallback paths are the files copied from directories: all of them when English holds skill
   * directories only.
   */
  lemma {:induction false} PathListIsWalk(entries: seq<Entry>, prefix: string, key: string)
    ensures key in PathList(entries, prefix) <==> key in Walk(entries, prefix)
  {
    if entries == [] {
    } else {
      PathListIsWalk(entries[1..], prefix, key);
      if entries[0].Dir? {
        PathListIsWalk(entries[0].entries, prefix + entries[0].name + "/", key);
      }
    }
  }

  lemma {:induction false} DirectoriesAreAll(entries: seq<Entry>, prefix: string)
    requires OnlySkills(entries)
    ensures Walk(Directories(entries), prefix) == Walk(entries, prefix)
  {
    if entries == [] {
    } else {
      assert entries[0] in entries;
      assert forall e :: e in entries[1..] ==> e in entries;
      DirectoriesAreAll(entries[1..], prefix);
      WalkStep(entries, prefix);
      if entries[0].Dir? {
        assert Directories(entries)[0] == entries[0] && Directories(entries)[1..] == Directories(entries[1..]);
        WalkStep(Directories(entries), prefix);
      }
    }
  }

  lemma FallbackPathsAreCopied(package: map<string, seq<Entry>>, language: string, root: string, key: string)
    requires "en" in package && language !in package && OnlySkills(package["en"])
    ensures key in PathList(Directories(package["en"]), root + "/") <==> key in Overlay(package, language, root + "/")
  {
    PathListIsWalk(Directories(package["en"]), root + "/", key);
    DirectoriesAreAll(package["en"], root + "/");
  }

  /** When the whole language is missing, the listing serves English without marking it as a fallback. */
  lemma MissingLanguageIsNotMarked(package: map<string, seq<Entry>>, language: string, rel: string)
    requires "en" in package && language !in package && rel in Listing(package, language)
    ensures Listing(package, language) == Listing(package, "en")
    ensures Listing(package, language)[rel].language == "en" && !Listing(package, language)[rel].fallback
  {
  }
}
