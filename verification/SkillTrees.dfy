/** Which files of a skill tree are copied and listed. */
module SkillTrees {
  import opened Strings
  import opened PathParts
  import opened BuiltinSkills

  /** A name that the walks pass over. */
  predicate PassedOver(name: string) {
    (name != "" && name[0] == '.') || (|name| >= 2 && name[0] == name[1] == '_')
  }

  lemma HiddenNames(name: string)
    ensures Hidden(name) <==> PassedOver(name)
  {
    if name != "" {
      assert name[..1] == [name[0]];
      assert |name| >= 2 ==> name[..2] == [name[0], name[1]];
    }
  }

  /** Nothing is found on a path with a hidden name, in a directory or of a file. */
  lemma {:induction false} NothingHidden(entries: seq<Entry>, path: seq<string>)
    requires Lookup(entries, path).Some?
    ensures forall p :: p in path ==> !PassedOver(p)
    decreases path, entries
  {
    HiddenNames(path[0]);
    if entries[0].name != path[0] {
      NothingHidden(entries[1..], path);
    } else if entries[0].Dir? {
      NothingHidden(entries[0].entries, path[1..]);
      assert forall p :: p in path ==> p == path[0] || p in path[1..];
    } else {
      assert path == [path[0]];
    }
  }

  /** Everything else is found: a file under its name, and what is below a directory under that one's name. */
  lemma {:induction false} LookupFinds(entries: seq<Entry>, e: Entry, rest: seq<string>)
    requires WellFormed(entries) && e in entries && !PassedOver(e.name)
    ensures e.File? ==> Lookup(entries, [e.name] + rest) == if rest == [] then Some(e.content) else None
    ensures e.Dir? ==> Lookup(entries, [e.name] + rest) == Lookup(e.entries, rest)
    decreases entries
  {
    HiddenNames(e.name);
    assert ([e.name] + rest)[1..] == rest;
    if entries[0] == e {
    } else {
      var k :| 0 <= k < |entries| && entries[k] == e;
      WellFormedTail(entries);
      assert entries[1..][k - 1] == e;
      LookupFinds(entries[1..], e, rest);
    }
  }

  /** A directory with a SKILL.md file of its own. */
  predicate HoldsSkill(entries: seq<Entry>, name: string) {
    exists e, f :: e in entries && e.name == name && e.Dir? && f in e.entries && f.File? && f.name == "SKILL.md"
  }

  lemma {:induction false} LookupInSkills(entries: seq<Entry>, path: seq<string>)
    requires WellFormed(entries) && path != []
    ensures Lookup(Skills(entries), path) == if HoldsSkill(entries, path[0]) then Lookup(entries, path) else None
    decreases entries
  {
    if entries == [] {
    } else {
      var e, rest := entries[0], entries[1..];
      WellFormedTail(entries);
      LookupInSkills(rest, path);
      SkillOfFirst(entries, path[0]);
      if IsSkillDir(e) {
        assert Skills(entries)[0] == e && Skills(entries)[1..] == Skills(rest);
      } else if e.name == path[0] {
        NotInSkills(rest, path);
      }
    }
  }

  lemma SkillOfFirst(entries: seq<Entry>, name: string)
    requires WellFormed(entries) && entries != []
    ensures HoldsSkill(entries, name) <==>
            if entries[0].name == name then IsSkillDir(entries[0]) else HoldsSkill(entries[1..], name)
  {
    WellFormedTail(entries);
    assert entries[0] in entries && forall e :: e in entries <==> e == entries[0] || e in entries[1..];
  }

  lemma NotInSkills(entries: seq<Entry>, path: seq<string>)
    requires WellFormed(entries) && path != [] && forall e :: e in entries ==> e.name != path[0]
    ensures Lookup(Skills(entries), path) == None
  {
    SkillsWellFormed(entries);
    if Lookup(Skills(entries), path).Some? {
      LookupNames(Skills(entries), path);
    }
  }

  /** The listing of one language serves exactly the visible files below directories with a SKILL.md file. */
  lemma ListedExactly(package: map<string, seq<Entry>>, path: seq<string>)
    requires "en" in package && WellFormed(package["en"]) && path != [] && AllSlashFree(path)
    ensures Join(path) in Listing(package, "en") <==>
            Lookup(package["en"], path).Some? && HoldsSkill(package["en"], path[0])
    ensures Join(path) in Listing(package, "en") ==>
              Listing(package, "en")[Join(path)] == Served("en", Lookup(package["en"], path).value, false)
  {
    var en := package["en"];
    SkillsWellFormed(en);
    WalkIsLookup(Skills(en), "", path);
    LookupInSkills(en, path);
    assert "" + Join(path) == Join(path);
  }

  /** A workspace is up to date after a sync for exactly the version it was synced to, if that has no blanks around. */
  lemma SyncedIsUpToDate(files: map<string, string>, root: string, version: string, other: string)
    ensures var after := files[root + "/" + VERSION_FILE := version];
            UpToDate(after, root, other) <==> Strip(version) == other
    ensures Strip(version) == version <==> version == "" || (!Blank(version[0]) && !Blank(version[|version| - 1]))
    ensures root + "/" + VERSION_FILE !in files ==> !UpToDate(files, root, other)
  {
    StripSpec(version);
  }
}
