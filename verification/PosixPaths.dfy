/** Absolute POSIX paths as lists of parts: normalising them, and what normalised paths look like. */
module PosixPaths {
  import opened Strings
  import opened PathParts
  import opened StorageKeys

  /** The parts of `PurePosixPath(path)` behind its root: empty and `.` parts are dropped. */
  function RelativeParts(parts: seq<string>): seq<string> {
    if parts == [] then []
    else if parts[0] == "" || parts[0] == "." then RelativeParts(parts[1..])
    else [parts[0]] + RelativeParts(parts[1..])
  }

  /** `PurePosixPath(path).parts`. Exactly two leading slashes make a root of their own. */
  function PosixParts(path: string): seq<string> {
    var rest := RelativeParts(Split(path));
    if StartsWith(path, "//") && !StartsWith(path, "///") then ["//"] + rest
    else if StartsWith(path, "/") then ["/"] + rest
    else rest
  }

  /** Resolving `..` against the parts kept so far. */
  function Collapse(parts: seq<string>, kept: seq<string>): seq<string> {
    if parts == [] then kept
    else if parts[0] == "/" || parts[0] == "" || parts[0] == "." then Collapse(parts[1..], kept)
    else if parts[0] == ".." then Collapse(parts[1..], if kept != [] then kept[..|kept| - 1] else kept)
    else Collapse(parts[1..], kept + [parts[0]])
  }

  function Absolute(parts: seq<string>): string {
    if parts == [] then "/" else "/" + Join(parts)
  }

  function Normalized(path: string): string {
    Absolute(Collapse(PosixParts(path), []))
  }

  // ----- Clean paths -----

  /** Parts that stand for themselves: nonempty, neither `.` nor `..`, no slash and no backslash. */
  predicate Clean(parts: seq<string>) {
    forall p :: p in parts ==> p != "" && p != "." && p != ".." && SlashFree(p) && '\\' !in p
  }

  lemma {:induction false} JoinPlain(parts: seq<string>)
    requires Clean(parts)
    ensures '\\' !in Join(parts)
  {
    if |parts| > 1 {
      assert parts[0] in parts && forall p :: p in parts[1..] ==> p in parts;
      JoinPlain(parts[1..]);
    } else if |parts| == 1 {
      assert parts[0] in parts;
    }
  }

  lemma {:induction false} CleanRelative(parts: seq<string>)
    requires Clean(parts)
    ensures RelativeParts(parts) == parts
  {
    if parts == [] {
    } else {
      assert parts[0] in parts && forall p :: p in parts[1..] ==> p in parts;
      CleanRelative(parts[1..]);
      assert [parts[0]] + parts[1..] == parts;
    }
  }

  lemma {:induction false} CleanCollapse(parts: seq<string>, kept: seq<string>)
    requires Clean(parts)
    ensures Collapse(parts, kept) == kept + parts
  {
    if parts == [] {
    } else {
      assert parts[0] in parts && forall p :: p in parts[1..] ==> p in parts;
      assert parts[0] != "/" by {
        assert '/' in "/";
      }
      CleanCollapse(parts[1..], kept + [parts[0]]);
      assert kept + [parts[0]] + parts[1..] == kept + parts;
    }
  }

  /** The parts of a clean absolute path are the parts it was made of. */
  lemma AbsoluteParts(parts: seq<string>)
    requires Clean(parts)
    ensures RelativeParts(Split(Absolute(parts))) == parts
    ensures Collapse(parts, []) == parts
  {
    if parts == [] {
      assert Split("/") == ["", ""];
    } else {
      JoinStart(parts);
      SplitCons("", Join(parts));
      SplitJoin(parts);
      assert Absolute(parts) == "" + "/" + Join(parts);
      assert ([""] + parts)[1..] == parts;
    }
    CleanRelative(parts);
    CleanCollapse(parts, []);
    assert [] + parts == parts;
  }

  /** Clean absolute paths are left alone. */
  lemma NormalizedClean(parts: seq<string>)
    requires Clean(parts)
    ensures Normalized(Absolute(parts)) == Absolute(parts)
    ensures '\\' !in Absolute(parts)
  {
    JoinPlain(parts);
    AbsoluteParts(parts);
    if parts != [] {
      JoinStart(parts);
    }
    assert PosixParts(Absolute(parts)) == ["/"] + parts;
    assert (["/"] + parts)[1..] == parts;
  }

  lemma JoinStart(parts: seq<string>)
    requires parts != [] && Clean(parts)
    ensures Join(parts) != "" && Join(parts)[0] != '/'
  {
    assert parts[0] in parts;
    assert parts[0][0] in parts[0];
    assert Join(parts)[0] == parts[0][0];
  }

  /** Of two clean absolute paths, one is at or under the other exactly when its parts extend the other's. */
  lemma UnderMeansExtends(a: seq<string>, b: seq<string>)
    requires Clean(a) && Clean(b) && b != []
    ensures AtOrUnder(Absolute(a), Absolute(b)) <==> b <= a
  {
    if a == [] {
      JoinStart(b);
    } else {
      SlashFreeParts(a); SlashFreeParts(b);
      JoinPrefix(b, a);
      SamePrefix("/", Join(a), Join(b) + "/");
      assert Absolute(b) + "/" == "/" + (Join(b) + "/");
      AbsoluteInjective(a, b);
      if b <= a && |a| == |b| {
        assert a == b;
      }
    }
  }

  lemma SlashFreeParts(parts: seq<string>)
    requires Clean(parts)
    ensures AllSlashFree(parts)
  {
  }

  lemma AbsoluteAppend(a: seq<string>, b: seq<string>)
    requires a != [] && b != []
    ensures Absolute(a) + "/" + Join(b) == Absolute(a + b)
    ensures Absolute(a) + Absolute(b) == Absolute(a + b)
  {
    JoinAppend(a, b);
    var ja, jb := Join(a), Join(b);
    assert ("/" + ja) + "/" + jb == "/" + (ja + "/" + jb);
    assert ("/" + ja) + ("/" + jb) == ("/" + ja) + "/" + jb;
  }

  // ----- Normalising leaves clean parts only -----

  /** What a part of a path without backslashes can be. */
  predicate Plain(parts: seq<string>) {
    forall p :: p in parts ==> SlashFree(p) && '\\' !in p
  }

  lemma {:induction false} CollapseClean(parts: seq<string>, kept: seq<string>)
    requires Plain(parts) && Clean(kept)
    ensures Clean(Collapse(parts, kept))
  {
    if parts == [] {
    } else {
      assert parts[0] in parts && forall p :: p in parts[1..] ==> p in parts;
      if parts[0] == "/" || parts[0] == "" || parts[0] == "." {
        CollapseClean(parts[1..], kept);
      } else if parts[0] == ".." {
        CollapseClean(parts[1..], if kept != [] then kept[..|kept| - 1] else kept);
      } else {
        CollapseClean(parts[1..], kept + [parts[0]]);
      }
    }
  }

  lemma {:induction false} SplitPlain(s: string)
    requires '\\' !in s
    ensures Plain(Split(s))
  {
    if s == "" {
    } else {
      assert s[0] in s && forall c :: c in s[1..] ==> c in s;
      var rest := Split(s[1..]);
      SplitPlain(s[1..]);
      assert rest[0] in rest && forall p :: p in rest[1..] ==> p in rest;
    }
  }

  lemma {:induction false} RelativePlain(parts: seq<string>)
    requires Plain(parts)
    ensures Plain(RelativeParts(parts))
  {
    if parts == [] {
    } else {
      assert parts[0] in parts && forall p :: p in parts[1..] ==> p in parts;
      RelativePlain(parts[1..]);
    }
  }

  /** A path with one leading slash and no backslash normalises to a clean absolute path. */
  lemma NormalizedIsClean(path: string) returns (parts: seq<string>)
    requires Rooted(path) && '\\' !in path
    ensures Clean(parts) && Normalized(path) == Absolute(parts)
  {
    var rest := RelativeParts(Split(path));
    SplitPlain(path);
    RelativePlain(Split(path));
    assert PosixParts(path) == ["/"] + rest && (["/"] + rest)[1..] == rest;
    CollapseClean(rest, []);
    parts := Collapse(rest, []);
  }

  lemma AbsoluteInjective(a: seq<string>, b: seq<string>)
    requires Clean(a) && Clean(b)
    ensures Absolute(a) == Absolute(b) <==> a == b
  {
    if a != [] { JoinStart(a); }
    if b != [] { JoinStart(b); }
    if a != [] && b != [] && Absolute(a) == Absolute(b) {
      assert Join(a) == Absolute(a)[1..] == Absolute(b)[1..] == Join(b);
      SlashFreeParts(a); SlashFreeParts(b);
      JoinInjective(a, b);
    }
  }

  /** Clean absolute paths below the root are canonical virtual paths. */
  lemma AbsoluteCanonical(parts: seq<string>)
    requires parts != [] && Clean(parts)
    ensures Canonical(Absolute(parts))
  {
    JoinEnds(parts);
    assert ("/" + Join(parts))[1] == Join(parts)[0];
  }
}
