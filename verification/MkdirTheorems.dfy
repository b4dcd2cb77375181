/** Which directories `mkdir_path` makes. */
module MkdirTheorems {
  import opened Strings
  import opened StorageKeys
  import opened ObjectStore
  import opened PathParts
  import opened TreeOperations

  lemma {:induction false} NonEmptyAppend(a: seq<string>, b: seq<string>)
    ensures NonEmpty(a + b) == NonEmpty(a) + NonEmpty(b)
  {
    if a == [] {
      assert a + b == b;
    } else {
      assert (a + b)[1..] == a[1..] + b;
      NonEmptyAppend(a[1..], b);
    }
  }

  lemma NonEmptyOne(part: string)
    ensures NonEmpty([part]) == if part == "" then [] else [part]
  {
    assert [part][1..] == [];
  }

  lemma {:induction false} StrippedParts(s: string)
    ensures NonEmpty(Split(RStrip(s, '/'))) == NonEmpty(Split(s))
  {
    if s == "" || s[|s| - 1] != '/' {
    } else {
      var t := s[..|s| - 1];
      StrippedParts(t);
      assert s == t + "/" + "";
      SplitAtSlash(t, "");
      NonEmptyAppend(Split(t), Split(""));
      NonEmptyOne("");
    }
  }

  /** The parts of a path are what stands between its slashes, without the empty ones. */
  lemma PartsBetweenSlashes(path: string)
    ensures PartsOf(path) == NonEmpty(Split(path))
  {
    StrippedParts(Virtual(path));
    if !StartsWith(path, "/") {
      assert "/" + path == "" + "/" + path;
      SplitAtSlash("", path);
      NonEmptyAppend(Split(""), Split(path));
      NonEmptyOne("");
    }
  }

  /** So no part is lost or made up: a name is its own part, and joining two paths joins their parts. */
  lemma PartsAreAll(a: string, b: string, name: string)
    requires name != "" && SlashFree(name)
    ensures PartsOf("") == [] && PartsOf(name) == [name]
    ensures PartsOf(a + "/" + b) == PartsOf(a) + PartsOf(b)
  {
    PartsBetweenSlashes("");
    PartsBetweenSlashes(name);
    SplitSlashFreeString(name);
    NonEmptyOne("");
    NonEmptyOne(name);
    PartsBetweenSlashes(a);
    PartsBetweenSlashes(b);
    PartsBetweenSlashes(a + "/" + b);
    SplitAtSlash(a, b);
    NonEmptyAppend(Split(a), Split(b));
  }

  lemma {:induction false} NamesStay(parts: seq<string>)
    requires PathNames(parts)
    ensures NonEmpty(parts) == parts
  {
    if parts == [] {
    } else {
      assert parts[0] in parts && forall p :: p in parts[1..] ==> p in parts;
      NamesStay(parts[1..]);
      assert [parts[0]] + parts[1..] == parts;
    }
  }

  /** The path of a directory of given names: its last level is the directory itself. */
  lemma LastLevelIsPath(names: seq<string>)
    requires PathNames(names) && names != []
    ensures PartsOf("/" + Join(names)) == names
    ensures Level(names, |names|) == "/" + Join(names)
  {
    var path := "/" + Join(names);
    PartsBetweenSlashes(path);
    assert path == "" + "/" + Join(names);
    SplitAtSlash("", Join(names));
    assert AllSlashFree(names);
    SplitJoin(names);
    NonEmptyAppend(Split(""), names);
    NonEmptyOne("");
    NamesStay(names);
    assert names[..|names|] == names;
  }

  /** The marker key of the directory on a level. */
  predicate LevelMarker(prefix: string, parts: seq<string>, i: nat, k: string) {
    0 < i <= |parts| && k == PrefixKey(prefix, Level(parts, i))
  }

  lemma {:induction false} LevelIsMarked(prefix: string, parts: seq<string>, n: nat, i: nat)
    requires 0 < i <= n <= |parts|
    ensures PrefixKey(prefix, Level(parts, i)) in Markers(prefix, parts, n)
  {
    if i == n {
    } else {
      LevelIsMarked(prefix, parts, n - 1, i);
    }
  }

  lemma {:induction false} LevelOfMarker(prefix: string, parts: seq<string>, n: nat, k: string) returns (i: nat)
    requires n <= |parts| && k in Markers(prefix, parts, n)
    ensures i <= n && LevelMarker(prefix, parts, i, k) && Markers(prefix, parts, n)[k] == ""
  {
    if k == PrefixKey(prefix, Level(parts, n)) {
      i := n;
    } else {
      i := LevelOfMarker(prefix, parts, n - 1, k);
    }
  }

  /** The markers written are those of the levels made, all of them and no other, each with an empty body. */
  lemma MarkersExactly(prefix: string, parts: seq<string>, n: nat, k: string)
    requires n <= |parts|
    ensures k in Markers(prefix, parts, n) <==> exists i: nat :: i <= n && LevelMarker(prefix, parts, i, k)
    ensures k in Markers(prefix, parts, n) ==> Markers(prefix, parts, n)[k] == ""
  {
    if k in Markers(prefix, parts, n) {
      var i := LevelOfMarker(prefix, parts, n, k);
    }
    if i: nat :| i <= n && LevelMarker(prefix, parts, i, k) {
      LevelIsMarked(prefix, parts, n, i);
    }
  }

  /** No file stands at any of those levels. */
  lemma {:induction false} ClearExactly(objects: map<string, Body>, prefix: string, parts: seq<string>, n: nat)
    requires n <= |parts|
    ensures Clear(objects, prefix, parts, n) <==>
            forall i :: 1 <= i <= n ==> Key(prefix, Level(parts, i)) !in objects
  {
    if n == 0 {
    } else {
      ClearExactly(objects, prefix, parts, n - 1);
    }
  }

  /** A level is at or above the path, and each one directly below the one before. */
  lemma LevelsNest(parts: seq<string>, n: nat)
    requires PathNames(parts) && 0 < n < |parts|
    ensures Level(parts, n + 1) == Level(parts, n) + "/" + parts[n]
  {
    assert parts[..n + 1] == parts[..n] + [parts[n]];
    JoinAppend(parts[..n], [parts[n]]);
  }
}
