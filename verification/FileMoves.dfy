/** When `move_path` moves something, and what it then does with a single file. */
module FileMoves {
  import opened Strings
  import opened StorageKeys
  import opened ObjectStore
  import opened TreeOperations
  import opened MoveTheorems

  /** What a path names in the store: the file of that name if there is one, otherwise all that lies under it. */
  ghost function Named(objects: map<string, Body>, prefix: string, path: string): set<string> {
    if Key(prefix, path) in objects then {Key(prefix, path)} else Under(objects, PrefixKey(prefix, path))
  }

  /**
   * Between canonical paths a move takes place exactly when the source names something, the destination is neither
   * the source nor under it, and the destination names nothing; it then moves all that the source names.
   */
  lemma MovesExactly(objects: map<string, Body>, prefix: string, src: string, dest: string)
    requires Canonical(src) && Canonical(dest)
    ensures var r := MoveOutcome(objects, prefix, src, dest);
            && (r.Moved? <==> Named(objects, prefix, src) != {} && Named(objects, prefix, dest) == {} &&
                              !AtOrUnder(dest, src))
            && (r.Moved? ==> r.count == |Named(objects, prefix, src)|)
            && (!r.Moved? ==> MoveResult(objects, prefix, src, dest) == objects)
  {
    DirRootForm(src);
    SourceKeysAreUnder(objects, prefix, src);
    assert RStrip(src, '/') == src;
  }

  /** `move_path` takes its file branch and moves the file. */
  ghost predicate MovesFile(objects: map<string, Body>, prefix: string, src: string, dest: string) {
    MoveOutcome(objects, prefix, src, dest).Moved? && Key(prefix, Virtual(src)) in objects
  }

  /** A moved file is gone from its place, is at the destination with its old body, and is the only change. */
  lemma FileIsMoved(objects: map<string, Body>, prefix: string, src: string, dest: string)
    requires MovesFile(objects, prefix, src, dest)
    ensures MoveOutcome(objects, prefix, src, dest) == Moved(1)
    ensures var after := MoveResult(objects, prefix, src, dest);
            var a, b := Key(prefix, Virtual(src)), Key(prefix, Virtual(dest));
            && a !in after && b !in objects && b in after && after[b] == objects[a]
            && (forall k :: k != a && k != b ==> (k in after <==> k in objects))
            && (forall k :: k != a && k in objects ==> after[k] == objects[k])
            && |after| == |objects|
  {
    var a, b := Key(prefix, Virtual(src)), Key(prefix, Virtual(dest));
    var after := MoveResult(objects, prefix, src, dest);
    assert after.Keys == (objects.Keys - {a}) + {b};
    assert |after.Keys| == |after| && |objects.Keys| == |objects|;
  }

  /**
   * Moving a file and moving it back restores the store exactly when nothing is stored under the file's own name as
   * a directory: otherwise that directory is in the way of the move back.
   */
  lemma FileComesBack(objects: map<string, Body>, prefix: string, src: string, dest: string)
    requires Canonical(src) && Canonical(dest) && MovesFile(objects, prefix, src, dest)
    ensures var after := MoveResult(objects, prefix, src, dest);
            MoveResult(after, prefix, dest, src) == objects <==> Under(objects, PrefixKey(prefix, src)) == {}
  {
    var after := MoveResult(objects, prefix, src, dest);
    FileIsMoved(objects, prefix, src, dest);
    ApartFromFile(objects, prefix, src, dest);
    var a, b := Key(prefix, src), Key(prefix, dest);
    var pk := PrefixKey(prefix, src);
    KeyOutside(prefix, dest, src);
    OwnName(prefix, src);
    assert Under(after, pk) == Under(objects, pk);
    if Under(objects, pk) == {} {
      assert MoveOutcome(after, prefix, dest, src) == Moved(1);
      assert MoveResult(after, prefix, dest, src) == objects;
    } else {
      assert MoveOutcome(after, prefix, dest, src) == DestinationExists;
      assert a in objects && a !in after;
    }
  }

  lemma ApartFromFile(objects: map<string, Body>, prefix: string, src: string, dest: string)
    requires Canonical(src) && Canonical(dest) && MovesFile(objects, prefix, src, dest)
    ensures RStrip(dest, '/') == dest && !AtOrUnder(dest, src) && !AtOrUnder(src, dest)
  {
    DirRootForm(src);
    DirRootForm(dest);
    assert Key(prefix, src) !in Under(objects, PrefixKey(prefix, dest));
    if StartsWith(src, dest + "/") {
      FileUnder(prefix, src, dest);
    }
  }

  lemma FileUnder(prefix: string, path: string, dir: string)
    requires Canonical(path) && Canonical(dir) && StartsWith(path, dir + "/")
    ensures StartsWith(Key(prefix, path), PrefixKey(prefix, dir))
  {
    CanonicalKey(prefix, path);
    PrefixKeyForm(prefix, dir);
    DirRootForm(dir);
    assert DirTail(dir) == (dir + "/")[1..] == path[1..|dir| + 1];
    assert DirTail(dir) <= path[1..];
    SamePrefix(Base(prefix), path[1..], DirTail(dir));
  }

  lemma OwnName(prefix: string, path: string)
    requires Canonical(path)
    ensures !StartsWith(Key(prefix, path), PrefixKey(prefix, path))
  {
    DirRootForm(path);
    CanonicalKey(prefix, path);
    PrefixKeyForm(prefix, path);
    assert |DirTail(path)| == |path[1..]| + 1;
  }

  /** Such a file, without and with a directory of its name beside it. */
  lemma FileMoveOccurs(body: Body, other: Body)
    ensures MovesFile(map["s" := body], "", "/s", "/d")
    ensures MoveResult(map["s" := body], "", "/s", "/d") == map["d" := body]
    ensures MovesFile(map["s" := body, "s/x" := other], "", "/s", "/d")
    ensures Under(map["s" := body, "s/x" := other], PrefixKey("", "/s")) != {}
  {
    SlashForms();
    assert RStrip("/s", '/') == "/s" && DirRoot("/d") == "/d";
    assert Virtual("/d") == "/d" && Key("", "/d") == "d" && PrefixKey("", "/d") == "d/";
    var objects: map<string, Body> := map["s" := body, "s/x" := other];
    assert "s/x"[..2] == "s/";
    assert "s/x" in Under(objects, "s/");
  }

  /** A path given without its leading slash, or behind `./`, is taken from the root before it is compared. */
  lemma FragmentsAreAnchored(fragment: string, dir: string)
    requires fragment == "" || fragment[0] !in {'/', '~', '.'}
    ensures Relative("./" + fragment, dir) == Relative(fragment, dir) == Relative("/" + fragment, dir)
  {
    assert ("./" + fragment)[2..] == fragment;
    assert ("./" + fragment)[0] == '.' && ("/" + fragment)[0] == '/';
  }
}
