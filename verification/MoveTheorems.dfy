/** What a successful `move_path` of a directory means for the whole store. */
module MoveTheorems {
  import opened Strings
  import opened StorageKeys
  import opened ObjectStore
  import opened TreeOperations

  /** `move_path` takes its directory branch and moves something, not into itself. */
  ghost predicate MovesTree(objects: map<string, Body>, prefix: string, src: string, dest: string) {
    && MoveOutcome(objects, prefix, src, dest).Moved?
    && Key(prefix, Virtual(src)) !in objects
    && !AtOrUnder(Landing(dest), DirRoot(src))
  }

  lemma TreeIsMovable(objects: map<string, Body>, prefix: string, src: string, dest: string)
    requires MovesTree(objects, prefix, src, dest)
    ensures Movable(objects, prefix, Virtual(src), Virtual(dest))
  {
    GuardsPassed(objects, prefix, Virtual(src), Virtual(dest));
    RStripSpec(Virtual(src), '/');
  }

  /**
   * A directory move relabels injectively: every key under the source reappears with its old body at the key
   * with the destination in place of the source (the bare marker at the destination itself, without a slash),
   * and nothing is left under the source.
   */
  lemma MoveRelabels(objects: map<string, Body>, prefix: string, src: string, dest: string)
    requires MovesTree(objects, prefix, src, dest)
    ensures var after := MoveResult(objects, prefix, src, dest);
            var pk := PrefixKey(prefix, Virtual(src));
            && Under(after, pk) == {}
            && (forall k :: k in Under(objects, pk) ==>
                  var t := Relabel(prefix, Virtual(src), Virtual(dest), k);
                  t in after && after[t] == objects[k])
            && (forall a, b :: a in Under(objects, pk) && b in Under(objects, pk) && a != b ==>
                  Relabel(prefix, Virtual(src), Virtual(dest), a) != Relabel(prefix, Virtual(src), Virtual(dest), b))
  {
    TreeIsMovable(objects, prefix, src, dest);
    TargetsOfTree(objects, prefix, Virtual(src), Virtual(dest));
    var target := MoveMap(objects, prefix, Virtual(src), Virtual(dest));
    RelabelledBodies(objects, target);
    var after, pk := Relabelled(objects, target), PrefixKey(prefix, Virtual(src));
    forall k | k in after
      ensures !StartsWith(k, pk)
    {
      if k in target.Values {
        var o := Origin(target, k);
      }
    }
    forall k | k in Under(objects, pk)
      ensures k in target && target[k] == Relabel(prefix, Virtual(src), Virtual(dest), k)
    {
    }
  }

  lemma RelabelledBodies(objects: map<string, Body>, target: map<string, string>)
    requires target.Keys <= objects.Keys && Injective(target)
    ensures forall k :: k in target ==>
            target[k] in Relabelled(objects, target) && Relabelled(objects, target)[target[k]] == objects[k]
  {
    forall k | k in target
      ensures target[k] in Relabelled(objects, target) && Relabelled(objects, target)[target[k]] == objects[k]
    {
      assert target[k] in target.Values;
      assert Origin(target, target[k]) == k;
    }
  }

  /** The one object a directory move can destroy: a file at the destination's name, hit by the source's marker. */
  ghost predicate HitsFile(objects: map<string, Body>, prefix: string, src: string, dest: string) {
    PrefixKey(prefix, Virtual(src)) in objects && Key(prefix, DirRoot(Virtual(dest))) in objects
  }

  /** Which keys a movable tree is sent to: all below the destination, except for the marker. */
  lemma TargetPlaces(objects: map<string, Body>, prefix: string, src: string, dest: string, k: string)
    requires Movable(objects, prefix, src, dest) && k in Under(objects, PrefixKey(prefix, src))
    ensures var t, destKey := Relabel(prefix, src, dest, k), Key(prefix, DirRoot(dest));
            && (k == PrefixKey(prefix, src) ==> t == destKey)
            && (k != PrefixKey(prefix, src) ==> t !in objects && t != destKey)
  {
    MovableRoots(objects, prefix, src, dest);
    LandingKeys(prefix, dest);
    var pk, pd := PrefixKey(prefix, src), PrefixKey(prefix, dest);
    assert k == pk + k[|pk|..];
    if k != pk {
      assert StartsWith(Relabel(prefix, src, dest, k), pd);
      assert Relabel(prefix, src, dest, k) !in Under(objects, pd);
    }
  }

  lemma {:induction false} ValuesCount(target: map<string, string>)
    requires Injective(target)
    ensures |target.Values| == |target.Keys|
  {
    if target == map[] {
    } else {
      var k :| k in target;
      WithoutKey(target, k);
      ValuesCount(target - {k});
    }
  }

  lemma WithoutKey(target: map<string, string>, k: string)
    requires Injective(target) && k in target
    ensures var rest := target - {k};
            && Injective(rest) && rest.Keys == target.Keys - {k}
            && target[k] in target.Values && rest.Values == target.Values - {target[k]}
  {
    var rest := target - {k};
    forall v | v in target.Values && v != target[k]
      ensures v in rest.Values
    {
      var x :| x in target && target[x] == v;
      assert x in rest && rest[x] == v;
    }
    forall v | v in rest.Values
      ensures v in target.Values && v != target[k]
    {
      var x :| x in rest && rest[x] == v;
      assert x in target && target[x] == v;
    }
  }

  /** Outside the source, no object changes unless the moved marker lands on a file. */
  lemma MoveKeepsOthers(objects: map<string, Body>, prefix: string, src: string, dest: string, k: string)
    requires MovesTree(objects, prefix, src, dest)
    requires k in objects && !StartsWith(k, PrefixKey(prefix, Virtual(src)))
    requires HitsFile(objects, prefix, src, dest) ==> k != Key(prefix, DirRoot(Virtual(dest)))
    ensures var after := MoveResult(objects, prefix, src, dest);
            k in after && after[k] == objects[k]
  {
    var srcV, destV := Virtual(src), Virtual(dest);
    TreeIsMovable(objects, prefix, src, dest);
    TargetsOfTree(objects, prefix, srcV, destV);
    var target := MoveMap(objects, prefix, srcV, destV);
    if k in target.Values {
      TargetPlaces(objects, prefix, srcV, destV, Origin(target, k));
    }
    assert k !in target.Values && k !in target;
  }

  /** The number of objects is conserved exactly when the move destroys none. */
  lemma MoveConserves(objects: map<string, Body>, prefix: string, src: string, dest: string)
    requires MovesTree(objects, prefix, src, dest)
    ensures |MoveResult(objects, prefix, src, dest)| == |objects| <==> !HitsFile(objects, prefix, src, dest)
  {
    var srcV, destV := Virtual(src), Virtual(dest);
    TreeIsMovable(objects, prefix, src, dest);
    TargetsOfTree(objects, prefix, srcV, destV);
    var target := MoveMap(objects, prefix, srcV, destV);
    RelabelledCount(objects, target);
    var kept, destKey := objects.Keys - target.Keys, Key(prefix, DirRoot(destV));
    forall t | t in kept * target.Values
      ensures t == destKey && HitsFile(objects, prefix, src, dest)
    {
      TargetPlaces(objects, prefix, srcV, destV, Origin(target, t));
    }
    if HitsFile(objects, prefix, src, dest) {
      TargetPlaces(objects, prefix, srcV, destV, PrefixKey(prefix, srcV));
      assert target[PrefixKey(prefix, srcV)] == destKey && destKey in kept * target.Values;
    }
    OneOrNone(kept * target.Values, destKey, HitsFile(objects, prefix, src, dest));
  }

  lemma OneOrNone(s: set<string>, k: string, one: bool)
    requires forall t :: t in s ==> t == k && one
    requires one ==> k in s
    ensures |s| == if one then 1 else 0
  {
    assert s == if one then {k} else {};
  }

  lemma RelabelledCount(objects: map<string, Body>, target: map<string, string>)
    requires target.Keys <= objects.Keys && Injective(target)
    ensures |Relabelled(objects, target)| == |objects| - |(objects.Keys - target.Keys) * target.Values|
  {
    ValuesCount(target);
    RelabelledKeys(objects, target);
    ReplacedCount(objects.Keys, target.Keys, target.Values);
    KeyCount(objects);
    KeyCount(Relabelled(objects, target));
  }

  lemma RelabelledKeys(objects: map<string, Body>, target: map<string, string>)
    requires target.Keys <= objects.Keys && Injective(target)
    ensures Relabelled(objects, target).Keys == (objects.Keys - target.Keys) + target.Values
  {
  }

  lemma KeyCount(objects: map<string, Body>)
    ensures |objects.Keys| == |objects|
  {
  }

  lemma ReplacedCount(all: set<string>, gone: set<string>, added: set<string>)
    requires gone <= all
    ensures |(all - gone) + added| == |all| - |gone| + |added| - |(all - gone) * added|
  {
    UnionCount(all - gone, added);
    assert all == (all - gone) + gone;
  }

  lemma UnionCount(a: set<string>, b: set<string>)
    ensures |a + b| == |a| + |b| - |a * b|
  {
  }

  /** Towards a canonical destination the guards leave no file to hit, so nothing is lost. */
  lemma CanonicalMoveConserves(objects: map<string, Body>, prefix: string, src: string, dest: string)
    requires MovesTree(objects, prefix, src, dest) && Canonical(Virtual(dest))
    ensures !HitsFile(objects, prefix, src, dest)
    ensures |MoveResult(objects, prefix, src, dest)| == |objects|
  {
    DirRootForm(Virtual(dest));
    MoveConserves(objects, prefix, src, dest);
  }

  lemma SlashForms()
    ensures RStrip("/s", '/') == "/s" && Virtual("/s") == "/s" && Virtual("/d/") == "/d/" && DirRoot("/d/") == "/d"
    ensures PrefixKey("", "/s") == "s/" && PrefixKey("", "/d/") == PrefixKey("", "/d") == "d/" && DirRoot("/d") == "/d"
    ensures Key("", "/s") == "s" && Key("", "/d/") == "d/" && Key("", "/d") == "d"
  {
    assert RStrip("/s", '/') == "/s" && RStrip("/d/", '/') == RStrip("/d", '/') == "/d";
    assert LStrip("/d/", '/') == LStrip("d/", '/') == "d/" && LStrip("/d", '/') == LStrip("d", '/') == "d";
    assert LStrip("/s", '/') == LStrip("s", '/') == "s";
  }

  /** A small move between canonical paths: a marker and a file go from `/s` to `/d`. */
  lemma CanonicalMoveOccurs()
    ensures var objects := map["s/" := "", "s/x" := "one"];
            MovesTree(objects, "", "/s", "/d") && Canonical(Virtual("/s")) && Canonical(Virtual("/d"))
  {
    var objects: map<string, Body> := map["s/" := "", "s/x" := "one"];
    SlashForms();
    assert "s/" in Under(objects, "s/") && Under(objects, "d/") == {};
    MoveMapDomain(objects, "", "/s", "/d");
    assert "s/" in SourceKeys(objects, "", "/s");
  }

  /** A trailing slash on the destination is enough to lose a file: the guards look at another key. */
  lemma TrailingSlashLosesFile()
    ensures var objects := map["s/" := "", "s/x" := "one", "d" := "two"];
            && MovesTree(objects, "", "/s", "/d/")
            && HitsFile(objects, "", "/s", "/d/")
  {
    var objects: map<string, Body> := map["s/" := "", "s/x" := "one", "d" := "two"];
    SlashForms();
    assert "s/" in Under(objects, "s/") && Under(objects, "d/") == {};
    MoveMapDomain(objects, "", "/s", "/d/");
    assert "s/" in SourceKeys(objects, "", "/s");
  }

  // ----- Moving back -----

  /** After moving a tree between canonical paths, the way back passes every guard. */
  lemma WayBack(objects: map<string, Body>, prefix: string, src: string, dest: string)
    requires Canonical(src) && Canonical(dest) && MovesTree(objects, prefix, src, dest)
    ensures var after := MoveResult(objects, prefix, src, dest);
            && Virtual(src) != Virtual(dest)
            && !StartsWith(src, DirRoot(dest) + "/")
            && Key(prefix, src) !in after && Key(prefix, src) !in objects
            && Under(after, PrefixKey(prefix, src)) == {}
  {
    TreeIsMovable(objects, prefix, src, dest);
    CanonicalApart(objects, prefix, src, dest);
    MoveRelabels(objects, prefix, src, dest);
    SourceNameStaysFree(objects, prefix, src, dest);
  }

  lemma CanonicalApart(objects: map<string, Body>, prefix: string, src: string, dest: string)
    requires Canonical(src) && Canonical(dest) && Movable(objects, prefix, src, dest)
    ensures DirRoot(src) == src && DirRoot(dest) == dest && Landing(src) == src && Landing(dest) == dest
    ensures !AtOrUnder(src, dest) && !AtOrUnder(dest, src)
  {
    DirRootForm(src); DirRootForm(dest);
    LandingForm(src); LandingForm(dest);
    MovableApart(objects, prefix, src, dest);
  }

  lemma SourceNameStaysFree(objects: map<string, Body>, prefix: string, src: string, dest: string)
    requires Canonical(src) && Canonical(dest) && Movable(objects, prefix, src, dest)
    requires !AtOrUnder(src, dest) && !AtOrUnder(dest, src)
    ensures Key(prefix, src) !in MoveMap(objects, prefix, src, dest).Values
  {
    TargetsOfTree(objects, prefix, src, dest);
    DirRootForm(src); DirRootForm(dest);
    DifferentKeys(prefix, src, dest);
    KeyOutside(prefix, src, dest);
    var target := MoveMap(objects, prefix, src, dest);
    forall o | o in target
      ensures target[o] != Key(prefix, src)
    {
      TargetPlaces(objects, prefix, src, dest, o);
    }
  }

  lemma DifferentKeys(prefix: string, a: string, b: string)
    requires Canonical(a) && Canonical(b) && a != b
    ensures Key(prefix, a) != Key(prefix, b)
  {
    PathRoundTrip(prefix, a);
    PathRoundTrip(prefix, b);
  }

  lemma KeyOutside(prefix: string, a: string, b: string)
    requires Canonical(a) && Canonical(b) && !AtOrUnder(a, b) && !AtOrUnder(b, a)
    ensures !StartsWith(Key(prefix, a), PrefixKey(prefix, b))
  {
    DirRootForm(a);
    SameRoot(prefix, a);
    if StartsWith(Key(prefix, a), PrefixKey(prefix, b)) {
      SubtreesDisjoint(prefix, a, b, PrefixKey(prefix, a));
    }
  }

  /** Without a marker to move, the keys under the destination are exactly the targets. */
  lemma OnlyTargetsUnderDest(objects: map<string, Body>, prefix: string, src: string, dest: string)
    requires Canonical(src) && Canonical(dest) && MovesTree(objects, prefix, src, dest)
    requires PrefixKey(prefix, src) !in objects
    ensures Under(MoveResult(objects, prefix, src, dest), PrefixKey(prefix, dest)) ==
            MoveMap(objects, prefix, src, dest).Values
    ensures Key(prefix, dest) !in MoveResult(objects, prefix, src, dest)
  {
    TreeIsMovable(objects, prefix, src, dest);
    TargetsOfTree(objects, prefix, src, dest);
    DirRootForm(dest);
    var target, pd := MoveMap(objects, prefix, src, dest), PrefixKey(prefix, dest);
    forall t | t in target.Values
      ensures StartsWith(t, pd) && t != Key(prefix, dest)
    {
      TargetPlaces(objects, prefix, src, dest, Origin(target, t));
    }
    OnlyTheAdded(objects, target, pd);
  }

  lemma OnlyTheAdded(objects: map<string, Body>, target: map<string, string>, pd: string)
    requires target.Keys <= objects.Keys && Injective(target)
    requires Under(objects, pd) == {} && forall t :: t in target.Values ==> StartsWith(t, pd)
    ensures Under(Relabelled(objects, target), pd) == target.Values
  {
    forall k | k in objects
      ensures !StartsWith(k, pd)
    {
      assert k !in Under(objects, pd);
    }
  }

  /**
   * Moving a directory and moving it back restores the store exactly when the directory had no marker object:
   * a moved marker becomes a file at the destination, and the way back then moves that file only.
   */
  lemma MoveBackRestores(objects: map<string, Body>, prefix: string, src: string, dest: string)
    requires Canonical(src) && Canonical(dest) && MovesTree(objects, prefix, src, dest)
    ensures var after := MoveResult(objects, prefix, src, dest);
            MoveResult(after, prefix, dest, src) == objects <==> PrefixKey(prefix, src) !in objects
  {
    var after := MoveResult(objects, prefix, src, dest);
    TreeIsMovable(objects, prefix, src, dest);
    WayBack(objects, prefix, src, dest);
    if PrefixKey(prefix, src) in objects {
      MarkerComesBackAsFile(objects, prefix, src, dest);
    } else {
      TreeComesBack(objects, prefix, src, dest);
    }
  }

  lemma MarkerComesBackAsFile(objects: map<string, Body>, prefix: string, src: string, dest: string)
    requires Canonical(src) && Canonical(dest) && MovesTree(objects, prefix, src, dest)
    requires PrefixKey(prefix, src) in objects
    ensures MoveResult(MoveResult(objects, prefix, src, dest), prefix, dest, src) != objects
  {
    var after := MoveResult(objects, prefix, src, dest);
    WayBack(objects, prefix, src, dest);
    MoveRelabels(objects, prefix, src, dest);
    TreeIsMovable(objects, prefix, src, dest);
    TargetPlaces(objects, prefix, src, dest, PrefixKey(prefix, src));
    DirRootForm(dest);
    assert PrefixKey(prefix, src) in Under(objects, PrefixKey(prefix, src));
    assert Key(prefix, dest) in after;
    assert MoveOutcome(after, prefix, dest, src) == Moved(1);
    DifferentKeys(prefix, src, dest);
    assert Key(prefix, src) in MoveResult(after, prefix, dest, src);
  }

  /** Without a marker, the way back is a directory move again. */
  lemma BackMovesTree(objects: map<string, Body>, prefix: string, src: string, dest: string)
    requires Canonical(src) && Canonical(dest) && MovesTree(objects, prefix, src, dest)
    requires PrefixKey(prefix, src) !in objects
    ensures var after := MoveResult(objects, prefix, src, dest);
            MovesTree(after, prefix, dest, src) && Movable(after, prefix, dest, src)
  {
    var after := MoveResult(objects, prefix, src, dest);
    WayBack(objects, prefix, src, dest);
    OnlyTargetsUnderDest(objects, prefix, src, dest);
    TreeIsMovable(objects, prefix, src, dest);
    CanonicalApart(objects, prefix, src, dest);
    TargetUnderDest(objects, prefix, src, dest);
    SourceKeysAreUnder(after, prefix, dest);
  }

  lemma TargetUnderDest(objects: map<string, Body>, prefix: string, src: string, dest: string)
    requires Canonical(src) && Canonical(dest) && MovesTree(objects, prefix, src, dest)
    requires Movable(objects, prefix, src, dest)
    requires Under(MoveResult(objects, prefix, src, dest), PrefixKey(prefix, dest)) ==
             MoveMap(objects, prefix, src, dest).Values
    ensures Under(MoveResult(objects, prefix, src, dest), PrefixKey(prefix, dest)) != {}
  {
    MoveMapDomain(objects, prefix, src, dest);
    var k :| k in Under(objects, PrefixKey(prefix, src));
    assert MoveMap(objects, prefix, src, dest)[k] in MoveMap(objects, prefix, src, dest).Values;
  }

  lemma TreeComesBack(objects: map<string, Body>, prefix: string, src: string, dest: string)
    requires Canonical(src) && Canonical(dest) && MovesTree(objects, prefix, src, dest)
    requires PrefixKey(prefix, src) !in objects
    ensures MoveResult(MoveResult(objects, prefix, src, dest), prefix, dest, src) == objects
  {
    var after := MoveResult(objects, prefix, src, dest);
    BackMovesTree(objects, prefix, src, dest);
    var target, back := MoveMap(objects, prefix, src, dest), MoveMap(after, prefix, dest, src);
    TargetsComeBack(objects, prefix, src, dest);
    RelabelInverse(objects, target, back);
  }

  lemma TargetsComeBack(objects: map<string, Body>, prefix: string, src: string, dest: string)
    requires Canonical(src) && Canonical(dest) && MovesTree(objects, prefix, src, dest)
    requires PrefixKey(prefix, src) !in objects
    requires Movable(MoveResult(objects, prefix, src, dest), prefix, dest, src)
    ensures var target := MoveMap(objects, prefix, src, dest);
            var back := MoveMap(MoveResult(objects, prefix, src, dest), prefix, dest, src);
            && target.Keys <= objects.Keys && Injective(target) && target.Values !! objects.Keys
            && back.Keys == target.Values
            && forall k :: k in target ==> back[target[k]] == k
  {
    var after := MoveResult(objects, prefix, src, dest);
    OnlyTargetsUnderDest(objects, prefix, src, dest);
    TreeIsMovable(objects, prefix, src, dest);
    TargetsOfTree(objects, prefix, src, dest);
    TargetsOfTree(after, prefix, dest, src);
    var target := MoveMap(objects, prefix, src, dest);
    forall t | t in target.Values
      ensures t !in objects
    {
      TargetPlaces(objects, prefix, src, dest, Origin(target, t));
    }
    forall k | k in target
      ensures MoveMap(after, prefix, dest, src)[target[k]] == k
    {
      assert target[k] in target.Values;
      ThereAndBack(prefix, src, dest, k);
    }
  }

  lemma ThereAndBack(prefix: string, src: string, dest: string, k: string)
    requires Canonical(src) && Canonical(dest)
    requires StartsWith(k, PrefixKey(prefix, src)) && k != PrefixKey(prefix, src)
    ensures StartsWith(Relabel(prefix, src, dest, k), PrefixKey(prefix, dest))
    ensures Relabel(prefix, dest, src, Relabel(prefix, src, dest, k)) == k
  {
    var ps, pd := PrefixKey(prefix, src), PrefixKey(prefix, dest);
    var rel := k[|ps|..];
    assert k == ps + rel;
    assert (pd + rel)[|pd|..] == rel;
  }

  lemma RelabelInverse(objects: map<string, Body>, target: map<string, string>, back: map<string, string>)
    requires target.Keys <= objects.Keys && Injective(target) && target.Values !! objects.Keys
    requires back.Keys == target.Values
    requires forall k :: k in target ==> back[target[k]] == k
    ensures Relabelled(Relabelled(objects, target), back) == objects
  {
  }
}
