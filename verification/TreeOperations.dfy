/**
 * Deleting and moving directory trees in an object store while their keys are being paged.
 */
module TreeOperations {
  import opened Strings
  import opened StorageKeys
  import opened ObjectStore
  import opened PathParts

  // ----- Specification of a directory move -----

  /** The key to which `_move_prefix` sends a source key; None when it skips the key. */
  function MovedKey(prefix: string, src: string, dest: string, key: string): Option<string> {
    match Relative(VirtualPath(prefix, key), DirRoot(src))
    case None => None
    case Some(rel) => Some(Key(prefix, if rel != "" then DirRoot(dest) + "/" + rel else DirRoot(dest)))
  }

  /** The keys a directory move from `src` takes along. */
  ghost function SourceKeys(objects: map<string, Body>, prefix: string, src: string): set<string> {
    set k | k in Under(objects, PrefixKey(prefix, src)) && Relative(VirtualPath(prefix, k), DirRoot(src)).Some?
  }

  /** The keys a directory move takes along, each with the key it goes to. */
  ghost function MoveMap(objects: map<string, Body>, prefix: string, src: string, dest: string): map<string, string> {
    map k | k in SourceKeys(objects, prefix, src) && MovedKey(prefix, src, dest, k).Some? ::
      MovedKey(prefix, src, dest, k).value
  }

  /** `before` with every key of `target` relabelled, its body unchanged, and nothing else touched. */
  ghost function Relabelled(before: map<string, Body>, target: map<string, string>): map<string, Body>
    requires target.Keys <= before.Keys
  {
    map k | k in (before.Keys - target.Keys) + target.Values ::
      if k in target.Values then before[Origin(target, k)] else before[k]
  }

  /** A key that `target` sends to `k`. */
  ghost function Origin(target: map<string, string>, k: string): (key: string)
    requires k in target.Values
    ensures key in target && target[key] == k
  {
    var key :| key in target && target[key] == k;
    key
  }

  ghost predicate Injective(target: map<string, string>) {
    forall a, b :: a in target && b in target && target[a] == target[b] ==> a == b
  }

  /** A relabelling of keys below `pk` to keys elsewhere, no two of them to the same key. */
  ghost predicate LeavesPrefix(target: map<string, string>, pk: string) {
    && Injective(target)
    && (forall k :: k in target ==> StartsWith(k, pk) && !StartsWith(target[k], pk) && target[k] != "")
  }

  /** The target in closed form: the key's tail is kept, and the bare directory marker loses its slash. */
  function Relabel(prefix: string, src: string, dest: string, key: string): string
    requires StartsWith(key, PrefixKey(prefix, src))
  {
    var rel := key[|PrefixKey(prefix, src)|..];
    if rel != "" then PrefixKey(prefix, dest) + rel else Key(prefix, DirRoot(dest))
  }

  /** The virtual path of a key below a rooted directory. */
  lemma SourcePath(prefix: string, src: string, key: string)
    requires Rooted(Virtual(src)) && DirRoot(src) != "" && StartsWith(key, PrefixKey(prefix, src))
    ensures VirtualPath(prefix, key) == DirRoot(src) + "/" + key[|PrefixKey(prefix, src)|..]
    ensures WellFormed(prefix, key)
  {
    PrefixKeyForm(prefix, src);
    DirRootForm(src);
    TailPath(prefix, DirRoot(src), key[|PrefixKey(prefix, src)|..], key);
  }

  lemma TailPath(prefix: string, root: string, rel: string, key: string)
    requires Canonical(root) && key == Base(prefix) + DirTail(root) + rel
    ensures VirtualPath(prefix, key) == root + "/" + rel
    ensures WellFormed(prefix, key)
  {
    var p := root + "/" + rel;
    assert p[..|root|] == root;
    JoinedKey(prefix, root, rel);
    PathRoundTrip(prefix, p);
    KeyRoundTrip(prefix, key);
  }

  /** A rooted source takes every key below it, and each goes to its closed form. */
  lemma MovedKeyForm(prefix: string, src: string, dest: string, key: string)
    requires Rooted(Virtual(src)) && DirRoot(src) != "" && Landing(dest) != ""
    requires StartsWith(key, PrefixKey(prefix, src))
    ensures MovedKey(prefix, src, dest, key) == Some(Relabel(prefix, src, dest, key))
  {
    var rel := key[|PrefixKey(prefix, src)|..];
    SourcePath(prefix, src, key);
    RelativeTail(src, rel);
    LandingJoined(prefix, dest, rel);
  }

  lemma RelativeTail(src: string, rel: string)
    requires Rooted(Virtual(src)) && DirRoot(src) != ""
    ensures Relative(DirRoot(src) + "/" + rel, DirRoot(src)) == Some(rel)
  {
    DirRootForm(src);
    var s := DirRoot(src);
    RelativeToRoot(s, s + "/" + rel);
    assert (s + "/" + rel)[|s| + 1..] == rel;
  }

  lemma JoinedKey(prefix: string, root: string, rel: string)
    requires Canonical(root)
    ensures Key(prefix, root + "/" + rel) == Base(prefix) + DirTail(root) + rel
  {
    var p := root + "/" + rel;
    assert p[..|root|] == root && Canonical(root);
    var t := DirTail(root) + rel;
    assert p == "/" + t;
    assert t[0] == root[1];
    LStripPlain(p, t);
    KeyForm(prefix, p);
    assert Base(prefix) + t == Base(prefix) + DirTail(root) + rel;
  }

  // ----- What a directory move relies on -----

  /**
   * The state in which `_move_prefix` starts on a source that has objects: the guards of `move_path` let it
   * through, and the destination does not land in the source.
   */
  ghost predicate Movable(objects: map<string, Body>, prefix: string, src: string, dest: string) {
    && Rooted(Virtual(src))
    && !AtOrUnder(Landing(dest), DirRoot(src))
    && Under(objects, PrefixKey(prefix, dest)) == {}
    && Under(objects, PrefixKey(prefix, src)) != {}
  }

  /** An empty place for the destination is not the root, as long as the source has objects. */
  lemma NotToRoot(objects: map<string, Body>, prefix: string, src: string, dest: string)
    requires Rooted(Virtual(src))
    requires Under(objects, PrefixKey(prefix, dest)) == {} && Under(objects, PrefixKey(prefix, src)) != {}
    ensures Landing(dest) != "" && Canonical(Landing(dest))
  {
    LandingForm(dest);
    PrefixKeyForm(prefix, src);
    var k :| k in Under(objects, PrefixKey(prefix, src));
    assert k !in Under(objects, PrefixKey(prefix, dest));
    assert StartsWith(k, Base(prefix));
  }

  lemma MovableRoots(objects: map<string, Body>, prefix: string, src: string, dest: string)
    requires Movable(objects, prefix, src, dest)
    ensures DirRoot(src) != "" && Landing(dest) != ""
    ensures Canonical(DirRoot(src)) && Canonical(Landing(dest))
  {
    DirRootForm(src);
    NotToRoot(objects, prefix, src, dest);
  }

  /** Neither of the two directories lies in the other. */
  lemma MovableApart(objects: map<string, Body>, prefix: string, src: string, dest: string)
    requires Movable(objects, prefix, src, dest)
    ensures DirRoot(src) != "" && Landing(dest) != ""
    ensures !AtOrUnder(DirRoot(src), Landing(dest)) && !AtOrUnder(Landing(dest), DirRoot(src))
  {
    MovableRoots(objects, prefix, src, dest);
    var s, l := DirRoot(src), Landing(dest);
    SameRoot(prefix, src); LandingKeys(prefix, dest);
    var k :| k in Under(objects, PrefixKey(prefix, src));
    assert k !in Under(objects, PrefixKey(prefix, dest));
    if AtOrUnder(s, l) {
      NestedSubtrees(prefix, s, l, k);
    }
  }

  lemma SameRoot(prefix: string, path: string)
    requires Rooted(Virtual(path)) && DirRoot(path) != ""
    ensures Canonical(DirRoot(path)) && PrefixKey(prefix, DirRoot(path)) == PrefixKey(prefix, path)
    ensures Key(prefix, DirRoot(path)) + "/" == PrefixKey(prefix, path)
  {
    DirRootForm(path);
    DirRootForm(DirRoot(path));
    PrefixKeyForm(prefix, path);
    PrefixKeyForm(prefix, DirRoot(path));
    CanonicalKey(prefix, DirRoot(path));
    assert Base(prefix) + DirRoot(path)[1..] + "/" == Base(prefix) + (DirRoot(path)[1..] + "/");
  }

  /** No key is moved to where the listing of the source could still find it. */
  lemma TargetOutsideSource(objects: map<string, Body>, prefix: string, src: string, dest: string, key: string)
    requires Movable(objects, prefix, src, dest)
    requires StartsWith(key, PrefixKey(prefix, src))
    ensures !StartsWith(Relabel(prefix, src, dest, key), PrefixKey(prefix, src))
    ensures Relabel(prefix, src, dest, key) != ""
  {
    MovableApart(objects, prefix, src, dest);
    MovableRoots(objects, prefix, src, dest);
    SameRoot(prefix, src); LandingKeys(prefix, dest);
    var target := Relabel(prefix, src, dest, key);
    var inside := if StartsWith(target, PrefixKey(prefix, dest)) then target else PrefixKey(prefix, dest);
    assert StartsWith(inside, target);
    if StartsWith(target, PrefixKey(prefix, src)) {
      SubtreesDisjoint(prefix, DirRoot(src), Landing(dest), inside);
    }
    CanonicalKey(prefix, Landing(dest));
  }

  /**
   * Exactly when a moved key falls back into the source, for a free destination however it is written: when the
   * destination lands at or under the source. The bare marker loses its slash, so for it landing at the source
   * itself is not enough.
   */
  lemma TargetReenters(objects: map<string, Body>, prefix: string, src: string, dest: string, key: string)
    requires Rooted(Virtual(src)) && DirRoot(src) != ""
    requires Under(objects, PrefixKey(prefix, dest)) == {} && key in Under(objects, PrefixKey(prefix, src))
    ensures MovedKey(prefix, src, dest, key) == Some(Relabel(prefix, src, dest, key))
    ensures StartsWith(Relabel(prefix, src, dest, key), PrefixKey(prefix, src)) <==>
            if key == PrefixKey(prefix, src) then StartsWith(Landing(dest), DirRoot(src) + "/")
            else AtOrUnder(Landing(dest), DirRoot(src))
  {
    var s, l, pk := DirRoot(src), Landing(dest), PrefixKey(prefix, src);
    NotToRoot(objects, prefix, src, dest);
    DirRootForm(src);
    MovedKeyForm(prefix, src, dest, key);
    if AtOrUnder(l, s) {
      FallsBack(prefix, src, dest, key);
    } else {
      TargetOutsideSource(objects, prefix, src, dest, key);
    }
  }

  lemma FallsBack(prefix: string, src: string, dest: string, key: string)
    requires Rooted(Virtual(src)) && Canonical(DirRoot(src)) && Canonical(Landing(dest))
    requires AtOrUnder(Landing(dest), DirRoot(src)) && StartsWith(key, PrefixKey(prefix, src))
    ensures StartsWith(Relabel(prefix, src, dest, key), PrefixKey(prefix, src)) <==>
            key != PrefixKey(prefix, src) || StartsWith(Landing(dest), DirRoot(src) + "/")
  {
    var s, l, pk := DirRoot(src), Landing(dest), PrefixKey(prefix, src);
    SameRoot(prefix, src); LandingKeys(prefix, dest);
    assert key == pk + key[|pk|..];
    if key != pk {
      assert StartsWith(Relabel(prefix, src, dest, key), PrefixKey(prefix, l));
      NestedSubtrees(prefix, l, s, Relabel(prefix, src, dest, key));
    } else {
      FileInDirectory(prefix, l, s);
    }
  }

  /** The key of a file starts with a directory's prefix exactly when the file lies under the directory. */
  lemma FileInDirectory(prefix: string, file: string, dir: string)
    requires Canonical(file) && Canonical(dir)
    ensures StartsWith(Key(prefix, file), PrefixKey(prefix, dir)) <==> StartsWith(file, dir + "/")
  {
    var f, d := file[1..], DirTail(dir);
    DirRootForm(dir);
    CanonicalKey(prefix, file);
    PrefixKeyForm(prefix, dir);
    SamePrefix(Base(prefix), f, d);
    SamePrefix("/", f, d);
    assert "/" + f == file && "/" + d == dir + "/";
  }

  /** Two source keys never share a target. */
  lemma RelabelInjective(prefix: string, src: string, dest: string, a: string, b: string)
    requires Landing(dest) != ""
    requires StartsWith(a, PrefixKey(prefix, src)) && StartsWith(b, PrefixKey(prefix, src))
    requires Relabel(prefix, src, dest, a) == Relabel(prefix, src, dest, b)
    ensures a == b
  {
    LandingKeys(prefix, dest);
    TailsInjective(PrefixKey(prefix, src), PrefixKey(prefix, dest), Key(prefix, DirRoot(dest)), a, b);
  }

  lemma TailsInjective(pk: string, pd: string, marker: string, a: string, b: string)
    requires StartsWith(a, pk) && StartsWith(b, pk) && marker + "/" == pd
    requires (if a[|pk|..] != "" then pd + a[|pk|..] else marker) ==
             (if b[|pk|..] != "" then pd + b[|pk|..] else marker)
    ensures a == b
  {
    var relA, relB := a[|pk|..], b[|pk|..];
    assert a == pk + relA && b == pk + relB;
    if relA != "" && relB != "" {
      assert relA == (pd + relA)[|pd|..] == (pd + relB)[|pd|..] == relB;
    }
  }

  lemma MoveMapDomain(objects: map<string, Body>, prefix: string, src: string, dest: string)
    requires Movable(objects, prefix, src, dest)
    ensures MoveMap(objects, prefix, src, dest).Keys ==
            SourceKeys(objects, prefix, src) == Under(objects, PrefixKey(prefix, src))
  {
    MovableRoots(objects, prefix, src, dest);
    var under := Under(objects, PrefixKey(prefix, src));
    forall k | k in under
      ensures MovedKey(prefix, src, dest, k).Some?
    {
      MovedKeyForm(prefix, src, dest, k);
    }
    assert SourceKeys(objects, prefix, src) == under;
  }

  /** All targets of a movable tree, at once. */
  lemma TargetsOfTree(objects: map<string, Body>, prefix: string, src: string, dest: string)
    requires Movable(objects, prefix, src, dest)
    ensures var target := MoveMap(objects, prefix, src, dest);
            && target.Keys == SourceKeys(objects, prefix, src) == Under(objects, PrefixKey(prefix, src))
            && (forall k :: k in target ==> target[k] == Relabel(prefix, src, dest, k))
            && LeavesPrefix(target, PrefixKey(prefix, src))
            && (forall k :: k in target ==> Key(prefix, VirtualPath(prefix, k)) == k)
  {
    MovableRoots(objects, prefix, src, dest);
    MoveMapDomain(objects, prefix, src, dest);
    var target, pk := MoveMap(objects, prefix, src, dest), PrefixKey(prefix, src);
    forall k | k in target
      ensures StartsWith(k, pk) && target[k] == Relabel(prefix, src, dest, k)
      ensures !StartsWith(target[k], pk) && target[k] != ""
      ensures Key(prefix, VirtualPath(prefix, k)) == k
    {
      assert k in Under(objects, pk);
      SourcePath(prefix, src, k);
      KeyRoundTrip(prefix, k);
      MovedKeyForm(prefix, src, dest, k);
      TargetOutsideSource(objects, prefix, src, dest, k);
    }
    forall a, b | a in target && b in target && target[a] == target[b]
      ensures a == b
    {
      RelabelInjective(prefix, src, dest, a, b);
    }
  }

  /**
   * Copying one more key to its target and deleting it extends the relabelling by that key.
   * A pager has just handed the key out, and `left` is what it had still to hand out.
   */
  lemma MoveAlong(before: map<string, Body>, target: map<string, string>, pk: string, left: set<string>, key: string)
    requires target.Keys <= before.Keys && LeavesPrefix(target, pk)
    requires key in left && key in target
    ensures var now := Relabelled(before, target - left);
            && key in now && now[key] == before[key]
            && now[target[key] := now[key]] - {key} == Relabelled(before, target - (left - {key}))
    ensures |target - (left - {key})| == |target - left| + 1
  {
    var done, next := target - left, target - (left - {key});
    assert next.Keys == done.Keys + {key};
    assert done == next - {key};
    assert |next.Keys| == |done.Keys| + 1;
    assert key !in next.Values && next[key] !in next.Keys by {
      assert forall k :: k in next ==> k in target && next[k] == target[k];
    }
    assert Injective(next);
    RelabelOneMore(before, done, next, key);
  }

  lemma RelabelOneMore(before: map<string, Body>, done: map<string, string>, next: map<string, string>, key: string)
    requires next.Keys <= before.Keys && Injective(next)
    requires key in next && done == next - {key}
    requires key !in next.Values && next[key] !in next.Keys
    ensures var now := Relabelled(before, done);
            && key in now && now[key] == before[key]
            && now[next[key] := now[key]] - {key} == Relabelled(before, next)
  {
    assert next.Values == done.Values + {next[key]} by {
      assert forall k :: k in next ==> k == key || (k in done && done[k] == next[k]);
      assert forall k :: k in done ==> k in next && done[k] == next[k];
    }
    var now := Relabelled(before, done);
    var after, goal := now[next[key] := now[key]] - {key}, Relabelled(before, next);
    assert after.Keys == goal.Keys;
    forall k | k in goal
      ensures after[k] == goal[k]
    {
      if k in next.Values {
        var o := Origin(next, k);
        if o != key {
          assert done[o] == k;
          assert Origin(done, k) == o;
        }
      }
    }
  }

  lemma NothingMoved(before: map<string, Body>, target: map<string, string>, left: set<string>)
    requires target.Keys <= left
    ensures target - left == map[] && Relabelled(before, target - left) == before
  {
  }

  lemma NothingLeft(target: map<string, string>, left: set<string>)
    requires left == {}
    ensures target - left == target
  {
  }

  /** A key the move skips changes nothing. */
  lemma SkipAlong(target: map<string, string>, left: set<string>, key: string)
    requires key !in target
    ensures target - (left - {key}) == target - left
  {
  }

  /** With a doubled leading slash the source matches no virtual path, so the move takes nothing along. */
  lemma UnrootedSource(objects: map<string, Body>, prefix: string, src: string, dest: string)
    requires StartsWith(DirRoot(src), "//")
    ensures SourceKeys(objects, prefix, src) == {} && MoveMap(objects, prefix, src, dest) == map[]
  {
    RStripSpec(Virtual(src), '/');
    forall k | k in Under(objects, PrefixKey(prefix, src))
      ensures Relative(VirtualPath(prefix, k), DirRoot(src)).None?
    {
      VirtualPathRooted(prefix, k);
      RelativeToUnrooted(VirtualPath(prefix, k), DirRoot(src));
    }
    assert SourceKeys(objects, prefix, src) == {};
  }

  lemma RelativeToUnrooted(v: string, d: string)
    requires Rooted(v) && StartsWith(d, "//") && !EndsWith(d, '/')
    ensures Relative(v, d).None?
  {
    AnchorRooted(d); AnchorRooted(v);
    assert RStrip(d, '/') == d;
    assert d[1] == '/' && (d + "/")[1] == '/';
    assert |v| > 1 ==> v[1] != '/';
  }

  /** One more pending key is gone from the store. */
  lemma MoveAcross(now: map<string, Body>, before: map<string, Body>, all: set<string>, left: set<string>,
                   gone: set<string>, key: string)
    requires now == before - gone && gone !! left && gone + left == all && key in left
    ensures now - {key} == before - (gone + {key})
    ensures (gone + {key}) !! (left - {key}) && (gone + {key}) + (left - {key}) == all
    ensures |gone + {key}| == |gone| + 1
  {
  }

  // ----- Directory markers -----

  /** The nonempty parts of a path. */
  function PartsOf(path: string): seq<string> {
    NonEmpty(Split(RStrip(Virtual(path), '/')))
  }

  function NonEmpty(parts: seq<string>): (r: seq<string>)
    ensures "" !in r && forall p :: p in r ==> p in parts
  {
    if parts == [] then []
    else if parts[0] == "" then NonEmpty(parts[1..])
    else [parts[0]] + NonEmpty(parts[1..])
  }

  /** The directory made of the first `n` parts. */
  function Level(parts: seq<string>, n: nat): string
    requires n <= |parts|
  {
    "/" + Join(parts[..n])
  }

  /** The markers of the directories on the first `n` levels. */
  ghost function Markers(prefix: string, parts: seq<string>, n: nat): map<string, Body>
    requires n <= |parts|
  {
    if n == 0 then map[] else Markers(prefix, parts, n - 1)[PrefixKey(prefix, Level(parts, n)) := ""]
  }

  /** No file stands in the way on the first `n` levels. */
  ghost predicate Clear(objects: map<string, Body>, prefix: string, parts: seq<string>, n: nat)
    requires n <= |parts|
  {
    n == 0 || (Clear(objects, prefix, parts, n - 1) && Key(prefix, Level(parts, n)) !in objects)
  }

  lemma PartsAreNames(path: string)
    ensures PathNames(PartsOf(path))
  {
    SplitSlashFree(RStrip(Virtual(path), '/'));
  }

  lemma LevelCanonical(parts: seq<string>, n: nat)
    requires PathNames(parts) && 0 < n <= |parts|
    ensures Canonical(Level(parts, n))
  {
    JoinEnds(parts[..n]);
    assert ("/" + Join(parts[..n]))[1] == Join(parts[..n])[0];
  }

  /** A marker is never the key of a file with a canonical path. */
  lemma MarkerIsNoFile(prefix: string, path: string, dir: string)
    requires Canonical(path) && Canonical(dir)
    ensures Key(prefix, path) != PrefixKey(prefix, dir) && PrefixKey(prefix, dir) != ""
  {
    CanonicalKey(prefix, path);
    DirRootForm(dir);
    SameRoot(prefix, dir);
    EndsWithTail(Base(prefix), path[1..]);
  }

  lemma MarkersHoldNoFile(prefix: string, parts: seq<string>, n: nat, file: string)
    requires PathNames(parts) && n <= |parts| && Canonical(file)
    ensures Key(prefix, file) !in Markers(prefix, parts, n)
  {
    MarkersEndInSlash(prefix, parts, n);
    CanonicalKey(prefix, file);
    EndsWithTail(Base(prefix), file[1..]);
  }

  lemma {:induction false} MarkersEndInSlash(prefix: string, parts: seq<string>, n: nat)
    requires PathNames(parts) && n <= |parts|
    ensures forall k :: k in Markers(prefix, parts, n) ==> EndsWith(k, '/')
  {
    if n == 0 {
    } else {
      LevelCanonical(parts, n);
      MarkerEndsInSlash(prefix, Level(parts, n));
      MarkersEndInSlash(prefix, parts, n - 1);
    }
  }

  lemma MarkerEndsInSlash(prefix: string, dir: string)
    requires Canonical(dir)
    ensures EndsWith(PrefixKey(prefix, dir), '/')
  {
    DirRootForm(dir);
    SameRoot(prefix, dir);
  }

  lemma PutIntoBoth(before: map<string, Body>, markers: map<string, Body>, key: string)
    ensures (before + markers)[key := ""] == before + markers[key := ""]
  {
  }

  // ----- The backend -----

  datatype Outcome = Unchanged | Moved(count: nat) | IntoDescendant | DestinationExists | NotFound

  /**
   * Past the guards, `_move_prefix` has nothing it will take, or a movable tree, unless the destination
   * lands in the source.
   */
  lemma GuardsPassed(objects: map<string, Body>, prefix: string, srcV: string, destV: string)
    requires StartsWith(srcV, "/") && StartsWith(destV, "/")
    requires !StartsWith(destV, RStrip(srcV, '/') + "/")
    requires Under(objects, PrefixKey(prefix, destV)) == {}
    ensures SourceKeys(objects, prefix, srcV) == {} || AtOrUnder(Landing(destV), DirRoot(srcV)) ||
            Movable(objects, prefix, srcV, destV)
    ensures SourceKeys(objects, prefix, srcV) == {} ==>
              Under(objects, PrefixKey(prefix, srcV)) == {} || StartsWith(DirRoot(srcV), "//")
  {
    RStripSpec(srcV, '/');
    var r := RStrip(srcV, '/');
    assert r + "/" <= destV || r != "";
    if !Rooted(srcV) {
      assert srcV[0] == srcV[1] == '/';
      assert |r| >= 2 && r[..2] == srcV[..2];
      UnrootedSource(objects, prefix, srcV, destV);
    } else {
      SourceKeysAreUnder(objects, prefix, srcV);
    }
  }

  lemma SourceKeysAreUnder(objects: map<string, Body>, prefix: string, src: string)
    requires Rooted(Virtual(src)) && DirRoot(src) != ""
    ensures SourceKeys(objects, prefix, src) == Under(objects, PrefixKey(prefix, src))
  {
    forall k | k in Under(objects, PrefixKey(prefix, src))
      ensures Relative(VirtualPath(prefix, k), DirRoot(src)).Some?
    {
      SourcePath(prefix, src, k);
      RelativeTail(src, k[|PrefixKey(prefix, src)|..]);
    }
  }

  /** The root holds every object, so a move to it is refused before an empty key could be written. */
  lemma RootIsOccupied(objects: map<string, Body>, prefix: string, srcV: string, destV: string)
    requires StartsWith(destV, "/") && Key(prefix, srcV) in objects
    requires Under(objects, PrefixKey(prefix, destV)) == {}
    ensures Key(prefix, destV) != ""
  {
    assert Key(prefix, srcV) !in Under(objects, PrefixKey(prefix, destV));
    if Key(prefix, destV) == "" {
      LStripSpec(destV, '/');
      RStripSpec(destV, '/');
    }
  }

  /** The outcome of `move_path` on a given store, in the order of the guards. */
  ghost function MoveOutcome(objects: map<string, Body>, prefix: string, src: string, dest: string): Outcome {
    var srcV, destV := Virtual(src), Virtual(dest);
    if srcV == destV then Unchanged
    else if StartsWith(destV, RStrip(srcV, '/') + "/") then IntoDescendant
    else if Key(prefix, destV) in objects || Under(objects, PrefixKey(prefix, destV)) != {} then DestinationExists
    else if Key(prefix, srcV) in objects then Moved(1)
    else if SourceKeys(objects, prefix, srcV) == {} then NotFound
    else Moved(|SourceKeys(objects, prefix, srcV)|)
  }

  /**
   * `move_path` would move a tree to a place inside that very tree: its guards compare the paths as they are
   * written.
   */
  ghost predicate Reenters(objects: map<string, Body>, prefix: string, src: string, dest: string) {
    && MoveOutcome(objects, prefix, src, dest).Moved? && Key(prefix, Virtual(src)) !in objects
    && AtOrUnder(Landing(dest), DirRoot(src))
  }

  /** A destination with one leading slash never gets there. */
  lemma RootedNeverReenters(objects: map<string, Body>, prefix: string, src: string, dest: string)
    requires Rooted(Virtual(dest))
    ensures !Reenters(objects, prefix, src, dest)
  {
    var srcV, destV := Virtual(src), Virtual(dest);
    LandingForm(dest);
    RStripSpec(destV, '/');
    assert DirRoot(dest) == DirRoot(src) ==> PrefixKey(prefix, destV) == PrefixKey(prefix, srcV);
  }

  /** The store `move_path` leaves behind. */
  ghost function MoveResult(objects: map<string, Body>, prefix: string, src: string, dest: string): map<string, Body> {
    var srcKey, destKey := Key(prefix, Virtual(src)), Key(prefix, Virtual(dest));
    if !MoveOutcome(objects, prefix, src, dest).Moved? then objects
    else if srcKey in objects then objects[destKey := objects[srcKey]] - {srcKey}
    else Relabelled(objects, MoveMap(objects, prefix, Virtual(src), Virtual(dest)))
  }

  class CloudStorageBackend {
    const prefix: string
    const store: Store

    constructor (prefix: string, store: Store)
      ensures this.prefix == prefix && this.store == store
    {
      this.prefix, this.store := prefix, store;
    }

    /** `_prefix_has_objects`: a list request for one key returns something. */
    method PrefixHasObjects(path: string) returns (found: bool)
      requires store.Valid()
      ensures found <==> Under(store.objects, PrefixKey(prefix, path)) != {}
    {
      var pk := PrefixKey(prefix, path);
      var resp := store.ListPage(pk, "");
      found := resp.keys != [];
      assert Under(store.objects, pk) == After(store.objects, pk, "");
      if found {
        assert resp.keys[0] in resp.keys;
      }
    }

    /** `delete_prefix`: each key is deleted as the pager yields it. */
    method DeletePrefix(path: string) returns (deleted: nat)
      requires store.Valid()
      modifies store
      ensures store.Valid()
      ensures store.objects == old(store.objects) - Under(old(store.objects), PrefixKey(prefix, path))
      ensures deleted == |Under(old(store.objects), PrefixKey(prefix, path))|
    {
      var pager := new KeyPager(store, PrefixKey(prefix, path));
      deleted := DeleteKeys(pager);
    }

    /** The loop of `delete_prefix` over its generator. */
    method DeleteKeys(pager: KeyPager) returns (deleted: nat)
      requires pager.Valid() && pager.store == store
      modifies store, pager
      ensures store.Valid()
      ensures store.objects == old(store.objects) - old(pager.Pending(store.objects))
      ensures deleted == |old(pager.Pending(store.objects))|
    {
      ghost var left, gone: set<string> := pager.Pending(store.objects), {};
      deleted := 0;
      while true
        invariant pager.Valid() && left == pager.Pending(store.objects)
        invariant gone !! left && gone + left == old(pager.Pending(store.objects))
        invariant store.objects == old(store.objects) - gone && deleted == |gone|
        decreases left
      {
        ghost var objects := store.objects;
        var key := pager.Next();
        if key.None? {
          break;
        }
        pager.PendingAfterDelete(objects, key.value);
        MoveAcross(store.objects, old(store.objects), old(pager.Pending(store.objects)), left, gone, key.value);
        left, gone := left - {key.value}, gone + {key.value};
        store.Delete(key.value);
        deleted := deleted + 1;
      }
    }

    /** `delete_path`: the object itself if there is one, otherwise everything under the path. */
    method DeletePath(path: string) returns (found: bool)
      requires store.Valid()
      modifies store
      ensures store.Valid()
      ensures var objects, key := old(store.objects), Key(prefix, Virtual(path));
              var under := Under(objects, PrefixKey(prefix, Virtual(path)));
              && store.objects == objects - (if key in objects then {key} else under)
              && (found <==> key in objects || under != {})
    {
      var virtual := Virtual(path);
      if Key(prefix, virtual) in store.objects {
        store.Delete(Key(prefix, virtual));
        return true;
      }
      var deleted := DeletePrefix(virtual);
      found := deleted != 0;
    }

    /**
     * `mkdir_path`: a marker for every level from the top, until a file is in the way.
     * `made` levels have their marker afterwards, and no other object has changed.
     */
    method MkdirPath(path: string) returns (ok: bool, made: nat)
      requires store.Valid()
      modifies store
      ensures store.Valid()
      ensures var parts, before := PartsOf(path), old(store.objects);
              && made <= |parts|
              && store.objects == before + Markers(prefix, parts, made)
              && Clear(before, prefix, parts, made)
              && (ok ==> made == |parts|)
              && (!ok ==> made < |parts| && Key(prefix, Level(parts, made + 1)) in before)
    {
      var parts := PartsOf(path);
      PartsAreNames(path);
      ok, made := MakeLevels(parts);
    }

    /** The loop of `mkdir_path` over the parts of its path. */
    method MakeLevels(parts: seq<string>) returns (ok: bool, made: nat)
      requires store.Valid() && PathNames(parts)
      modifies store
      ensures store.Valid() && made <= |parts|
      ensures store.objects == old(store.objects) + Markers(prefix, parts, made)
      ensures Clear(old(store.objects), prefix, parts, made)
      ensures ok ==> made == |parts|
      ensures !ok ==> made < |parts| && Key(prefix, Level(parts, made + 1)) in old(store.objects)
    {
      made := 0;
      while made < |parts|
        invariant made <= |parts| && store.Valid()
        invariant store.objects == old(store.objects) + Markers(prefix, parts, made)
        invariant Clear(old(store.objects), prefix, parts, made)
      {
        var current := Level(parts, made + 1);
        LevelCanonical(parts, made + 1);
        MarkersHoldNoFile(prefix, parts, made, current);
        MarkerIsNoFile(prefix, current, current);
        if Key(prefix, current) in store.objects {
          return false, made;
        }
        PutIntoBoth(old(store.objects), Markers(prefix, parts, made), PrefixKey(prefix, current));
        store.Put(PrefixKey(prefix, current), "");
        made := made + 1;
      }
      ok := true;
    }

    /** `move_path`, unless it would move a tree into itself. */
    method MovePath(src: string, dest: string) returns (r: Outcome)
      requires store.Valid() && !Reenters(store.objects, prefix, src, dest)
      modifies store
      ensures store.Valid()
      ensures r == MoveOutcome(old(store.objects), prefix, src, dest)
      ensures store.objects == MoveResult(old(store.objects), prefix, src, dest)
    {
      var srcV, destV := Virtual(src), Virtual(dest);
      if srcV == destV {
        return Unchanged;
      }
      if StartsWith(destV, RStrip(srcV, '/') + "/") {
        return IntoDescendant;
      }
      var occupied := PrefixHasObjects(destV);
      if Key(prefix, destV) in store.objects || occupied {
        return DestinationExists;
      }
      if Key(prefix, srcV) in store.objects {
        RootIsOccupied(store.objects, prefix, srcV, destV);
        store.Copy(Key(prefix, srcV), Key(prefix, destV));
        store.Delete(Key(prefix, srcV));
        return Moved(1);
      }
      GuardsPassed(store.objects, prefix, srcV, destV);
      var moved := MovePrefix(srcV, destV);
      r := if moved == 0 then NotFound else Moved(moved);
    }

    /** `_move_prefix`: copy each key to its place under `dest` and delete it, as the pager yields it. */
    method MovePrefix(src: string, dest: string) returns (moved: nat)
      requires store.Valid()
      requires Under(store.objects, PrefixKey(prefix, src)) == {} || StartsWith(DirRoot(src), "//") ||
               Movable(store.objects, prefix, src, dest)
      modifies store
      ensures store.Valid()
      ensures store.objects == Relabelled(old(store.objects), MoveMap(old(store.objects), prefix, src, dest))
      ensures moved == |SourceKeys(old(store.objects), prefix, src)|
    {
      ghost var target := MoveMap(store.objects, prefix, src, dest);
      if StartsWith(DirRoot(src), "//") {
        UnrootedSource(store.objects, prefix, src, dest);
      } else if Under(store.objects, PrefixKey(prefix, src)) != {} {
        TargetsOfTree(store.objects, prefix, src, dest);
      }
      assert target.Keys == SourceKeys(store.objects, prefix, src);
      var pager := new KeyPager(store, PrefixKey(prefix, src));
      moved := MoveKeys(pager, src, dest, target);
    }

    /** The loop of `_move_prefix` over its generator. */
    method MoveKeys(pager: KeyPager, src: string, dest: string, ghost target: map<string, string>) returns (moved: nat)
      requires pager.Valid() && pager.store == store
      requires LeavesPrefix(target, pager.prefixKey)
      requires target.Keys <= store.objects.Keys && target.Keys <= pager.Pending(store.objects)
      requires forall k :: k in pager.Pending(store.objects) ==> Follows(prefix, src, dest, target, k)
      modifies store, pager
      ensures store.Valid()
      ensures store.objects == Relabelled(old(store.objects), target)
      ensures moved == |target|
    {
      ghost var before, left := store.objects, pager.Pending(store.objects);
      NothingMoved(before, target, left);
      moved := 0;
      while true
        invariant pager.Valid() && left == pager.Pending(store.objects) && left <= old(pager.Pending(store.objects))
        invariant store.objects == Relabelled(before, target - left)
        invariant moved == |target - left|
        decreases left
      {
        var key, took := MoveNext(pager, src, dest, target, before, left);
        if key.None? {
          NothingLeft(target, left);
          break;
        }
        left := left - {key.value};
        if took {
          moved := moved + 1;
        }
      }
    }

    /** Pulls the next key and does one round of the loop with it. */
    method MoveNext(pager: KeyPager, src: string, dest: string, ghost target: map<string, string>,
                    ghost before: map<string, Body>, ghost left: set<string>)
      returns (key: Option<string>, took: bool)
      requires pager.Valid() && pager.store == store && left == pager.Pending(store.objects)
      requires target.Keys <= before.Keys && LeavesPrefix(target, pager.prefixKey)
      requires forall k :: k in left ==> Follows(prefix, src, dest, target, k)
      requires store.objects == Relabelled(before, target - left)
      modifies store, pager
      ensures pager.Valid()
      ensures key.None? ==> left == {} && !took && store.objects == old(store.objects)
      ensures key.Some? ==>
                && key.value in left && pager.Pending(store.objects) == left - {key.value}
                && store.objects == Relabelled(before, target - (left - {key.value}))
                && |target - (left - {key.value})| == |target - left| + (if took then 1 else 0)
    {
      ghost var objects := store.objects;
      took := false;
      key := pager.Next();
      if key.Some? {
        Advance(pager, objects, before, target, left, key.value);
        took := MoveKey(key.value, src, dest, target);
      }
    }

    /** One round of that loop: skip the key, or copy it and delete it. */
    method MoveKey(key: string, src: string, dest: string, ghost target: map<string, string>) returns (took: bool)
      requires store.Valid() && Follows(prefix, src, dest, target, key)
      requires key in target ==> key in store.objects && target[key] != ""
      modifies store
      ensures store.Valid() && took == (key in target)
      ensures store.objects == Round(old(store.objects), target, key)
    {
      var virtualSrc := VirtualPath(prefix, key);
      var rel := Relative(virtualSrc, DirRoot(src));
      if rel.None? {
        return false;
      }
      var destVirtual := if rel.value != "" then DirRoot(dest) + "/" + rel.value else DirRoot(dest);
      store.Copy(Key(prefix, virtualSrc), Key(prefix, destVirtual));
      store.Delete(Key(prefix, virtualSrc));
      took := true;
    }
  }

  /** What one round of the loop makes of the store. */
  ghost function Round(objects: map<string, Body>, target: map<string, string>, key: string): map<string, Body>
    requires key in target ==> key in objects
  {
    if key in target then objects[target[key] := objects[key]] - {key} else objects
  }

  /** The plan agrees with the code on this key, and the code's copy and delete name this very key. */
  ghost predicate Follows(prefix: string, src: string, dest: string, target: map<string, string>, key: string) {
    && MovedKey(prefix, src, dest, key) == (if key in target then Some(target[key]) else None)
    && (key in target ==> Key(prefix, VirtualPath(prefix, key)) == key)
  }

  /** One round keeps the pager's view and extends the relabelling. */
  lemma Advance(pager: KeyPager, objects: map<string, Body>, before: map<string, Body>, target: map<string, string>,
                left: set<string>, key: string)
    requires target.Keys <= before.Keys && LeavesPrefix(target, pager.prefixKey)
    requires objects == Relabelled(before, target - left)
    requires key in left && pager.Pending(objects) == left - {key}
    ensures key in target ==> key in objects && target[key] != ""
    ensures pager.Pending(Round(objects, target, key)) == left - {key}
    ensures Round(objects, target, key) == Relabelled(before, target - (left - {key}))
    ensures |target - (left - {key})| == |target - left| + (if key in target then 1 else 0)
  {
    if key in target {
      MoveAlong(before, target, pager.prefixKey, left, key);
      pager.PendingAfterPut(objects, target[key], objects[key]);
      pager.PendingAfterDelete(objects[target[key] := objects[key]], key);
    } else {
      SkipAlong(target, left, key);
    }
  }
}
