/**
 * Moving a tree to a place inside itself. The guard of `move_path` against it compares the paths as they are
 * written, so a second leading slash on the destination gets past it.
 */
module MoveIntoItself {
  import opened Strings
  import opened StorageKeys
  import opened ObjectStore
  import opened TreeOperations

  lemma DoubledSlashLands(prefix: string, dir: string)
    requires Canonical(dir)
    ensures Virtual("/" + dir) == DirRoot("/" + dir) == "/" + dir
    ensures Landing("/" + dir) == dir && Key(prefix, "/" + dir) == Key(prefix, dir)
    ensures PrefixKey(prefix, "/" + dir) == PrefixKey(prefix, dir)
  {
    var dest := "/" + dir;
    assert dir == "/" + dir[1..] && dest[1..] == dir;
    LStripPlain(dir, dir[1..]);
    assert LStrip(dest, '/') == LStrip(dir, '/') == dir[1..];
    assert RStrip(dest, '/') == dest;
    LandingKeys(prefix, dest);
    KeyForm(prefix, dir); KeyForm(prefix, dest);
  }

  /** With a second leading slash, a move into the own tree is let through on every store in which the place is free. */
  lemma DoubledSlashReenters(objects: map<string, Body>, prefix: string, src: string, dir: string)
    requires Canonical(src) && Canonical(dir) && AtOrUnder(dir, src)
    ensures Reenters(objects, prefix, src, "/" + dir) <==>
            && Key(prefix, dir) !in objects && Under(objects, PrefixKey(prefix, dir)) == {}
            && Key(prefix, src) !in objects && Under(objects, PrefixKey(prefix, src)) != {}
  {
    var dest := "/" + dir;
    DoubledSlashLands(prefix, dir);
    DirRootForm(src);
    SourceKeysAreUnder(objects, prefix, src);
    assert dest[1] == '/' && (src + "/")[1] == src[1] != '/';
    assert RStrip(src, '/') == src;
  }

  // ----- Such a move need not end -----

  const SRC := "/a"
  const DEST := "//a/b"

  /** What one round of the loop of `_move_prefix` does with a key, and the next page it then asks for. */
  ghost predicate Rounds(objects: map<string, Body>, resume: string, key: string, after: map<string, Body>) {
    && key in objects && Key("", VirtualPath("", key)) == key
    && MovedKey("", SRC, DEST, key).Some?
    && after == objects[MovedKey("", SRC, DEST, key).value := objects[key]] - {key}
    && PagesOf(objects, resume, key)
  }

  /** Every page of one key that the service may answer with holds this key, and says that there are more. */
  ghost predicate PagesOf(objects: map<string, Body>, resume: string, key: string) {
    forall page, truncated :: IsPage(objects, "a/", resume, page, truncated) && |page| <= 1 ==>
        page == [key] && truncated
  }

  /** `depth` copies of the moved directory's name. */
  function Deeper(depth: nat): string {
    if depth == 0 then "" else "b/" + Deeper(depth - 1)
  }

  function Nth(depth: nat, name: char): string {
    "a/" + Deeper(depth) + [name]
  }

  /** The store after `n` rounds, and the key at which the listing resumes. */
  function StoreAfter(n: nat, x: Body, y: Body): map<string, Body> {
    if n % 2 == 0 then map[Nth(n / 2, '0') := x, Nth(n / 2, '1') := y]
    else map[Nth(n / 2 + 1, '0') := x, Nth(n / 2, '1') := y]
  }

  function ResumeAfter(n: nat): string {
    if n == 0 then "" else if n % 2 == 1 then Nth(n / 2, '0') else Nth(n / 2 - 1, '1')
  }

  lemma {:induction false} LessAfterPrefix(p: string, a: string, b: string)
    requires Less(a, b)
    ensures Less(p + a, p + b)
  {
    if p == "" {
      assert p + a == a && p + b == b;
    } else {
      assert (p + a)[1..] == p[1..] + a && (p + b)[1..] == p[1..] + b;
      LessAfterPrefix(p[1..], a, b);
    }
  }

  lemma {:induction false} DeeperEnd(depth: nat)
    ensures Deeper(depth + 1) == Deeper(depth) + "b/"
  {
    if depth == 0 {
    } else {
      DeeperEnd(depth - 1);
    }
  }

  /** How the keys of the run compare. */
  lemma NthOrder(depth: nat)
    ensures Less(Nth(depth, '0'), Nth(depth, '1'))
    ensures Less(Nth(depth, '0'), Nth(depth + 1, '0')) && Less(Nth(depth, '1'), Nth(depth + 1, '0'))
    ensures "" != Nth(depth, '0') && StartsWith(Nth(depth, '0'), "a/") && StartsWith(Nth(depth, '1'), "a/")
  {
    var p := "a/" + Deeper(depth);
    DeeperEnd(depth);
    assert Nth(depth + 1, '0') == p + ("b/" + ['0']);
    LessAfterPrefix(p, ['0'], ['1']);
    LessAfterPrefix(p, ['0'], "b/" + ['0']);
    LessAfterPrefix(p, ['1'], "b/" + ['0']);
  }

  lemma RootForms()
    ensures Canonical("/a") && Canonical("/a/b") && AtOrUnder("/a/b", "/a")
    ensures Virtual(SRC) == SRC == DirRoot(SRC) == "/a" && Landing(DEST) == "/a/b"
    ensures PrefixKey("", SRC) == "a/" && PrefixKey("", DEST) == PrefixKey("", "/a/b") == "a/b/"
    ensures Key("", "/a") == "a" && Key("", "/a/b") == "a/b"
  {
    assert "/a" + "/" == "/a/b"[..3] && "/a"[1] == "/a/b"[1] == 'a';
    DirRootForm("/a"); DirRootForm("/a/b");
    DoubledSlashLands("", "/a/b");
    assert "/" + "/a/b" == DEST;
    PrefixKeyForm("", "/a"); PrefixKeyForm("", "/a/b");
    assert DirTail("/a") == "a/" && DirTail("/a/b") == "a/b/";
    CanonicalKey("", "/a"); CanonicalKey("", "/a/b");
  }

  lemma NthMoves(depth: nat, name: char)
    ensures MovedKey("", SRC, DEST, Nth(depth, name)) == Some(Nth(depth + 1, name))
    ensures Key("", VirtualPath("", Nth(depth, name))) == Nth(depth, name)
  {
    var rel := Deeper(depth) + [name];
    RootForms();
    assert Nth(depth, name) == "a/" + rel;
    assert Nth(depth + 1, name) == "a/b/" + rel;
    MovesByTail("", SRC, DEST, Nth(depth, name), rel);
  }

  lemma MovesByTail(prefix: string, src: string, dest: string, key: string, rel: string)
    requires Rooted(Virtual(src)) && DirRoot(src) != "" && Landing(dest) != ""
    requires rel != "" && key == PrefixKey(prefix, src) + rel
    ensures MovedKey(prefix, src, dest, key) == Some(PrefixKey(prefix, dest) + rel)
    ensures Key(prefix, VirtualPath(prefix, key)) == key
  {
    MovedKeyForm(prefix, src, dest, key);
    assert key[|PrefixKey(prefix, src)|..] == rel;
    SourcePath(prefix, src, key);
    KeyRoundTrip(prefix, key);
  }

  /** With two keys to come, a page of one key holds the lesser one and says that there are more. */
  lemma PageOfOne(objects: map<string, Body>, resume: string, k: string, other: string)
    requires objects.Keys == {k, other} && Less(k, other) && Less(resume, k)
    requires StartsWith(k, "a/") && StartsWith(other, "a/")
    ensures PagesOf(objects, resume, k)
  {
    LessTransitive(resume, k, other);
    LessIrreflexive(k); LessIrreflexive(other);
    assert After(objects, "a/", resume) == {k, other};
    forall page: seq<string>, truncated | IsPage(objects, "a/", resume, page, truncated) && |page| <= 1
      ensures page == [k] && truncated
    {
      OnlyTheLesser(objects, resume, page, truncated, k, other);
    }
  }

  lemma OnlyTheLesser(objects: map<string, Body>, resume: string, page: seq<string>, truncated: bool, k: string,
                      other: string)
    requires After(objects, "a/", resume) == {k, other} && Less(k, other) && k != other
    requires IsPage(objects, "a/", resume, page, truncated) && |page| <= 1
    ensures page == [k] && truncated
  {
    LessIrreflexive(k);
    if Less(other, k) {
      LessTransitive(k, other, k);
    }
    assert k in After(objects, "a/", resume) && other in After(objects, "a/", resume);
    assert |page| == 1 ==> page[0] in page;
  }

  /** A round moves the first of two keys, whatever the second one is, if the copy is not in its way. */
  lemma OneRound(objects: map<string, Body>, resume: string, depth: nat, name: char, other: string)
    requires objects.Keys == {Nth(depth, name), other}
    requires Less(Nth(depth, name), other) && Less(resume, Nth(depth, name)) && StartsWith(other, "a/")
    requires StartsWith(Nth(depth, name), "a/")
    ensures Rounds(objects, resume, Nth(depth, name),
                   objects[Nth(depth + 1, name) := objects[Nth(depth, name)]] - {Nth(depth, name)})
  {
    NthMoves(depth, name);
    PageOfOne(objects, resume, Nth(depth, name), other);
  }

  lemma NthDistinct(depth: nat)
    ensures Nth(depth, '0') != Nth(depth, '1')
    ensures |Nth(depth, '0')| == |Nth(depth, '1')| == |Nth(depth + 1, '0')| - 2 == |Nth(depth + 1, '1')| - 2
  {
    var n := |Nth(depth, '0')|;
    DeeperEnd(depth);
    assert Nth(depth, '0')[n - 1] == '0' && Nth(depth, '1')[n - 1] == '1';
  }

  lemma FirstOfTwo(depth: nat, resume: string, x: Body, y: Body)
    requires Less(resume, Nth(depth, '0'))
    ensures Rounds(map[Nth(depth, '0') := x, Nth(depth, '1') := y], resume, Nth(depth, '0'),
                   map[Nth(depth + 1, '0') := x, Nth(depth, '1') := y])
  {
    var k, other, moved := Nth(depth, '0'), Nth(depth, '1'), Nth(depth + 1, '0');
    NthOrder(depth);
    NthDistinct(depth);
    OneRound(map[k := x, other := y], resume, depth, '0', other);
    Replaced(k, other, moved, x, y);
  }

  lemma SecondOfTwo(depth: nat, x: Body, y: Body)
    ensures Rounds(map[Nth(depth + 1, '0') := x, Nth(depth, '1') := y], Nth(depth, '0'), Nth(depth, '1'),
                   map[Nth(depth + 1, '0') := x, Nth(depth + 1, '1') := y])
  {
    var k, other, moved := Nth(depth, '1'), Nth(depth + 1, '0'), Nth(depth + 1, '1');
    NthOrder(depth); NthOrder(depth + 1);
    NthDistinct(depth); NthDistinct(depth + 1);
    OneRound(map[other := x, k := y], Nth(depth, '0'), depth, '1', other);
    Replaced(k, other, moved, y, x);
    Reordered(other, k, x, y);
    Reordered(other, moved, x, y);
  }

  lemma Reordered(a: string, b: string, x: Body, y: Body)
    requires a != b
    ensures map[a := x, b := y] == map[b := y, a := x]
  {
  }

  lemma Replaced(k: string, other: string, moved: string, x: Body, y: Body)
    requires k != other && k != moved && moved != other
    ensures map[k := x, other := y][moved := x] - {k} == map[moved := x, other := y]
  {
  }

  /** One round of the run, at whatever depth. */
  lemma RunGoesOn(n: nat, x: Body, y: Body)
    ensures Rounds(StoreAfter(n, x, y), ResumeAfter(n), ResumeAfter(n + 1), StoreAfter(n + 1, x, y))
  {
    var d := n / 2;
    if n % 2 == 1 {
      SecondOfTwo(d, x, y);
    } else {
      if d > 0 {
        NthOrder(d - 1);
      }
      FirstOfTwo(d, ResumeAfter(n), x, y);
    }
  }

  /**
   * Moving `/a` with two files to `//a/b` while the service answers one key at a time never ends: the move is let
   * through, and whatever page comes next holds a key the move has just made, with more to come.
   */
  lemma MoveNeedNotEnd(x: Body, y: Body, n: nat)
    ensures Reenters(StoreAfter(0, x, y), "", SRC, DEST) && ResumeAfter(0) == ""
    ensures Rounds(StoreAfter(n, x, y), ResumeAfter(n), ResumeAfter(n + 1), StoreAfter(n + 1, x, y))
  {
    RunGoesOn(n, x, y);
    StartReenters(StoreAfter(0, x, y));
  }

  lemma StartReenters(objects: map<string, Body>)
    requires objects.Keys == {Nth(0, '0'), Nth(0, '1')}
    ensures Reenters(objects, "", SRC, DEST)
  {
    RootForms();
    assert Nth(0, '0') == "a/0" && Nth(0, '1') == "a/1";
    assert "a/0" in Under(objects, "a/");
    assert Under(objects, "a/b/") == {};
    DoubledSlashReenters(objects, "", "/a", "/a/b");
    assert "/" + "/a/b" == DEST;
  }
}
