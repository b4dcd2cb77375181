/**
 * Virtual paths and storage keys of a cloud backend.
 *
 * A backend stores the file at virtual path `/foo/bar` under the key
 * `<prefix>/foo/bar`; a directory is a key prefix ending in a slash.
 */
module StorageKeys {
  import opened Strings

  /** `_key`: virtual path to storage key. */
  function Key(prefix: string, path: string): string {
    var clean := LStrip(path, '/');
    if prefix != "" then
      if clean != "" then prefix + "/" + clean else prefix + "/"
    else clean
  }

  /** `_virtual_path`: storage key to virtual path. */
  function VirtualPath(prefix: string, key: string): string {
    if prefix != "" && StartsWith(key, prefix + "/") then
      "/" + LStrip(key[|prefix| + 1..], '/')
    else if prefix != "" && key == prefix then "/"
    else "/" + LStrip(key, '/')
  }

  /** `_virtual`: anchor a path at the root. */
  function Virtual(path: string): string {
    if StartsWith(path, "/") then path else "/" + path
  }

  /** The path with its trailing slashes removed; the root becomes "". */
  function DirRoot(path: string): string {
    RStrip(Virtual(path), '/')
  }

  /** `_prefix_key`: the key prefix shared by everything under a directory. */
  function PrefixKey(prefix: string, path: string): string {
    var pk := Key(prefix, DirRoot(path));
    if pk != "" && !EndsWith(pk, '/') then pk + "/" else pk
  }

  /** `anchor_at_backend_root`: `~` paths pass through, fragments are anchored at `/`. */
  function Anchor(entry: string): string {
    if StartsWith(entry, "~") || StartsWith(entry, "/") then entry
    else if StartsWith(entry, "./") then "/" + entry[2..]
    else "/" + entry
  }

  /** `relative_virtual_path`: `child` relative to the directory `dir`, if it is there. */
  function Relative(child: string, dir: string): Option<string> {
    var childV := Anchor(child);
    var dirV := RStrip(Anchor(dir), '/');
    var needle := dirV + "/";
    if childV == dirV then Some("")
    else if StartsWith(childV, needle) then Some(childV[|needle|..])
    else None
  }

  /** A path with exactly one leading slash. */
  predicate Rooted(path: string) {
    StartsWith(path, "/") && !StartsWith(path, "//")
  }

  /** A rooted path other than the root, without a trailing slash. */
  predicate Canonical(path: string) {
    Rooted(path) && !EndsWith(path, '/')
  }

  /** A key this backend could have produced: under the prefix, no stray slash after it. */
  predicate WellFormed(prefix: string, key: string) {
    if prefix == "" then !StartsWith(key, "/")
    else StartsWith(key, prefix + "/") && !StartsWith(key[|prefix| + 1..], "/")
  }

  // ----- Characterisations used by every proof below -----

  /** The leading part of every key of this backend. */
  function Base(prefix: string): string {
    if prefix == "" then "" else prefix + "/"
  }

  lemma LStripPlain(s: string, t: string)
    requires t != "" ==> t[0] != '/'
    requires s == "/" + t || s == t
    ensures LStrip(s, '/') == t
  {
    if s == "/" + t && t != s {
      assert s[1..] == t;
    }
  }

  lemma KeyForm(prefix: string, path: string)
    ensures Key(prefix, path) == Base(prefix) + LStrip(path, '/')
  {
  }

  lemma VirtualPathForm(prefix: string, t: string)
    requires t != "" ==> t[0] != '/'
    ensures VirtualPath(prefix, Base(prefix) + t) == "/" + t
  {
    var key := Base(prefix) + t;
    if prefix != "" {
      assert key[|prefix| + 1..] == t;
    }
    LStripPlain(t, t);
  }

  lemma WellFormedForm(prefix: string, key: string)
    ensures WellFormed(prefix, key) <==>
            StartsWith(key, Base(prefix)) && !StartsWith(key[|Base(prefix)|..], "/")
  {
  }

  // ----- Round trips -----

  /** `_virtual_path(_key(p)) == p` exactly for the paths with one leading slash. */
  lemma PathRoundTrip(prefix: string, path: string)
    ensures VirtualPath(prefix, Key(prefix, path)) == path <==> Rooted(path)
  {
    var t := LStrip(path, '/');
    LStripSpec(path, '/');
    KeyForm(prefix, path);
    VirtualPathForm(prefix, t);
    if Rooted(path) {
      assert path == "/" + path[1..];
      LStripPlain(path, path[1..]);
    }
  }

  /** Every virtual path has exactly one leading slash. */
  lemma VirtualPathRooted(prefix: string, key: string)
    ensures Rooted(VirtualPath(prefix, key))
  {
    LStripSpec(key, '/');
    if prefix != "" && StartsWith(key, prefix + "/") {
      LStripSpec(key[|prefix| + 1..], '/');
    }
    var v := VirtualPath(prefix, key);
    assert |v| > 1 ==> v[1] != '/';
  }

  /** `_key(_virtual_path(k)) == k` exactly for the well-formed keys. */
  lemma KeyRoundTrip(prefix: string, key: string)
    ensures Key(prefix, VirtualPath(prefix, key)) == key <==> WellFormed(prefix, key)
  {
    var v := VirtualPath(prefix, key);
    var t := v[1..];
    VirtualPathRooted(prefix, key);
    assert v == "/" + t;
    LStripPlain(v, t);
    KeyForm(prefix, v);
    WellFormedForm(prefix, key);
    if WellFormed(prefix, key) {
      var rest := key[|Base(prefix)|..];
      assert key == Base(prefix) + rest;
      VirtualPathForm(prefix, rest);
    }
    if Key(prefix, v) == key {
      assert key == Base(prefix) + t && (t != "" ==> t[0] != '/');
      assert key[|Base(prefix)|..] == t;
    }
  }

  // ----- Directories as key prefixes -----

  lemma DirRootForm(path: string)
    requires Rooted(Virtual(path))
    ensures DirRoot(path) == "" || Canonical(DirRoot(path))
    ensures Canonical(path) ==> DirRoot(path) == path
  {
    var v := Virtual(path);
    var r := RStrip(v, '/');
    RStripSpec(v, '/');
    if r != "" {
      assert r[0] == '/';
      assert |r| >= 2 ==> r[1] == v[1];
    }
  }

  /** The key of a canonical path is the path itself, unrooted, behind the backend prefix. */
  lemma CanonicalKey(prefix: string, path: string)
    requires Canonical(path)
    ensures Key(prefix, path) == Base(prefix) + path[1..]
  {
    assert path == "/" + path[1..];
    LStripPlain(path, path[1..]);
    KeyForm(prefix, path);
  }

  lemma EndsWithTail(base: string, t: string)
    requires t != ""
    ensures EndsWith(base + t, '/') == EndsWith(t, '/')
  {
  }

  /** The directory part of a key prefix: "" for the root, otherwise the unrooted path and a slash. */
  function DirTail(root: string): string {
    if root == "" then "" else root[1..] + "/"
  }

  /** `_prefix_key(d)` of a rooted directory is its own path, unrooted, with one slash behind it. */
  lemma PrefixKeyForm(prefix: string, path: string)
    requires Rooted(Virtual(path))
    ensures PrefixKey(prefix, path) == Base(prefix) + DirTail(DirRoot(path))
  {
    DirRootForm(path);
    SlashedKey(prefix, DirRoot(path));
  }

  lemma SlashedKey(prefix: string, r: string)
    requires r == "" || Canonical(r)
    ensures var pk := Key(prefix, r);
            (if pk != "" && !EndsWith(pk, '/') then pk + "/" else pk) == Base(prefix) + DirTail(r)
  {
    if r == "" {
      KeyForm(prefix, r);
    } else {
      CanonicalKey(prefix, r);
      var t := r[1..];
      EndsWithTail(Base(prefix), t);
      assert !EndsWith(t, '/');
      assert Base(prefix) + t + "/" == Base(prefix) + (t + "/");
    }
  }

  // ----- Directories with several leading slashes -----

  /** The directory whose keys a path means: any number of leading slashes counts as one. The root is "". */
  function Landing(path: string): string {
    var t := LStrip(DirRoot(path), '/');
    if t == "" then "" else "/" + t
  }

  lemma {:induction false} LStripAppend(s: string, t: string, c: char)
    requires LStrip(s, c) != ""
    ensures LStrip(s + t, c) == LStrip(s, c) + t
  {
    if s[0] != c {
    } else {
      assert (s + t)[1..] == s[1..] + t;
      LStripAppend(s[1..], t, c);
    }
  }

  /** A landing directory is canonical, and it is the directory itself when that has one leading slash. */
  lemma LandingForm(path: string)
    ensures Landing(path) == "" || Canonical(Landing(path))
    ensures Rooted(Virtual(path)) ==> Landing(path) == DirRoot(path)
    ensures Landing(path) == "" <==> DirRoot(path) == ""
  {
    var d := DirRoot(path);
    RStripSpec(Virtual(path), '/');
    LStripSpec(d, '/');
    var t := LStrip(d, '/');
    if t != "" {
      assert t[|t| - 1] == d[|d| - 1];
      assert ("/" + t)[1] == t[0];
    }
    if Rooted(Virtual(path)) {
      DirRootForm(path);
      if d != "" {
        assert d == "/" + d[1..];
        LStripPlain(d, d[1..]);
      }
    }
  }

  /** Keys see only where a directory lands. */
  lemma LandingKeys(prefix: string, path: string)
    requires Landing(path) != ""
    ensures PrefixKey(prefix, path) == PrefixKey(prefix, Landing(path)) == Base(prefix) + DirTail(Landing(path))
    ensures Key(prefix, DirRoot(path)) == Key(prefix, Landing(path))
    ensures Key(prefix, DirRoot(path)) + "/" == PrefixKey(prefix, path)
  {
    var l := Landing(path);
    LandingForm(path);
    DirRootForm(l);
    KeyForm(prefix, DirRoot(path));
    CanonicalKey(prefix, l);
    SlashedKey(prefix, l);
    assert Base(prefix) + l[1..] + "/" == Base(prefix) + (l[1..] + "/");
  }

  lemma LandingJoined(prefix: string, path: string, rel: string)
    requires Landing(path) != ""
    ensures Key(prefix, DirRoot(path) + "/" + rel) == PrefixKey(prefix, path) + rel
  {
    LandingKeys(prefix, path);
    LStripAppend(DirRoot(path), "/" + rel, '/');
    assert DirRoot(path) + "/" + rel == DirRoot(path) + ("/" + rel);
    KeyForm(prefix, DirRoot(path) + "/" + rel);
    var t := LStrip(DirRoot(path), '/');
    Regroup(Base(prefix), t, "/", rel);
    assert DirTail(Landing(path)) == t + "/";
  }

  lemma Regroup(a: string, b: string, c: string, d: string)
    ensures a + (b + (c + d)) == a + (b + c) + d
  {
  }

  lemma AnchorRooted(s: string)
    requires StartsWith(s, "/")
    ensures Anchor(s) == s
  {
  }

  /** A well-formed key lies under a directory's key prefix exactly when its virtual path lies strictly under it. */
  lemma UnderDirectory(prefix: string, dir: string, key: string)
    requires Rooted(Virtual(dir)) && WellFormed(prefix, key)
    ensures StartsWith(key, PrefixKey(prefix, dir)) <==>
            Relative(VirtualPath(prefix, key), DirRoot(dir)).Some? && VirtualPath(prefix, key) != DirRoot(dir)
  {
    WellFormedForm(prefix, key);
    var t := key[|Base(prefix)|..];
    assert key == Base(prefix) + t;
    VirtualPathForm(prefix, t);
    PrefixKeyForm(prefix, dir);
    DirRootForm(dir);
    UnderRoot(Base(prefix), t, DirRoot(dir));
  }

  lemma UnderRoot(base: string, t: string, r: string)
    requires r == "" || Canonical(r)
    ensures StartsWith(base + t, base + DirTail(r)) <==>
            Relative("/" + t, r).Some? && "/" + t != r
  {
    RelativeToRoot(r, "/" + t);
    SamePrefix(base, t, DirTail(r));
    if r == "" {
      assert r + "/" == "/";
      assert StartsWith("/" + t, "/");
    } else {
      assert "/" + DirTail(r) == r + "/";
      SamePrefix("/", t, DirTail(r));
    }
  }

  lemma SamePrefix(base: string, t: string, u: string)
    ensures StartsWith(base + t, base + u) <==> StartsWith(t, u)
  {
    if StartsWith(t, u) {
      assert base + t == (base + u) + t[|u|..];
    }
    if StartsWith(base + t, base + u) {
      assert |u| <= |t|;
      assert t[..|u|] == (base + t)[|base|..|base| + |u|] == (base + u)[|base|..] == u;
    }
  }

  /** `relative_virtual_path` against a directory root with its trailing slashes gone. */
  lemma RelativeToRoot(r: string, v: string)
    requires r == "" || Canonical(r)
    requires StartsWith(v, "/")
    ensures Relative(v, r) ==
            if v == r then Some("")
            else if StartsWith(v, r + "/") then Some(v[|r| + 1..])
            else None
  {
    AnchorRooted(v);
    if r != "" {
      AnchorRooted(r);
      assert RStrip(r, '/') == r;
    } else {
      assert Anchor(r) == "/";
      assert RStrip("/", '/') == RStrip("", '/') == "";
    }
  }

  /** The path `a` is the path `b` or lies under it. */
  predicate AtOrUnder(a: string, b: string) {
    a == b || StartsWith(a, b + "/")
  }

  /** Two canonical directories share a key prefix only when one contains the other. */
  lemma SubtreesDisjoint(prefix: string, a: string, b: string, key: string)
    requires Canonical(a) && Canonical(b)
    requires StartsWith(key, PrefixKey(prefix, a)) && StartsWith(key, PrefixKey(prefix, b))
    ensures AtOrUnder(a, b) || AtOrUnder(b, a)
  {
    TailUnder(prefix, a, key);
    TailUnder(prefix, b, key);
    TailsNest(a, b, key[|Base(prefix)|..]);
  }

  lemma TailUnder(prefix: string, dir: string, key: string)
    requires Canonical(dir) && StartsWith(key, PrefixKey(prefix, dir))
    ensures |Base(prefix)| <= |key| && StartsWith(key[|Base(prefix)|..], DirTail(dir))
  {
    DirRootForm(dir);
    PrefixKeyForm(prefix, dir);
    var base := Base(prefix);
    assert base + DirTail(dir) <= key;
    SamePrefix(base, key[|base|..], DirTail(dir));
  }

  lemma TailsNest(a: string, b: string, t: string)
    requires Canonical(a) && Canonical(b)
    requires StartsWith(t, DirTail(a)) && StartsWith(t, DirTail(b))
    ensures AtOrUnder(a, b) || AtOrUnder(b, a)
  {
    assert "/" + DirTail(a) == a + "/" && "/" + DirTail(b) == b + "/";
    SamePrefix("/", t, DirTail(a)); SamePrefix("/", t, DirTail(b));
    var v := "/" + t;
    assert a + "/" == v[..|a| + 1] && b + "/" == v[..|b| + 1];
    if |a| == |b| {
      assert a == v[..|a|] == v[..|b|] == b;
    } else if |a| < |b| {
      assert b == v[..|b|];
      assert b[..|a| + 1] == v[..|a| + 1];
    } else {
      assert a == v[..|a|];
      assert a[..|b| + 1] == v[..|b| + 1];
    }
  }

  /** The converse: a directory inside another one has all its keys inside it too. */
  lemma NestedSubtrees(prefix: string, a: string, b: string, key: string)
    requires Canonical(a) && Canonical(b) && AtOrUnder(a, b)
    requires StartsWith(key, PrefixKey(prefix, a))
    ensures StartsWith(key, PrefixKey(prefix, b))
  {
    DirRootForm(a); DirRootForm(b);
    PrefixKeyForm(prefix, a); PrefixKeyForm(prefix, b);
    TailsOrdered(a, b);
    SamePrefix(Base(prefix), DirTail(a), DirTail(b));
  }

  lemma TailsOrdered(a: string, b: string)
    requires Canonical(a) && Canonical(b) && AtOrUnder(a, b)
    ensures DirTail(b) <= DirTail(a)
  {
    if a != b {
      assert DirTail(b) == (b + "/")[1..] == a[1..|b| + 1];
      assert DirTail(b) <= a[1..];
    }
  }
}
