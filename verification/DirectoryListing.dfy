/** `_finalize_ls_entries`: the entries an object store reports, as one directory level. */
module DirectoryListing {
  import opened Sorting
  import opened Strings

  /** `info` stands for the size, the time and whatever else an entry carries. */
  datatype FileInfo = FileInfo(path: string, isDir: bool, info: int)

  function Listed(path: string): string {
    var r := RStrip(Slashes(path), '/');
    if r == "" then "/" else r
  }

  /** The entry under its normalised path, or None when it is passed over. */
  function Node(listed: string, entry: FileInfo): Option<FileInfo> {
    var raw := Strip(Slashes(entry.path));
    var norm := if RStrip(raw, '/') == "" then "/" else RStrip(raw, '/');
    if raw == "" || raw == "." || raw == "./" || norm == "." || norm == "./" || norm == listed then None
    else Some(FileInfo(norm, entry.isDir || EndsWith(raw, '/'), entry.info))
  }

  /** Where a path stands in the merged entries, or their number. */
  function IndexOf(merged: seq<FileInfo>, path: string): nat {
    if merged == [] || merged[0].path == path then 0 else 1 + IndexOf(merged[1..], path)
  }

  /** One entry taken in: the first of a path stays, except that a directory replaces a file in its place. */
  function Merge(merged: seq<FileInfo>, node: FileInfo): seq<FileInfo> {
    var i := IndexOf(merged, node.path);
    if i >= |merged| then merged + [node]
    else if node.isDir && !merged[i].isDir then merged[i := node]
    else merged
  }

  function MergeAll(listed: string, entries: seq<FileInfo>): seq<FileInfo> {
    if entries == [] then []
    else
      var before, last := MergeAll(listed, entries[..|entries| - 1]), entries[|entries| - 1];
      match Node(listed, last)
      case None => before
      case Some(node) => Merge(before, node)
  }

  /** The sort key: directories first, then by path. */
  predicate Before(a: FileInfo, b: FileInfo) {
    (a.isDir && !b.isDir) || (a.isDir == b.isDir && Less(a.path, b.path))
  }

  function Finalized(path: string, entries: seq<FileInfo>): seq<FileInfo> {
    Sort(Before, MergeAll(Listed(path), entries))
  }

  /** The paths and kinds of a listing, without the rest. */
  function Shape(items: seq<FileInfo>): seq<(string, bool)> {
    seq(|items|, i requires 0 <= i < |items| => (items[i].path, items[i].isDir))
  }

  lemma MergeAllStep(listed: string, entries: seq<FileInfo>, i: nat)
    requires i < |entries|
    ensures MergeAll(listed, entries[..i + 1])
         == match Node(listed, entries[i])
            case None => MergeAll(listed, entries[..i])
            case Some(node) => Merge(MergeAll(listed, entries[..i]), node)
  {
    assert entries[..i + 1][..i] == entries[..i];
  }

  // ---------------------------------------------------------------- merging

  predicate Distinct(items: seq<FileInfo>) {
    forall i, j :: 0 <= i < j < |items| ==> items[i].path != items[j].path
  }

  predicate HasPath(items: seq<FileInfo>, path: string) {
    exists x :: x in items && x.path == path
  }

  predicate HasDir(items: seq<FileInfo>, path: string) {
    exists x :: x in items && x.path == path && x.isDir
  }

  /** Some entry lands on `path`; some entry makes it a directory. */
  predicate Lands(listed: string, entries: seq<FileInfo>, path: string) {
    exists e :: e in entries && Node(listed, e).Some? && Node(listed, e).value.path == path
  }

  predicate LandsAsDir(listed: string, entries: seq<FileInfo>, path: string) {
    exists e :: e in entries && Node(listed, e).Some? &&
                Node(listed, e).value.path == path && Node(listed, e).value.isDir
  }

  lemma {:induction false} IndexOfSpec(merged: seq<FileInfo>, path: string)
    ensures IndexOf(merged, path) <= |merged|
    ensures IndexOf(merged, path) < |merged| ==> merged[IndexOf(merged, path)].path == path
    ensures forall i :: 0 <= i < IndexOf(merged, path) ==> merged[i].path != path
  {
    if merged == [] || merged[0].path == path {
    } else {
      IndexOfSpec(merged[1..], path);
      forall i | 0 <= i < IndexOf(merged, path)
        ensures merged[i].path != path
      {
        if i > 0 {
          assert merged[i] == merged[1..][i - 1];
        }
      }
    }
  }

  lemma MergeOne(merged: seq<FileInfo>, node: FileInfo, path: string)
    requires Distinct(merged)
    ensures Distinct(Merge(merged, node))
    ensures HasPath(Merge(merged, node), path) <==> HasPath(merged, path) || node.path == path
    ensures HasDir(Merge(merged, node), path) <==> HasDir(merged, path) || (node.path == path && node.isDir)
  {
    var i, after := IndexOf(merged, node.path), Merge(merged, node);
    IndexOfSpec(merged, node.path);
    if i >= |merged| {
      assert after[|merged|] == node && forall x :: x in after <==> x in merged || x == node;
    } else if node.isDir && !merged[i].isDir {
      assert after[i] == node && after[i] in after && merged[i] in merged;
      assert forall x :: x in after && x != node ==> x in merged;
      forall j | 0 <= j < |merged| && j != i
        ensures merged[j] in after
      {
        assert after[j] == merged[j];
      }
    } else {
      assert merged[i] in merged;
    }
  }

  /**
   * After merging, a path is there once, exactly if an entry landed on it, and a directory exactly if one
   * made it so.
   */
  lemma {:induction false} MergedPaths(listed: string, entries: seq<FileInfo>, path: string)
    ensures Distinct(MergeAll(listed, entries))
    ensures HasPath(MergeAll(listed, entries), path) <==> Lands(listed, entries, path)
    ensures HasDir(MergeAll(listed, entries), path) <==> LandsAsDir(listed, entries, path)
  {
    if entries == [] {
    } else {
      var before, last := entries[..|entries| - 1], entries[|entries| - 1];
      MergedPaths(listed, before, path);
      assert last in entries && forall e :: e in entries <==> e in before || e == last;
      if Node(listed, last).Some? {
        MergeOne(MergeAll(listed, before), Node(listed, last).value, path);
      }
    }
  }

  // ---------------------------------------------------------------- sorting

  predicate StrictlySorted(items: seq<FileInfo>) {
    forall i, j :: 0 <= i < j < |items| ==> Before(items[i], items[j])
  }

  lemma BeforeIsOrder(a: FileInfo, b: FileInfo, c: FileInfo)
    ensures !Before(a, a)
    ensures Before(a, b) ==> !Before(b, a)
    ensures Before(a, b) && Before(b, c) ==> Before(a, c)
    ensures Before(a, c) ==> Before(a, b) || Before(b, c)
    ensures a.path != b.path ==> Before(a, b) || Before(b, a)
  {
    LessIrreflexive(a.path);
    LessTotal(a.path, b.path);
    LessTotal(b.path, c.path);
    if Less(a.path, b.path) && Less(b.path, c.path) {
      LessTransitive(a.path, b.path, c.path);
    }
    if Less(b.path, a.path) && Less(a.path, c.path) {
      LessTransitive(b.path, a.path, c.path);
    }
    if Less(a.path, c.path) && Less(c.path, b.path) {
      LessTransitive(a.path, c.path, b.path);
    }
    if Less(a.path, b.path) && Less(b.path, a.path) {
      LessTransitive(a.path, b.path, a.path);
    }
  }

  lemma BeforeIsStrict()
    ensures StrictOrder(Before)
  {
    forall a, b, c
      ensures Before(a, b) ==> !Before(b, a)
      ensures Before(a, c) ==> Before(a, b) || Before(b, c)
    {
      BeforeIsOrder(a, b, c);
    }
  }

  lemma SortedSpec(items: seq<FileInfo>)
    requires Distinct(items)
    ensures StrictlySorted(Sort(Before, items)) && Distinct(Sort(Before, items))
    ensures forall y :: y in Sort(Before, items) <==> y in items
  {
    var sorted := Sort(Before, items);
    SortKeepsItems(Before, items);
    BeforeIsStrict();
    SortOrders(Before, items);
    forall i, j | 0 <= i < j < |sorted|
      ensures sorted[i].path != sorted[j].path && Before(sorted[i], sorted[j])
    {
      SamePathOnce(items, sorted, i, j);
      BeforeIsOrder(sorted[i], sorted[j], sorted[i]);
    }
  }

  /** Rearranging items of distinct paths leaves the paths distinct. */
  lemma SamePathOnce(items: seq<FileInfo>, sorted: seq<FileInfo>, i: nat, j: nat)
    requires Distinct(items) && multiset(sorted) == multiset(items) && i < j < |sorted|
    ensures sorted[i].path != sorted[j].path
  {
    assert sorted[i] in multiset(items) && sorted[j] in multiset(items);
    if sorted[i] == sorted[j] {
      var x := sorted[i];
      assert sorted == sorted[..i] + [x] + sorted[i + 1..j] + [x] + sorted[j + 1..];
      assert multiset(items)[x] >= 2;
      OnceOnly(items, x);
    }
  }

  lemma {:induction false} OnceOnly(items: seq<FileInfo>, x: FileInfo)
    requires Distinct(items)
    ensures multiset(items)[x] <= 1
  {
    if items == [] {
    } else {
      assert items == [items[0]] + items[1..];
      OnceOnly(items[1..], x);
      if items[0] == x {
        assert forall y :: y in items[1..] ==> y != x;
      }
    }
  }

  lemma SortedKeepsSorted(items: seq<FileInfo>)
    requires StrictlySorted(items)
    ensures Sort(Before, items) == items
  {
    forall i, j | 0 <= i < j < |items|
      ensures !Before(items[j], items[i])
    {
      BeforeIsOrder(items[i], items[j], items[i]);
    }
    SortKeepsOrdered(Before, items);
  }

  /** The sorted arrangement of given paths and kinds is unique. */
  lemma {:induction false} SortedIsUnique(a: seq<FileInfo>, b: seq<FileInfo>)
    requires StrictlySorted(a) && StrictlySorted(b) && Distinct(a) && Distinct(b)
    requires forall p :: HasPath(a, p) <==> HasPath(b, p)
    requires forall p :: HasDir(a, p) <==> HasDir(b, p)
    ensures Shape(a) == Shape(b)
  {
    if b == [] {
    } else {
      assert b[0] in b && HasPath(b, b[0].path);
    }
    if a != [] {
      assert a[0] in a && HasPath(a, a[0].path);
      var i := Twin(a, b, 0);
      var j := Twin(b, a, 0);
      BeforeIsOrder(a[0], b[0], a[0]);
      BeforeSameShape(a[j], b[0], a[0]);
      BeforeSameShape(b[i], a[0], b[0]);
      assert i == 0;
      forall p
        ensures HasPath(a[1..], p) <==> HasPath(b[1..], p)
        ensures HasDir(a[1..], p) <==> HasDir(b[1..], p)
      {
        WithoutFirst(a, p);
        WithoutFirst(b, p);
      }
      SortedIsUnique(a[1..], b[1..]);
      assert Shape(a) == [(a[0].path, a[0].isDir)] + Shape(a[1..]);
      assert Shape(b) == [(b[0].path, b[0].isDir)] + Shape(b[1..]);
    }
  }

  /** The item of b with the path, and so the kind, of one of a. */
  lemma Twin(a: seq<FileInfo>, b: seq<FileInfo>, k: nat) returns (i: nat)
    requires k < |a| && Distinct(a) && Distinct(b)
    requires HasPath(b, a[k].path) && (HasDir(a, a[k].path) <==> HasDir(b, a[k].path))
    ensures i < |b| && b[i].path == a[k].path && b[i].isDir == a[k].isDir
  {
    var x :| x in b && x.path == a[k].path;
    i :| 0 <= i < |b| && b[i] == x;
    KindOf(a, k);
    KindOf(b, i);
  }

  lemma KindOf(items: seq<FileInfo>, k: nat)
    requires k < |items| && Distinct(items)
    ensures HasDir(items, items[k].path) <==> items[k].isDir
  {
    assert items[k] in items;
    if HasDir(items, items[k].path) {
      var x :| x in items && x.path == items[k].path && x.isDir;
      var j :| 0 <= j < |items| && items[j] == x;
    }
  }

  lemma BeforeSameShape(a: FileInfo, b: FileInfo, c: FileInfo)
    requires a.path == b.path && a.isDir == b.isDir
    ensures Before(a, c) == Before(b, c) && Before(c, a) == Before(c, b)
  {
  }

  lemma WithoutFirst(items: seq<FileInfo>, p: string)
    requires items != [] && Distinct(items)
    ensures HasPath(items[1..], p) <==> HasPath(items, p) && p != items[0].path
    ensures HasDir(items[1..], p) <==> HasDir(items, p) && p != items[0].path
  {
    assert forall y :: y in items <==> y == items[0] || y in items[1..];
    forall y | y in items[1..]
      ensures y.path != items[0].path
    {
      var i :| 0 <= i < |items[1..]| && items[1..][i] == y;
      assert items[i + 1] == y;
    }
  }

  // ---------------------------------------------------------------- results

  lemma SortedPaths(items: seq<FileInfo>, p: string)
    requires Distinct(items)
    ensures HasPath(Sort(Before, items), p) <==> HasPath(items, p)
    ensures HasDir(Sort(Before, items), p) <==> HasDir(items, p)
  {
    SortedSpec(items);
  }

  /**
   * A listing is strictly sorted, directories first; it has each path an entry
   * lands on once, as a directory exactly if some entry says so, and never the
   * directory being listed.
   */
  lemma ListingIsExact(path: string, entries: seq<FileInfo>, p: string)
    ensures StrictlySorted(Finalized(path, entries)) && Distinct(Finalized(path, entries))
    ensures HasPath(Finalized(path, entries), p) <==> Lands(Listed(path), entries, p)
    ensures HasDir(Finalized(path, entries), p) <==> LandsAsDir(Listed(path), entries, p)
    ensures !HasPath(Finalized(path, entries), Listed(path))
  {
    var merged := MergeAll(Listed(path), entries);
    MergedPaths(Listed(path), entries, p);
    MergedPaths(Listed(path), entries, Listed(path));
    SortedSpec(merged);
    SortedPaths(merged, p);
    SortedPaths(merged, Listed(path));
  }

  /** The path of a file or folder as a store reports it: no blanks at its ends, no trailing slash. */
  predicate CleanPath(p: string) {
    p != "" && p != "." && '\\' !in p && !Blank(p[0]) && !EndsBlank(p) && !EndsWith(p, '/')
  }

  lemma FolderForms(p: string)
    requires CleanPath(p)
    ensures Strip(Slashes(p + "/")) == p + "/" && RStrip(p + "/", '/') == p
  {
    var raw := p + "/";
    SlashesPlain(raw);
    StripSpec(raw);
    RStripOnce(raw, '/');
    assert raw[..|p|] == p;
  }

  lemma RStripOnce(s: string, c: char)
    requires |s| > 1 && s[|s| - 1] == c && s[|s| - 2] != c
    ensures RStrip(s, c) == s[..|s| - 1]
  {
    var t := s[..|s| - 1];
    assert t[|t| - 1] == s[|s| - 2];
    assert RStrip(t, c) == t;
  }

  /** The node of an entry whose stripped path is known. */
  lemma NodeForm(listed: string, e: FileInfo, raw: string, norm: string)
    requires Strip(Slashes(e.path)) == raw && RStrip(raw, '/') == norm
    requires |raw| > 1 && norm != "" && norm != "." && !EndsWith(norm, '/') && norm != listed
    ensures Node(listed, e) == Some(FileInfo(norm, e.isDir || EndsWith(raw, '/'), e.info))
  {
    RStripSpec(raw, '/');
    assert raw == "./" ==> raw[..1] == "." && RStrip(".", '/') == ".";
  }

  /**
   * A folder reported by its marker, whatever else is reported of it, is listed
   * as one directory, under its path without the slash.
   */
  lemma FolderListedOnce(path: string, entries: seq<FileInfo>, p: string, isDir: bool, info: int)
    requires CleanPath(p) && p != Listed(path)
    requires FileInfo(p + "/", isDir, info) in entries
    ensures HasDir(Finalized(path, entries), p)
    ensures !HasPath(Finalized(path, entries), p + "/")
  {
    var e := FileInfo(p + "/", isDir, info);
    FolderForms(p);
    NodeForm(Listed(path), e, p + "/", p);
    assert LandsAsDir(Listed(path), entries, p);
    ListingIsExact(path, entries, p);
    ListedArePlain(path, entries);
    assert EndsWith(p + "/", '/') && p + "/" != "/";
  }

  /** Neither the order of the entries nor repeating some of them shows in the paths and kinds. */
  lemma ListingIgnoresOrder(path: string, a: seq<FileInfo>, b: seq<FileInfo>)
    requires forall e :: e in a <==> e in b
    ensures Shape(Finalized(path, a)) == Shape(Finalized(path, b))
  {
    forall p
      ensures HasPath(Finalized(path, a), p) <==> HasPath(Finalized(path, b), p)
      ensures HasDir(Finalized(path, a), p) <==> HasDir(Finalized(path, b), p)
    {
      ListingIsExact(path, a, p);
      ListingIsExact(path, b, p);
    }
    ListingIsExact(path, a, "");
    ListingIsExact(path, b, "");
    SortedIsUnique(Finalized(path, a), Finalized(path, b));
  }

  predicate EndsBlank(s: string) {
    s != "" && Blank(s[|s| - 1])
  }

  /** What is known of a listed path: normalised, but for blanks before the slashes that were cut off. */
  predicate Plain(listed: string, x: FileInfo) {
    && x.path != "" && '\\' !in x.path && !Blank(x.path[0]) && x.path != "." && x.path != listed
    && (EndsWith(x.path, '/') ==> x.path == "/" && x.isDir)
  }

  lemma RawForm(path: string, raw: string)
    requires raw == Strip(Slashes(path))
    ensures '\\' !in raw && (raw != "" ==> !Blank(raw[0]))
  {
    var slashed := Slashes(path);
    SlashesClear(path);
    StripSpec(slashed);
    var i, j :| 0 <= i <= j <= |slashed| && raw == Slice(slashed, i, j);
  }

  lemma NormForm(raw: string, norm: string)
    requires raw != "" && '\\' !in raw && !Blank(raw[0])
    requires norm == if RStrip(raw, '/') == "" then "/" else RStrip(raw, '/')
    ensures norm != "" && '\\' !in norm && !Blank(norm[0])
    ensures EndsWith(norm, '/') ==> norm == "/" && EndsWith(raw, '/')
  {
    RStripSpec(raw, '/');
  }

  lemma NodeIsPlain(listed: string, e: FileInfo)
    requires Node(listed, e).Some?
    ensures Plain(listed, Node(listed, e).value)
  {
    var raw := Strip(Slashes(e.path));
    RawForm(e.path, raw);
    NormForm(raw, Node(listed, e).value.path);
  }

  /** Taking in a listed entry again: unchanged if its path ends clean, under a shorter path if not. */
  lemma NodeOfClean(listed: string, x: FileInfo)
    requires Plain(listed, x) && !EndsBlank(x.path)
    ensures Node(listed, x) == Some(x)
  {
    SlashesPlain(x.path);
    StripSpec(x.path);
    RStripSpec(x.path, '/');
    if x.path == "/" {
      assert RStrip("/", '/') == "";
    } else {
      assert RStrip(x.path, '/') == x.path;
    }
  }

  lemma NodeOfBlank(listed: string, x: FileInfo)
    requires Plain(listed, x) && EndsBlank(x.path) && Node(listed, x).Some?
    ensures |Node(listed, x).value.path| < |x.path|
  {
    SlashesPlain(x.path);
    StripSpec(x.path);
    RStripSpec(Strip(x.path), '/');
    var i, j :| 0 <= i <= j <= |x.path| && Strip(x.path) == Slice(x.path, i, j);
    assert Slice(x.path, 0, |x.path|) == x.path;
  }

  lemma MergeNew(merged: seq<FileInfo>, node: FileInfo)
    requires forall i :: 0 <= i < |merged| ==> merged[i].path != node.path
    ensures Merge(merged, node) == merged + [node]
  {
    IndexOfSpec(merged, node.path);
  }

  lemma MergeBehind(items: seq<FileInfo>, n: nat)
    requires n < |items| && Distinct(items)
    ensures Merge(items[..n], items[n]) == items[..n + 1]
  {
    var before, last := items[..n], items[n];
    assert forall i :: 0 <= i < n ==> before[i] == items[i];
    MergeNew(before, last);
    assert before + [last] == items[..n + 1];
  }

  lemma MergeClean(listed: string, items: seq<FileInfo>, i: nat)
    requires i < |items| && Plain(listed, items[i]) && !EndsBlank(items[i].path)
    ensures MergeAll(listed, items[..i + 1]) == Merge(MergeAll(listed, items[..i]), items[i])
  {
    NodeOfClean(listed, items[i]);
    MergeAllStep(listed, items, i);
  }

  lemma {:induction false} MergePlain(listed: string, items: seq<FileInfo>, n: nat)
    requires n <= |items| && Distinct(items)
    requires forall x :: x in items ==> Plain(listed, x) && !EndsBlank(x.path)
    ensures MergeAll(listed, items[..n]) == items[..n]
  {
    if n == 0 {
    } else {
      MergePlain(listed, items, n - 1);
      MergeClean(listed, items, n - 1);
      MergeBehind(items, n - 1);
    }
  }

  /** A listed path ending in a blank does not survive a second pass: it would take an ever longer one to land on it. */
  lemma {:induction false} BlankEndShows(listed: string, items: seq<FileInfo>, x: FileInfo, longest: nat)
    requires forall y :: y in items ==> Plain(listed, y) && |y.path| <= longest
    requires x in items && EndsBlank(x.path)
    ensures exists y :: y in items && !Lands(listed, items, y.path)
    decreases longest - |x.path|
  {
    if Lands(listed, items, x.path) {
      var e :| e in items && Node(listed, e).Some? && Node(listed, e).value.path == x.path;
      if !EndsBlank(e.path) {
        NodeOfClean(listed, e);
      }
      NodeOfBlank(listed, e);
      BlankEndShows(listed, items, e, longest);
    }
  }

  function Longest(items: seq<FileInfo>): nat {
    if items == [] then 0
    else if |items[0].path| > Longest(items[1..]) then |items[0].path| else Longest(items[1..])
  }

  lemma {:induction false} LongestSpec(items: seq<FileInfo>)
    ensures forall x :: x in items ==> |x.path| <= Longest(items)
  {
    if items == [] {
    } else {
      LongestSpec(items[1..]);
      assert forall x :: x in items <==> x == items[0] || x in items[1..];
    }
  }

  lemma ListedArePlain(path: string, entries: seq<FileInfo>)
    ensures forall x :: x in Finalized(path, entries) ==> Plain(Listed(path), x)
  {
    MergedArePlain(Listed(path), entries);
    MergedPaths(Listed(path), entries, "");
    SortedSpec(MergeAll(Listed(path), entries));
  }

  lemma {:induction false} MergedArePlain(listed: string, entries: seq<FileInfo>)
    ensures forall x :: x in MergeAll(listed, entries) ==> Plain(listed, x)
  {
    if entries == [] {
    } else {
      var before, last := entries[..|entries| - 1], entries[|entries| - 1];
      MergedArePlain(listed, before);
      if Node(listed, last).Some? {
        NodeIsPlain(listed, last);
      }
    }
  }

  /** An entry that is listed, and whose path has a blank just before the slashes it ends in. */
  predicate BlankBeforeSlashes(listed: string, entry: FileInfo) {
    Node(listed, entry).Some? && EndsBlank(RStrip(Strip(Slashes(entry.path)), '/'))
  }

  lemma BlankEntryShows(path: string, entries: seq<FileInfo>)
    ensures (forall x :: x in Finalized(path, entries) ==> !EndsBlank(x.path)) <==>
            (forall e :: e in entries ==> !BlankBeforeSlashes(Listed(path), e))
  {
    var listed, once := Listed(path), Finalized(path, entries);
    forall e | e in entries && BlankBeforeSlashes(listed, e)
      ensures exists x :: x in once && EndsBlank(x.path)
    {
      ListingIsExact(path, entries, Node(listed, e).value.path);
      assert HasPath(once, Node(listed, e).value.path);
    }
    forall x | x in once && EndsBlank(x.path)
      ensures exists e :: e in entries && BlankBeforeSlashes(listed, e)
    {
      ListingIsExact(path, entries, x.path);
      assert HasPath(once, x.path);
    }
  }

  /** Listing a listing again changes nothing exactly when no entry has a blank just before the slashes it ends in. */
  lemma ListingIdempotent(path: string, entries: seq<FileInfo>)
    ensures Finalized(path, Finalized(path, entries)) == Finalized(path, entries) <==>
            forall e :: e in entries ==> !BlankBeforeSlashes(Listed(path), e)
  {
    BlankEntryShows(path, entries);
    ListingStaysIfClean(path, entries);
  }

  lemma ListingStaysIfClean(path: string, entries: seq<FileInfo>)
    ensures var once := Finalized(path, entries);
            Finalized(path, once) == once <==> forall x :: x in once ==> !EndsBlank(x.path)
  {
    var listed, once := Listed(path), Finalized(path, entries);
    ListedArePlain(path, entries);
    ListingIsExact(path, entries, "");
    if forall x :: x in once ==> !EndsBlank(x.path) {
      MergePlain(listed, once, |once|);
      assert once[..|once|] == once;
      SortedKeepsSorted(once);
    } else {
      var x :| x in once && EndsBlank(x.path);
      LongestSpec(once);
      BlankEndShows(listed, once, x, Longest(once));
      var y :| y in once && !Lands(listed, once, y.path);
      ListingIsExact(path, once, y.path);
      assert HasPath(once, y.path);
    }
  }

  /** Such a path: the blank before the slashes stays, and a second pass takes it off. */
  lemma BlankBeforeSlash()
    ensures Finalized("/", [FileInfo("a /", false, 0)]) == [FileInfo("a ", true, 0)]
    ensures EndsBlank("a ") && BlankBeforeSlashes("/", FileInfo("a /", false, 0))
  {
    var entry := FileInfo("a /", false, 0);
    SlashesPlain("a /");
    SlashesPlain("/");
    StripSpec("a /");
    assert "a /"[..2] == "a ";
    assert RStrip("a /", '/') == RStrip("a ", '/') == "a ";
    assert Listed("/") == "/";
    assert Node("/", entry) == Some(FileInfo("a ", true, 0));
    MergeAllStep("/", [entry], 0);
    assert [entry][..1] == [entry] && [entry][..0] == [];
  }

  // ---------------------------------------------------------------- the loop

  /** The values of an insertion-ordered dictionary. */
  function Values(merged: map<string, FileInfo>, order: seq<string>): seq<FileInfo>
    requires forall k :: k in order ==> k in merged
  {
    seq(|order|, i requires 0 <= i < |order| => merged[order[i]])
  }

  ghost predicate Dictionary(merged: map<string, FileInfo>, order: seq<string>) {
    (forall k :: k in order <==> k in merged) && forall k :: k in merged ==> merged[k].path == k
  }

  /** Taking a node into the dictionary as the loop does is `Merge` on its values. */
  lemma DictionaryMerge(merged: map<string, FileInfo>, order: seq<string>, node: FileInfo)
    requires Dictionary(merged, order) && Distinct(Values(merged, order))
    ensures var p, values := node.path, Merge(Values(merged, order), node);
            if p !in merged
            then Dictionary(merged[p := node], order + [p]) && Values(merged[p := node], order + [p]) == values
            else if node.isDir && !merged[p].isDir then
              Dictionary(merged[p := node], order) && Values(merged[p := node], order) == values
            else Values(merged, order) == values
  {
    var values := Values(merged, order);
    IndexOfSpec(values, node.path);
    if node.path in merged {
      var at :| 0 <= at < |order| && order[at] == node.path;
      assert values[at].path == node.path;
      forall i | 0 <= i < |order| && i != at
        ensures order[i] != node.path
      {
        assert values[i].path == order[i];
      }
    }
  }

  /** `_finalize_ls_entries`. */
  method FinalizeLsEntries(path: string, entries: seq<FileInfo>) returns (r: seq<FileInfo>)
    ensures r == Finalized(path, entries)
  {
    var listed := Listed(path);
    var merged: map<string, FileInfo>, order: seq<string> := map[], [];
    for i := 0 to |entries|
      invariant Dictionary(merged, order)
      invariant Values(merged, order) == MergeAll(listed, entries[..i])
    {
      var entry := entries[i];
      MergeAllStep(listed, entries, i);
      var raw := Strip(Slashes(entry.path));
      if raw == "" || raw == "." || raw == "./" {
        continue;
      }
      var isDir := entry.isDir || EndsWith(raw, '/');
      var norm := if RStrip(raw, '/') == "" then "/" else RStrip(raw, '/');
      if norm == "." || norm == "./" || norm == listed {
        continue;
      }
      MergedPaths(listed, entries[..i], norm);
      DictionaryMerge(merged, order, FileInfo(norm, isDir, entry.info));
      if norm in merged {
        if isDir && !merged[norm].isDir {
          merged := merged[norm := FileInfo(norm, true, entry.info)];
        }
        continue;
      }
      merged := merged[norm := FileInfo(norm, isDir, entry.info)];
      order := order + [norm];
    }
    assert entries[..|entries|] == entries;
    r := Sort(Before, Values(merged, order));
  }
}
