/** What a directory listing holds of the entries it was made from. */
module ListingEntries {
  import opened Sorting
  import opened Strings
  import opened DirectoryListing

  /** Directories come before files, and items of one kind in the order of their paths. */
  lemma DirectoriesFirst(path: string, entries: seq<FileInfo>, i: nat, j: nat)
    requires i < j < |Finalized(path, entries)|
    ensures var a, b := Finalized(path, entries)[i], Finalized(path, entries)[j];
            && (b.isDir ==> a.isDir)
            && (a.isDir == b.isDir ==> Less(a.path, b.path))
  {
    ListingIsExact(path, entries, "");
    assert Before(Finalized(path, entries)[i], Finalized(path, entries)[j]);
  }

  lemma MergeMember(merged: seq<FileInfo>, node: FileInfo, x: FileInfo)
    requires Distinct(merged)
    ensures x in Merge(merged, node) <==>
            (x in merged && !(x.path == node.path && node.isDir && !x.isDir)) ||
            (x == node && (!HasPath(merged, x.path) || (x.isDir && !HasDir(merged, x.path))))
  {
    var i, after := IndexOf(merged, node.path), Merge(merged, node);
    IndexOfSpec(merged, node.path);
    if i >= |merged| {
      assert forall y :: y in after <==> y in merged || y == node;
    } else {
      KindOf(merged, i);
      assert merged[i] in merged;
      if node.isDir && !merged[i].isDir {
        ReplacedMember(merged, node, i, x);
      }
    }
  }

  lemma ReplacedMember(merged: seq<FileInfo>, node: FileInfo, i: nat, x: FileInfo)
    requires i < |merged|
    requires Distinct(merged) && merged[i].path == node.path && merged[i] != node
    ensures x in merged[i := node] <==> x == node || (x in merged && x.path != node.path)
  {
    var after := merged[i := node];
    assert after[i] == node;
    if x in merged && x.path != node.path {
      var j :| 0 <= j < |merged| && merged[j] == x;
      assert after[j] == x;
    }
    if x in after && x != node {
      var j :| 0 <= j < |after| && after[j] == x;
      assert merged[j] == x;
    }
  }

  /**
   * This entry is the one shown at its path: the first to land there, or the first directory to land there if files
   * came before it; and no directory lands there if it is a file.
   */
  ghost predicate Shown(listed: string, entries: seq<FileInfo>, i: nat, x: FileInfo) {
    && i < |entries| && Node(listed, entries[i]) == Some(x)
    && (Lands(listed, entries[..i], x.path) ==> x.isDir && !LandsAsDir(listed, entries[..i], x.path))
    && (LandsAsDir(listed, entries, x.path) ==> x.isDir)
  }

  lemma ShownEarlier(listed: string, entries: seq<FileInfo>, before: seq<FileInfo>, i: nat, x: FileInfo)
    requires entries != [] && before == entries[..|entries| - 1] && i < |before|
    ensures Shown(listed, entries, i, x) <==>
            Shown(listed, before, i, x) && !LandsHere(listed, entries[|entries| - 1], x)
  {
    assert entries[..i] == before[..i];
    LandsLast(listed, entries, before, x.path);
  }

  /** A directory that lands where a file is shown. */
  predicate LandsHere(listed: string, entry: FileInfo, x: FileInfo) {
    var node := Node(listed, entry);
    node.Some? && node.value.path == x.path && node.value.isDir && !x.isDir
  }

  lemma LandsLast(listed: string, entries: seq<FileInfo>, before: seq<FileInfo>, p: string)
    requires entries != [] && before == entries[..|entries| - 1]
    ensures var node := Node(listed, entries[|entries| - 1]);
            LandsAsDir(listed, entries, p) <==>
            LandsAsDir(listed, before, p) || (node.Some? && node.value.path == p && node.value.isDir)
  {
    var last := entries[|entries| - 1];
    assert forall e :: e in entries <==> e in before || e == last;
  }

  /** The items of a listing, with all they carry, are exactly the entries that are shown. */
  lemma ListedEntries(path: string, entries: seq<FileInfo>, x: FileInfo)
    ensures x in Finalized(path, entries) <==> exists i :: Shown(Listed(path), entries, i, x)
  {
    MergedPaths(Listed(path), entries, "");
    SortedSpec(MergeAll(Listed(path), entries));
    MergedEntries(Listed(path), entries, x);
  }

  lemma {:induction false} MergedEntries(listed: string, entries: seq<FileInfo>, x: FileInfo)
    ensures x in MergeAll(listed, entries) <==> exists i :: Shown(listed, entries, i, x)
  {
    if entries == [] {
    } else {
      var before, last := entries[..|entries| - 1], entries[|entries| - 1];
      MergedEntries(listed, before, x);
      MergedPaths(listed, before, x.path);
      MergedStep(listed, entries, before, x);
      if i: nat :| Shown(listed, entries, i, x) && i < |before| {
        ShownEarlier(listed, entries, before, i, x);
      }
      if i: nat :| Shown(listed, before, i, x) {
        ShownEarlier(listed, entries, before, i, x);
      }
      ShownLast(listed, entries, before, x);
    }
  }

  lemma MergedStep(listed: string, entries: seq<FileInfo>, before: seq<FileInfo>, x: FileInfo)
    requires entries != [] && before == entries[..|entries| - 1]
    ensures var node, merged := Node(listed, entries[|entries| - 1]), MergeAll(listed, before);
            x in MergeAll(listed, entries) <==>
            (x in merged && !LandsHere(listed, entries[|entries| - 1], x)) ||
            (node == Some(x) && (!Lands(listed, before, x.path) ||
                                 (x.isDir && !LandsAsDir(listed, before, x.path))))
  {
    var node := Node(listed, entries[|entries| - 1]);
    MergedPaths(listed, before, x.path);
    if node.Some? {
      MergeMember(MergeAll(listed, before), node.value, x);
    }
  }

  lemma ShownLast(listed: string, entries: seq<FileInfo>, before: seq<FileInfo>, x: FileInfo)
    requires entries != [] && before == entries[..|entries| - 1]
    ensures Shown(listed, entries, |before|, x) <==>
            Node(listed, entries[|entries| - 1]) == Some(x) &&
            (!Lands(listed, before, x.path) || (x.isDir && !LandsAsDir(listed, before, x.path)))
  {
    assert entries[..|before|] == before;
    LandsLast(listed, entries, before, x.path);
    if LandsAsDir(listed, before, x.path) {
      assert Lands(listed, before, x.path);
    }
  }

  /** The root is listed only if an entry names it: no empty path, and no path of dots, stands for it. */
  lemma RootOnlyIfNamed(path: string, entries: seq<FileInfo>, x: FileInfo)
    requires x in Finalized(path, entries)
    ensures x.path !in {"", ".", "./"}
    ensures x.path == "/" ==> exists e :: e in entries && StartsWith(Strip(Slashes(e.path)), "/")
  {
    ListedEntries(path, entries, x);
    var i: nat :| Shown(Listed(path), entries, i, x);
    var raw := Strip(Slashes(entries[i].path));
    RStripSpec(raw, '/');
    assert entries[i] in entries;
    if x.path == "/" {
      assert raw != "" && raw[0] == '/';
      assert raw[..1] == [raw[0]];
    }
  }
}
