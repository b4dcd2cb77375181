/** Deleting a prefix on COS, where the generator of keys ends if the service leaves the next marker out. */
module CosStorage {
  import opened Strings
  import opened StorageKeys
  import opened ObjectStore

  lemma StartIsBeforeAll(objects: map<string, Body>, pk: string)
    requires "" !in objects
    ensures After(objects, pk, "") == Under(objects, pk)
  {
  }

  lemma {:induction false} AscendingCount(keys: seq<string>)
    requires Ascending(keys)
    ensures |Held(keys)| == |keys|
  {
    if keys == [] {
    } else {
      PopHead(keys);
      AscendingCount(keys[1..]);
      assert keys[0] in keys;
    }
  }

  lemma SubsetCount(a: set<string>, b: set<string>)
    requires a <= b
    ensures |a| <= |b| && (|a| == |b| ==> a == b)
  {
    assert b == a + (b - a);
  }

  /** What one page holds of the keys still to delete, and what remains behind it. */
  lemma PageStep(before: map<string, Body>, gone: set<string>, pk: string, marker: string, page: seq<string>,
                 truncated: bool)
    requires "" !in before && gone <= Under(before, pk)
    requires IsPage(before - gone, pk, marker, page, truncated)
    requires After(before - gone, pk, marker) == Under(before, pk) - gone
    ensures var next := gone + Held(page);
            && next <= Under(before, pk) && |next| == |gone| + |page|
            && (before - gone) - Held(page) == before - next
            && (!truncated ==> next == Under(before, pk))
            && (truncated ==> page != [] && page[|page| - 1] != "")
            && (truncated ==> After(before - next, pk, page[|page| - 1]) == Under(before, pk) - next)
  {
    var held := Held(page);
    AscendingCount(page);
    assert held !! gone;
    if truncated {
      NextPageContinues(before - gone, pk, marker, page);
      AfterWithout(before - gone, pk, page[|page| - 1], held);
      assert (before - gone) - held == before - (gone + held);
    }
  }

  lemma AfterWithout(objects: map<string, Body>, pk: string, marker: string, gone: set<string>)
    ensures After(objects - gone, pk, marker) == After(objects, pk, marker) - gone
  {
  }

  /** Whether the deletion ends with this page, and then whether it is complete. */
  lemma PageEnds(under: set<string>, gone: set<string>, page: set<string>, pageSize: nat, sendsMarker: bool,
                 truncated: bool)
    requires gone <= under && page <= under - gone && |page| <= pageSize
    requires gone == {} || sendsMarker
    requires truncated <==> |under - gone| > pageSize
    requires !truncated ==> gone + page == under
    ensures truncated ==> |under| > pageSize
    ensures !(truncated && sendsMarker) ==> (gone + page == under <==> sendsMarker || |under| <= pageSize)
  {
    SubsetCount(under - gone, under);
    if gone == {} {
      assert under - gone == under && gone + page == page;
      SubsetCount(page, under);
    }
  }

  class CosBackend {
    const prefix: string
    const store: Store

    constructor (prefix: string, store: Store)
      ensures this.prefix == prefix && this.store == store
    {
      this.prefix, this.store := prefix, store;
    }

    /**
     * `delete_prefix` over the COS generator: every key of a page is deleted before the next page is asked for.
     * It deletes keys under the path only, and all of them exactly if they fit one page or the service names the
     * next marker.
     */
    method DeletePrefix(path: string) returns (deleted: nat, ghost gone: set<string>)
      requires store.Valid()
      modifies store
      ensures store.Valid()
      ensures var under := Under(old(store.objects), PrefixKey(prefix, path));
              && gone <= under && store.objects == old(store.objects) - gone && deleted == |gone|
              && (gone == under <==> store.sendsMarker || |under| <= store.pageSize)
    {
      var pk := PrefixKey(prefix, path);
      ghost var before, under := store.objects, Under(store.objects, pk);
      var marker, more := "", true;
      gone := {};
      deleted := 0;
      StartIsBeforeAll(before, pk);
      assert before - {} == before;
      while more
        invariant store.Valid() && store.objects == before - gone
        invariant gone <= under && deleted == |gone|
        invariant more ==> After(before - gone, pk, marker) == under - gone
        invariant more ==> gone == {} || store.sendsMarker
        invariant !more ==> (gone == under <==> store.sendsMarker || |under| <= store.pageSize)
        decreases more, |under| - |gone|
      {
        var resp := store.ListPage(pk, marker);
        PageStep(before, gone, pk, marker, resp.keys, resp.truncated);
        PageEnds(under, gone, Held(resp.keys), store.pageSize, store.sendsMarker, resp.truncated);
        DeleteAll(resp.keys);
        deleted := deleted + |resp.keys|;
        gone := gone + Held(resp.keys);
        SubsetCount(gone, under);
        marker := resp.nextMarker;
        more := resp.truncated && marker != "";
      }
    }

    method DeleteAll(keys: seq<string>)
      requires store.Valid()
      modifies store
      ensures store.Valid() && store.objects == old(store.objects) - Held(keys)
    {
      for i := 0 to |keys|
        invariant store.Valid() && store.objects == old(store.objects) - Held(keys[..i])
      {
        assert keys[..i + 1] == keys[..i] + [keys[i]];
        store.Delete(keys[i]);
      }
      assert keys[..|keys|] == keys;
    }
  }
}
