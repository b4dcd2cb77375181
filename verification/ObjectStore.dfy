/**
 * The object store behind a cloud backend, and the lazy key pager over it.
 *
 * The store is an ordered map from keys to bodies. One list request returns the next
 * `pageSize` keys with a prefix that lie after a marker. S3 continuation tokens and COS
 * markers are both resume keys here: listing goes on after the last key already returned.
 * The S3 generator makes up for a missing resume key, the COS one ends there.
 */
module ObjectStore {
  import opened Strings

  /** An object body (the JSON envelope); "" is the body of a directory marker. */
  type Body = string

  /** The stored keys with this prefix. */
  ghost function Under(objects: map<string, Body>, prefix: string): set<string> {
    set k | k in objects && StartsWith(k, prefix)
  }

  /** The stored keys with this prefix that a list request resumed after `marker` can still return. */
  ghost function After(objects: map<string, Body>, prefix: string, marker: string): set<string> {
    set k | k in objects && StartsWith(k, prefix) && Less(marker, k)
  }

  ghost predicate Ascending(keys: seq<string>) {
    forall i, j :: 0 <= i < j < |keys| ==> Less(keys[i], keys[j])
  }

  /** `page` is the start of the listing after `marker`: all of it, or cut short behind its last key. */
  ghost predicate IsPage(objects: map<string, Body>, prefix: string, marker: string, page: seq<string>,
                         truncated: bool)
  {
    && Ascending(page)
    && (forall k :: k in page ==> k in After(objects, prefix, marker))
    && (!truncated ==> forall k :: k in After(objects, prefix, marker) ==> k in page)
    && (truncated ==> page != [])
    && (truncated ==> forall k :: k in page ==> !Less(page[|page| - 1], k))
    && (truncated ==> forall k :: k in After(objects, prefix, marker) && k !in page ==> Less(page[|page| - 1], k))
  }

  ghost function Held(page: seq<string>): set<string> {
    set k | k in page
  }

  ghost predicate AllBefore(page: seq<string>, rest: set<string>) {
    forall i, k :: 0 <= i < |page| && k in rest ==> Less(page[i], k)
  }

  /** `page` is the ascending start of `all`, and `rest` is what follows it. */
  ghost predicate Listed(all: set<string>, page: seq<string>, rest: set<string>) {
    && Ascending(page) && AllBefore(page, rest)
    && Held(page) <= all && rest == all - Held(page)
    && |page| + |rest| == |all|
  }

  lemma ListNext(all: set<string>, page: seq<string>, rest: set<string>, least: string)
    requires Listed(all, page, rest) && least in rest
    requires forall k :: k in rest && k != least ==> Less(least, k)
    ensures Listed(all, page + [least], rest - {least})
  {
    InOrderNext(page, rest, least);
    HeldNext(page, least);
  }

  lemma InOrderNext(page: seq<string>, rest: set<string>, least: string)
    requires Ascending(page) && AllBefore(page, rest) && least in rest
    requires forall k :: k in rest && k != least ==> Less(least, k)
    ensures Ascending(page + [least]) && AllBefore(page + [least], rest - {least})
  {
  }

  lemma HeldNext(page: seq<string>, key: string)
    ensures Held(page + [key]) == Held(page) + {key}
  {
  }

  lemma ListedIsPage(objects: map<string, Body>, prefix: string, marker: string, page: seq<string>,
                     rest: set<string>)
    requires Listed(After(objects, prefix, marker), page, rest) && (rest == {} || page != [])
    ensures IsPage(objects, prefix, marker, page, rest != {})
  {
    assert forall k :: k in After(objects, prefix, marker) && k !in page ==> k in rest;
    if rest != {} {
      forall k | k in page
        ensures !Less(page[|page| - 1], k)
      {
        var i :| 0 <= i < |page| && page[i] == k;
        LastIsGreatest(page, i);
      }
    }
  }

  /** The least key of a nonempty set. */
  method LeastKey(keys: set<string>) returns (least: string)
    requires keys != {}
    ensures least in keys
    ensures forall k :: k in keys && k != least ==> Less(least, k)
  {
    least :| least in keys;
    var rest := keys - {least};
    while rest != {}
      invariant rest <= keys && least in keys - rest
      invariant forall k :: k in keys - rest && k != least ==> Less(least, k)
      decreases rest
    {
      var k :| k in rest;
      LessTotal(least, k);
      if Less(k, least) {
        forall x | x in keys - rest && x != least
          ensures Less(k, x)
        {
          LessTransitive(k, least, x);
        }
        least := k;
      }
      rest := rest - {k};
    }
  }

  /** The answer to one list request; "" stands for a field the service left out. */
  datatype Listing = Listing(keys: seq<string>, truncated: bool, nextToken: string, nextMarker: string)

  /** `_normalize_list_v1`: a first-version answer gets a continuation token, from its last key if need be. */
  function NormalizeListV1(resp: Listing): (r: Listing)
    ensures r.keys == resp.keys && r.truncated == resp.truncated
    ensures resp.truncated && resp.keys != [] && resp.nextToken == resp.nextMarker == "" ==>
              r.nextToken == resp.keys[|resp.keys| - 1]
  {
    if resp.truncated && resp.nextToken == "" then
      var marker := if resp.nextMarker != "" then resp.nextMarker
                    else if resp.keys != [] then resp.keys[|resp.keys| - 1]
                    else "";
      resp.(nextToken := marker)
    else resp
  }

  class Store {
    var objects: map<string, Body>
    const pageSize: nat
    /** Whether the service answers the second version of the list call, or the first with or without `NextMarker`. */
    const sendsToken: bool
    const sendsMarker: bool

    /** No object has the empty key, and a list request may return something. */
    ghost predicate Valid()
      reads this
    {
      "" !in objects && pageSize > 0
    }

    constructor (pageSize: nat, sendsToken: bool, sendsMarker: bool)
      requires pageSize > 0
      ensures Valid() && objects == map[] && this.pageSize == pageSize
      ensures this.sendsToken == sendsToken && this.sendsMarker == sendsMarker
    {
      objects := map[];
      this.pageSize := pageSize;
      this.sendsToken, this.sendsMarker := sendsToken, sendsMarker;
    }

    /** `list_objects(Prefix, Marker, MaxKeys)`: the next keys, and whether the list was cut short. */
    method ListPage(prefix: string, marker: string) returns (resp: Listing)
      requires Valid()
      ensures IsPage(objects, prefix, marker, resp.keys, resp.truncated)
      ensures |resp.keys| <= pageSize && (resp.truncated ==> |resp.keys| == pageSize)
      ensures resp.truncated <==> |After(objects, prefix, marker)| > pageSize
      ensures resp.truncated ==> resp.nextToken == if sendsToken then resp.keys[|resp.keys| - 1] else ""
      ensures resp.truncated ==> resp.nextMarker == if sendsMarker then resp.keys[|resp.keys| - 1] else ""
    {
      var rest := set k | k in objects && StartsWith(k, prefix) && Less(marker, k);
      ghost var all := rest;
      var page := [];
      while |page| < pageSize && rest != {}
        invariant |page| <= pageSize && Listed(all, page, rest)
        decreases rest
      {
        var least := LeastKey(rest);
        ListNext(all, page, rest, least);
        page := page + [least];
        rest := rest - {least};
      }
      ListedIsPage(objects, prefix, marker, page, rest);
      if rest != {} {
        resp := Listing(page, true,
                        if sendsToken then page[|page| - 1] else "",
                        if sendsMarker then page[|page| - 1] else "");
      } else {
        resp := Listing(page, false, "", "");
      }
    }

    /** `copy_object`; the source exists. */
    method Copy(source: string, dest: string)
      requires Valid() && source in objects && dest != ""
      modifies this
      ensures Valid() && objects == old(objects)[dest := old(objects)[source]]
    {
      objects := objects[dest := objects[source]];
    }

    /** `delete_object`; deleting a missing key is not an error. */
    method Delete(key: string)
      requires Valid()
      modifies this
      ensures Valid() && objects == old(objects) - {key}
    {
      objects := objects - {key};
    }

    method Put(key: string, body: Body)
      requires Valid() && key != ""
      modifies this
      ensures Valid() && objects == old(objects)[key := body]
    {
      objects := objects[key := body];
    }
  }

  lemma LastIsGreatest(keys: seq<string>, i: nat)
    requires Ascending(keys) && i < |keys|
    ensures !Less(keys[|keys| - 1], keys[i])
  {
    var last := keys[|keys| - 1];
    LessIrreflexive(last);
    if i < |keys| - 1 && Less(last, keys[i]) {
      LessTransitive(last, keys[i], last);
    }
  }

  /**
   * The S3 generator `_iter_prefix_object_keys`: keys are handed out one at a time, and the next
   * page is requested only when the current one is used up. Whoever consumes the keys may change
   * the store between two calls.
   */
  class KeyPager {
    const store: Store
    const prefixKey: string
    /** Keys of the current page not yet handed out. */
    var page: seq<string>
    /** Where the next list request resumes; "" is the start of the listing. */
    var resume: string
    /** Whether another list request follows the current page. */
    var more: bool

    ghost predicate Valid()
      reads this, store
    {
      && store.Valid()
      && Ascending(page)
      && (forall k :: k in page ==> StartsWith(k, prefixKey))
      && (more ==> forall k :: k in page ==> !Less(resume, k))
    }

    /** The keys this generator would still hand out if the store kept these objects. */
    ghost function Pending(objects: map<string, Body>): set<string>
      reads this
    {
      Held(page) + (if more then After(objects, prefixKey, resume) else {})
    }

    /** Deleting a key already handed out does not change what is pending. */
    lemma PendingAfterDelete(objects: map<string, Body>, key: string)
      requires key !in Pending(objects)
      ensures Pending(objects - {key}) == Pending(objects)
    {
    }

    /** Nor does writing a key outside the prefix. */
    lemma PendingAfterPut(objects: map<string, Body>, key: string, body: Body)
      requires !StartsWith(key, prefixKey)
      ensures Pending(objects[key := body]) == Pending(objects)
    {
    }

    constructor (store: Store, prefixKey: string)
      requires store.Valid()
      ensures Valid() && this.store == store && this.prefixKey == prefixKey
      ensures Pending(store.objects) == Under(store.objects, prefixKey)
    {
      this.store := store;
      this.prefixKey := prefixKey;
      page, resume, more := [], "", true;
      new;
      assert forall k :: k in store.objects ==> Less("", k);
    }

    /** Hands out one pending key and nothing else; ends exactly when none is pending. */
    method Next() returns (key: Option<string>)
      requires Valid()
      modifies this
      ensures Valid()
      ensures key.None? ==> old(Pending(store.objects)) == {}
      ensures key.Some? ==> key.value in old(Pending(store.objects)) &&
                            Pending(store.objects) == old(Pending(store.objects)) - {key.value}
    {
      while page == [] && more
        invariant Valid() && Pending(store.objects) == old(Pending(store.objects))
        decreases more, page == []
      {
        Fetch();
      }
      if page == [] {
        return None;
      }
      key := Some(page[0]);
      PopHead(page);
      page := page[1..];
    }

    /** One list request: the page replaces the used-up one and moves the resume key. */
    method Fetch()
      requires Valid() && page == [] && more
      modifies this
      ensures Valid() && Pending(store.objects) == old(Pending(store.objects))
      ensures more ==> page != []
    {
      var listed := store.ListPage(prefixKey, resume);
      var resp := NormalizeListV1(listed);
      PageReplaces(store.objects, prefixKey, resume, resp.keys, resp.truncated);
      assert Pending(store.objects) == After(store.objects, prefixKey, resume);
      page := resp.keys;
      if resp.truncated {
        resume := resp.nextToken;
        more := resume != "";
      } else {
        more := false;
      }
    }
  }

  /** What is pending once a page has replaced the used-up one. */
  lemma PageReplaces(objects: map<string, Body>, prefix: string, marker: string, page: seq<string>, truncated: bool)
    requires "" !in objects && IsPage(objects, prefix, marker, page, truncated)
    ensures !truncated ==> Held(page) == After(objects, prefix, marker)
    ensures truncated ==> page != [] && page[|page| - 1] != ""
    ensures truncated ==>
              Held(page) + After(objects, prefix, page[|page| - 1]) == After(objects, prefix, marker)
  {
    if truncated {
      NextPageContinues(objects, prefix, marker, page);
    }
  }

  /** Listing after a truncated page, from its last key, returns exactly what that page left out. */
  lemma NextPageContinues(objects: map<string, Body>, prefix: string, marker: string, page: seq<string>)
    requires "" !in objects && IsPage(objects, prefix, marker, page, true)
    ensures page[|page| - 1] != ""
    ensures After(objects, prefix, page[|page| - 1]) == After(objects, prefix, marker) - Held(page)
  {
    var last := page[|page| - 1];
    assert last in page;
    forall k | k in After(objects, prefix, last)
      ensures k in After(objects, prefix, marker)
    {
      LessTransitive(marker, last, k);
    }
  }

  lemma PopHead(keys: seq<string>)
    requires Ascending(keys) && keys != []
    ensures Held(keys[1..]) == Held(keys) - {keys[0]}
    ensures Ascending(keys[1..])
  {
    LessIrreflexive(keys[0]);
    assert forall k :: k in keys <==> k == keys[0] || k in keys[1..];
    assert forall j :: 0 < j < |keys| ==> keys[j] != keys[0];
    assert keys[0] !in keys[1..];
  }
}
