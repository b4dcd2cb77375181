/** Which model a reference names, and which cached models go with a provider or a reference. */
module ModelLookup {
  import opened Strings
  import opened ModelCache

  /** The first model of a list with this identifier. */
  predicate FirstModel(models: seq<ModelConfig>, id: string, i: nat) {
    i < |models| && models[i].id == id && forall j :: 0 <= j < i ==> models[j].id != id
  }

  /** The builder of OpenAI models refuses native tool search outside the responses interface. */
  predicate Buildable(p: ProviderConfig, m: ModelConfig) {
    p.protocol.OpenAI? && m.nativeToolSearch ==> p.codex || m.responses
  }

  lemma {:induction false} GetModelFirst(models: seq<ModelConfig>, id: string, i: nat)
    requires FirstModel(models, id, i)
    ensures GetModel(models, id) == Some(models[i])
  {
    if i == 0 {
    } else {
      assert models[0].id != id;
      assert forall j :: 0 <= j < i - 1 ==> models[1..][j] == models[j + 1];
      GetModelFirst(models[1..], id, i - 1);
    }
  }

  lemma {:induction false} GetModelSome(models: seq<ModelConfig>, id: string) returns (i: nat)
    requires GetModel(models, id).Some?
    ensures FirstModel(models, id, i)
  {
    if models[0].id == id {
      i := 0;
    } else {
      i := GetModelSome(models[1..], id);
      assert forall j :: 1 <= j < i + 1 ==> models[j] == models[1..][j - 1];
      i := i + 1;
    }
  }

  /** The model that the i-th entry of a provider's list is built to. */
  predicate BuiltFrom(p: ProviderConfig, id: string, retries: Option<nat>, i: nat, built: Instance) {
    && FirstModel(p.models, id, i) && p.models[i].enabled && Buildable(p, p.models[i])
    && built == Instance(p, p.models[i], retries)
  }

  /**
   * A reference is built exactly if its provider is in the table, the first model of that provider with the given
   * identifier is enabled, and its builder takes it; the model is then built from these and the given retries.
   */
  lemma FoundExactly(providers: map<string, ProviderConfig>, provider: string, id: string, retries: Option<nat>,
                     built: Instance)
    requires '/' !in provider
    ensures Fresh(providers, CacheKey(provider + "/" + id, retries)) == Some(built) <==>
            provider in providers && exists i: nat :: BuiltFrom(providers[provider], id, retries, i, built)
  {
    PartitionAt(provider, id);
    if provider in providers {
      var p := providers[provider];
      if GetModel(p.models, id).Some? {
        var i := GetModelSome(p.models, id);
        GetModelFirst(p.models, id, i);
        assert Fresh(providers, CacheKey(provider + "/" + id, retries)) == Some(built) <==>
               BuiltFrom(p, id, retries, i, built);
      }
      if i: nat :| BuiltFrom(p, id, retries, i, built) {
        GetModelFirst(p.models, id, i);
      }
    }
  }

  /** Evicting a provider drops the models of its references, and keeps every other one as it is. */
  lemma EvictedExactly(cache: map<CacheKey, Instance>, id: string, key: CacheKey)
    requires '/' !in id
    ensures key in Evicted(cache, id) <==> key in cache && !('/' in key.ref && Partition(key.ref).0 == id)
    ensures key in Evicted(cache, id) ==> Evicted(cache, id)[key] == cache[key]
  {
    RefersToProvider(key.ref, id);
  }

  /** Dropping a reference drops it with whatever retries it was cached, and nothing else. */
  lemma PoppedExactly(cache: map<CacheKey, Instance>, ref: string, key: CacheKey)
    ensures key in Popped(cache, ref) <==> key in cache && key.ref != ref
    ensures key in Popped(cache, ref) ==> Popped(cache, ref)[key] == cache[key]
  {
  }
}
