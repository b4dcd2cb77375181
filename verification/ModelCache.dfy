/** The chat-model factory: models are built lazily from the provider table and cached. */
module ModelCache {
  import opened Strings

  datatype Protocol = OpenAI | Anthropic | Bedrock

  /** `settings` stands for everything else a model or a connection is configured with. */
  datatype ModelConfig = ModelConfig(id: string, enabled: bool, responses: bool, nativeToolSearch: bool, settings: int)

  datatype ProviderConfig = ProviderConfig(id: string, protocol: Protocol, codex: bool,
                                           models: seq<ModelConfig>, settings: int)

  /** A built model is determined by the configuration it was built from. */
  datatype Instance = Instance(provider: ProviderConfig, model: ModelConfig, retries: Option<nat>)

  /** What `ProviderConfig` and `ModelConfig` accept: identifiers are not empty. */
  predicate ValidProvider(p: ProviderConfig) {
    p.id != "" && forall m :: m in p.models ==> m.id != ""
  }

  datatype CacheKey = CacheKey(ref: string, retries: Option<nat>)

  /** `ref.partition("/")`: the parts before and behind the first slash. */
  function Partition(ref: string): (string, string) {
    if ref == "" then ("", "")
    else if ref[0] == '/' then ("", ref[1..])
    else
      var (head, tail) := Partition(ref[1..]);
      ([ref[0]] + head, tail)
  }

  function GetModel(models: seq<ModelConfig>, id: string): Option<ModelConfig> {
    if models == [] then None
    else if models[0].id == id then Some(models[0])
    else GetModel(models[1..], id)
  }

  /** `_build`: None when the builder rejects the configuration. */
  function Build(p: ProviderConfig, m: ModelConfig, retries: Option<nat>): Option<Instance> {
    if p.protocol.OpenAI? && m.nativeToolSearch && !(p.codex || m.responses) then None
    else Some(Instance(p, m, retries))
  }

  /** What building a model from the provider table as it stands would give. */
  function Fresh(providers: map<string, ProviderConfig>, key: CacheKey): Option<Instance> {
    var (providerKey, modelId) := Partition(key.ref);
    if providerKey !in providers then None
    else
      var p := providers[providerKey];
      match GetModel(p.models, modelId)
      case None => None
      case Some(m) => if m.enabled then Build(p, m, key.retries) else None
  }

  /** Every cached model is the one that building it now would give. */
  ghost predicate Coherent(providers: map<string, ProviderConfig>, cache: map<CacheKey, Instance>) {
    forall k :: k in cache ==> Fresh(providers, k) == Some(cache[k])
  }

  ghost predicate ValidTable(providers: map<string, ProviderConfig>) {
    forall id :: id in providers ==> ValidProvider(providers[id])
  }

  // ----- References and provider identifiers -----

  lemma {:induction false} PartitionSpec(ref: string)
    ensures var (head, tail) := Partition(ref);
            && '/' !in head
            && (if '/' in ref then ref == head + "/" + tail else ref == head && tail == "")
  {
    if ref == "" || ref[0] == '/' {
    } else {
      PartitionSpec(ref[1..]);
      var (head, tail) := Partition(ref[1..]);
      assert ref == [ref[0]] + ref[1..];
      assert '/' in ref <==> '/' in ref[1..];
      if '/' in ref {
        assert ref == [ref[0]] + head + "/" + tail;
      }
    }
  }

  lemma {:induction false} PartitionAt(id: string, tail: string)
    requires '/' !in id
    ensures Partition(id + "/" + tail) == (id, tail)
  {
    var ref := id + "/" + tail;
    if id == "" {
      assert ref[1..] == tail;
    } else {
      assert id[0] in id && forall c :: c in id[1..] ==> c in id;
      assert ref[1..] == id[1..] + "/" + tail;
      PartitionAt(id[1..], tail);
      assert [id[0]] + id[1..] == id;
    }
  }

  /** A reference starts with a provider's name and a slash exactly when that provider is the one looked up for it. */
  lemma RefersToProvider(ref: string, id: string)
    requires '/' !in id
    ensures StartsWith(ref, id + "/") <==> '/' in ref && Partition(ref).0 == id
  {
    PartitionSpec(ref);
    if StartsWith(ref, id + "/") {
      assert ref == id + "/" + ref[|id| + 1..];
      PartitionAt(id, ref[|id| + 1..]);
      assert ref[|id|] == '/';
    }
  }

  lemma {:induction false} NoNamelessModel(models: seq<ModelConfig>)
    requires forall m :: m in models ==> m.id != ""
    ensures GetModel(models, "").None?
  {
    if models == [] {
    } else {
      assert models[0] in models && forall m :: m in models[1..] ==> m in models;
      NoNamelessModel(models[1..]);
    }
  }

  /** A reference that names a buildable model has a slash in it. */
  lemma BuildableHasSlash(providers: map<string, ProviderConfig>, key: CacheKey)
    requires ValidTable(providers) && Fresh(providers, key).Some?
    ensures '/' in key.ref
  {
    PartitionSpec(key.ref);
    if '/' !in key.ref {
      NoNamelessModel(providers[Partition(key.ref).0].models);
    }
  }

  // ----- Eviction keeps the cache coherent -----

  /** The cache without the references to one provider. */
  function Evicted(cache: map<CacheKey, Instance>, id: string): map<CacheKey, Instance> {
    map k | k in cache && !StartsWith(k.ref, id + "/") :: cache[k]
  }

  function Popped(cache: map<CacheKey, Instance>, ref: string): map<CacheKey, Instance> {
    map k | k in cache && k.ref != ref :: cache[k]
  }

  /** A change of one provider's entry, followed by evicting that provider, keeps every other cached model right. */
  lemma EvictionRestores(before: map<string, ProviderConfig>, after: map<string, ProviderConfig>,
                         cache: map<CacheKey, Instance>, id: string)
    requires ValidTable(before) && Coherent(before, cache)
    requires forall other :: other != id ==> (other in after <==> other in before)
    requires forall other :: other != id && other in before ==> after[other] == before[other]
    ensures Coherent(after, Evicted(cache, id))
  {
    forall k | k in Evicted(cache, id)
      ensures Fresh(after, k) == Some(cache[k])
    {
      BuildableHasSlash(before, k);
      PartitionSpec(k.ref);
      if '/' !in id {
        RefersToProvider(k.ref, id);
      }
      assert Partition(k.ref).0 != id;
    }
  }

  // ----- The factory and the manager -----

  datatype GetResult = Model(instance: Instance) | Error

  /** `max_retries`: None, or a non-negative number. */
  function Retries(max: Option<int>): Option<Option<nat>> {
    if max.None? then Some(None)
    else if max.value >= 0 then Some(Some(max.value))
    else None
  }

  class ChatModelFactory {
    var providers: map<string, ProviderConfig>
    var cache: map<CacheKey, Instance>

    ghost predicate Valid()
      reads this
    {
      ValidTable(providers) && Coherent(providers, cache)
    }

    constructor (configs: seq<ProviderConfig>)
      requires forall p :: p in configs ==> ValidProvider(p)
      ensures Valid() && cache == map[]
      ensures forall i :: 0 <= i < |configs| && (forall j :: i < j < |configs| ==> configs[j].id != configs[i].id) ==>
                configs[i].id in providers && providers[configs[i].id] == configs[i]
    {
      var table: map<string, ProviderConfig> := map[];
      for n := 0 to |configs|
        invariant ValidTable(table)
        invariant forall i :: 0 <= i < n && (forall j :: i < j < n ==> configs[j].id != configs[i].id) ==>
                    configs[i].id in table && table[configs[i].id] == configs[i]
      {
        assert configs[n] in configs;
        table := table[configs[n].id := configs[n]];
      }
      providers, cache := table, map[];
    }

    /** `get_chat_model`: whatever the cache held, the result is what building now would give. */
    method GetChatModel(ref: string, maxRetries: Option<int>) returns (r: GetResult)
      requires Valid()
      modifies this`cache
      ensures Valid()
      ensures Retries(maxRetries).None? ==> r.Error? && cache == old(cache)
      ensures Retries(maxRetries).Some? ==>
                var key := CacheKey(ref, Retries(maxRetries).value);
                var fresh_ := Fresh(providers, key);
                && r == (if fresh_.Some? then Model(fresh_.value) else Error)
                && cache == (if fresh_.Some? then old(cache)[key := fresh_.value] else old(cache))
                && State(providers, cache) == Step(State(providers, old(cache)), Get(ref, key.retries))
      ensures maxRetries.Some? && maxRetries.value < 0 ==> r.Error?
      ensures r.Model? ==> r.instance.retries == if maxRetries.Some? then Some(maxRetries.value) else None
    {
      if maxRetries.Some? && maxRetries.value < 0 {
        return Error;
      }
      var key := CacheKey(ref, if maxRetries.None? then None else Some(maxRetries.value));
      if key in cache {
        assert cache[key := cache[key]] == cache;
        return Model(cache[key]);
      }
      var (providerKey, modelId) := Partition(ref);
      if providerKey !in providers {
        return Error;
      }
      var provider := providers[providerKey];
      var model := GetModel(provider.models, modelId);
      if model.None? || !model.value.enabled {
        return Error;
      }
      var instance := Build(provider, model.value, key.retries);
      if instance.None? {
        return Error;
      }
      cache := cache[key := instance.value];
      r := Model(instance.value);
    }

    /** `pop_cached`: every retry variant of the reference goes. */
    method PopCached(ref: string)
      modifies this`cache
      ensures cache == Popped(old(cache), ref)
      ensures State(providers, cache) == Step(State(providers, old(cache)), Pop(ref))
    {
      var keys := cache.Keys;
      while keys != {}
        invariant keys <= old(cache).Keys
        invariant cache == map k | k in old(cache) && (k in keys || k.ref != ref) :: old(cache)[k]
        decreases keys
      {
        var key :| key in keys;
        keys := keys - {key};
        if key.ref == ref {
          cache := cache - {key};
        }
      }
    }

    /** `clear_provider_cache`. */
    method ClearProviderCache(id: string)
      modifies this`cache
      ensures cache == Evicted(old(cache), id)
    {
      var refs := set k | k in cache :: k.ref;
      ghost var all := refs;
      while refs != {}
        invariant refs <= all
        invariant cache == map k | k in old(cache) && (k.ref in refs || !StartsWith(k.ref, id + "/")) :: old(cache)[k]
        decreases refs
      {
        var ref :| ref in refs;
        refs := refs - {ref};
        if StartsWith(ref, id + "/") {
          PopCached(ref);
        }
      }
    }

    method Close()
      modifies this`cache
      ensures cache == map[]
      ensures State(providers, cache) == Step(State(providers, old(cache)), CloseAll)
    {
      cache := map[];
    }
  }

  class AgentManager {
    var sharedFactory: ChatModelFactory?

    constructor ()
      ensures sharedFactory == null
    {
      sharedFactory := null;
    }

    method AddProvider(provider: ProviderConfig)
      requires ValidProvider(provider)
      requires sharedFactory != null ==> sharedFactory.Valid()
      modifies this, sharedFactory
      ensures sharedFactory != null && sharedFactory.Valid()
      ensures old(sharedFactory) == null ==> fresh(sharedFactory) && sharedFactory.cache == map[]
      ensures old(sharedFactory) != null ==>
                && sharedFactory == old(sharedFactory)
                && sharedFactory.providers == old(sharedFactory.providers)[provider.id := provider]
                && sharedFactory.cache == Evicted(old(sharedFactory.cache), provider.id)
                && State(sharedFactory.providers, sharedFactory.cache) ==
                   Step(State(old(sharedFactory.providers), old(sharedFactory.cache)), Add(provider))
    {
      if sharedFactory == null {
        sharedFactory := new ChatModelFactory([provider]);
        return;
      }
      var factory := sharedFactory;
      factory.providers := factory.providers[provider.id := provider];
      factory.ClearProviderCache(provider.id);
      EvictionRestores(old(factory.providers), factory.providers, old(factory.cache), provider.id);
    }

    method RemoveProvider(id: string)
      requires sharedFactory != null ==> sharedFactory.Valid()
      modifies sharedFactory
      ensures sharedFactory == old(sharedFactory)
      ensures sharedFactory != null ==>
                && sharedFactory.Valid()
                && sharedFactory.providers == old(sharedFactory.providers) - {id}
                && sharedFactory.cache == Evicted(old(sharedFactory.cache), id)
                && State(sharedFactory.providers, sharedFactory.cache) ==
                   Step(State(old(sharedFactory.providers), old(sharedFactory.cache)), Remove(id))
    {
      if sharedFactory == null {
        return;
      }
      var factory := sharedFactory;
      factory.providers := factory.providers - {id};
      factory.ClearProviderCache(id);
      EvictionRestores(old(factory.providers), factory.providers, old(factory.cache), id);
    }
  }

  // ----- Whole runs -----

  datatype State = State(providers: map<string, ProviderConfig>, cache: map<CacheKey, Instance>)

  datatype Op =
    | Get(ref: string, retries: Option<nat>)
    | Add(provider: ProviderConfig)
    | Remove(id: string)
    | Pop(ref: string)
    | CloseAll

  function Step(s: State, op: Op): State {
    match op
    case Get(ref, retries) =>
      var key := CacheKey(ref, retries);
      if key in s.cache || Fresh(s.providers, key).None? then s
      else s.(cache := s.cache[key := Fresh(s.providers, key).value])
    case Add(p) => State(s.providers[p.id := p], Evicted(s.cache, p.id))
    case Remove(id) => State(s.providers - {id}, Evicted(s.cache, id))
    case Pop(ref) => s.(cache := Popped(s.cache, ref))
    case CloseAll => s.(cache := map[])
  }

  function RunOps(s: State, ops: seq<Op>): State
    decreases |ops|
  {
    if ops == [] then s else RunOps(Step(s, ops[0]), ops[1..])
  }

  /** After any run of lookups, provider changes, evictions and closes, every cached model is up to date. */
  lemma {:induction false} RunKeepsCacheCoherent(s: State, ops: seq<Op>)
    requires ValidTable(s.providers) && Coherent(s.providers, s.cache)
    requires forall op :: op in ops && op.Add? ==> ValidProvider(op.provider)
    ensures Coherent(RunOps(s, ops).providers, RunOps(s, ops).cache)
    decreases |ops|
  {
    if ops == [] {
    } else {
      assert ops[0] in ops && forall op :: op in ops[1..] ==> op in ops;
      var t := Step(s, ops[0]);
      if ops[0].Add? {
        EvictionRestores(s.providers, t.providers, s.cache, ops[0].provider.id);
      } else if ops[0].Remove? {
        EvictionRestores(s.providers, t.providers, s.cache, ops[0].id);
      }
      RunKeepsCacheCoherent(t, ops[1..]);
    }
  }
}
