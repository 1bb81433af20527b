/** The settings store: the list of model configurations and whether the
    settings panel is open. `updateModel` merges a partial record into
    every configuration with the id; `removeModel` filters them out. */
module SettingsStore {
  import opened Common
  import opened Providers

  datatype ModelConfig = ModelConfig(id: string, name: string, provider: Provider, enabled: bool,
                                     apiKey: Option<string>, baseUrl: Option<string>,
                                     modelId: Option<string>)

  /** A `Partial<ModelConfig>`: `None` for a key the update does not carry.
      For the optional fields a carried key may hold `undefined`, which the
      spread copies over the old value, hence `Some(None)`. */
  datatype ModelPatch = ModelPatch(id: Option<string>, name: Option<string>, provider: Option<Provider>,
                                   enabled: Option<bool>, apiKey: Option<Option<string>>,
                                   baseUrl: Option<Option<string>>, modelId: Option<Option<string>>)

  const NoChange := ModelPatch(None, None, None, None, None, None, None)

  /** The configuration the store starts with. */
  const InitialModel := ModelConfig("exo-qwen-30b", "EXO Cluster", Exo, true, None,
                                    Some("http://10.244.250.55:8000/v1"),
                                    Some("mlx-community/Qwen3-30B-A3B-4bit"))

  /** `{ ...m, ...updates }`: each key the update carries is taken from it,
      every other key from `m`. */
  function Merge(m: ModelConfig, p: ModelPatch): (r: ModelConfig)
    ensures r.id == p.id.GetOr(m.id) && r.name == p.name.GetOr(m.name)
    ensures r.provider == p.provider.GetOr(m.provider) && r.enabled == p.enabled.GetOr(m.enabled)
    ensures r.apiKey == p.apiKey.GetOr(m.apiKey) && r.baseUrl == p.baseUrl.GetOr(m.baseUrl)
    ensures r.modelId == p.modelId.GetOr(m.modelId)
  {
    ModelConfig(
      if p.id.Some? then p.id.value else m.id,
      if p.name.Some? then p.name.value else m.name,
      if p.provider.Some? then p.provider.value else m.provider,
      if p.enabled.Some? then p.enabled.value else m.enabled,
      if p.apiKey.Some? then p.apiKey.value else m.apiKey,
      if p.baseUrl.Some? then p.baseUrl.value else m.baseUrl,
      if p.modelId.Some? then p.modelId.value else m.modelId)
  }

  /** The update that applies `p` and then `q`: `q`'s keys win. */
  function Then(p: ModelPatch, q: ModelPatch): ModelPatch {
    ModelPatch(
      if q.id.Some? then q.id else p.id,
      if q.name.Some? then q.name else p.name,
      if q.provider.Some? then q.provider else p.provider,
      if q.enabled.Some? then q.enabled else p.enabled,
      if q.apiKey.Some? then q.apiKey else p.apiKey,
      if q.baseUrl.Some? then q.baseUrl else p.baseUrl,
      if q.modelId.Some? then q.modelId else p.modelId)
  }

  /** An update with no keys changes nothing. */
  lemma MergeNoChange(m: ModelConfig)
    ensures Merge(m, NoChange) == m
  {
  }

  /** Applying the same update twice is applying it once. */
  lemma MergeIdempotent(m: ModelConfig, p: ModelPatch)
    ensures Merge(Merge(m, p), p) == Merge(m, p)
  {
  }

  /** Two updates in a row are one update whose keys are the union, the
      later one winning. */
  lemma MergeThen(m: ModelConfig, p: ModelPatch, q: ModelPatch)
    ensures Merge(Merge(m, p), q) == Merge(m, Then(p, q))
  {
  }

  /** The models after `updateModel`: each configuration with the id is
      merged with the update, the others stay, and so does the order. */
  function WithUpdate(models: seq<ModelConfig>, id: string, p: ModelPatch): (r: seq<ModelConfig>)
    ensures |r| == |models|
    ensures forall i :: 0 <= i < |r| && models[i].id == id ==> r[i] == Merge(models[i], p)
    ensures forall i :: 0 <= i < |r| && models[i].id != id ==> r[i] == models[i]
  {
    seq(|models|, i requires 0 <= i < |models| =>
      if models[i].id == id then Merge(models[i], p) else models[i])
  }

  /** Updating an id no configuration has changes nothing. */
  lemma UpdateUnknownModel(models: seq<ModelConfig>, id: string, p: ModelPatch)
    requires forall m :: m in models ==> m.id != id
    ensures WithUpdate(models, id, p) == models
  {
    var r := WithUpdate(models, id, p);
    assert forall i :: 0 <= i < |r| ==> models[i] in models;
  }

  /** Two updates of the same id in a row, when the first keeps the id, are
      one combined update. */
  lemma UpdateThen(models: seq<ModelConfig>, id: string, p: ModelPatch, q: ModelPatch)
    requires p.id.None? || p.id == Some(id)
    ensures WithUpdate(WithUpdate(models, id, p), id, q) == WithUpdate(models, id, Then(p, q))
  {
    var a := WithUpdate(WithUpdate(models, id, p), id, q);
    var b := WithUpdate(models, id, Then(p, q));
    forall i | 0 <= i < |models|
      ensures a[i] == b[i]
    {
      if models[i].id == id {
        MergeThen(models[i], p, q);
      }
    }
  }

  /** The models `removeModel` keeps: exactly those with another id. */
  function WithoutModel(models: seq<ModelConfig>, id: string): (r: seq<ModelConfig>)
    ensures |r| <= |models|
    ensures forall m :: m in r <==> m in models && m.id != id
  {
    if |models| == 0 then []
    else if models[0].id == id then WithoutModel(models[1..], id)
    else [models[0]] + WithoutModel(models[1..], id)
  }

  /** Removal keeps the survivors in order: those of `a + b` are those of
      `a` followed by those of `b`. */
  lemma {:induction false} WithoutModelAppend(a: seq<ModelConfig>, b: seq<ModelConfig>, id: string)
    ensures WithoutModel(a + b, id) == WithoutModel(a, id) + WithoutModel(b, id)
  {
    if |a| == 0 {
      assert a + b == b;
    } else {
      assert (a + b)[0] == a[0] && (a + b)[1..] == a[1..] + b;
      WithoutModelAppend(a[1..], b, id);
    }
  }

  /** Removing an id no configuration has changes nothing. */
  lemma {:induction false} WithoutUnknownModel(models: seq<ModelConfig>, id: string)
    requires forall m :: m in models ==> m.id != id
    ensures WithoutModel(models, id) == models
  {
    if |models| > 0 {
      assert models[0] in models;
      assert forall m :: m in models[1..] ==> m in models;
      WithoutUnknownModel(models[1..], id);
    }
  }

  /** Adding a configuration and removing its id leaves the others as they
      were, whatever else had that id. */
  lemma AddThenRemove(models: seq<ModelConfig>, m: ModelConfig)
    ensures WithoutModel(models + [m], m.id) == WithoutModel(models, m.id)
  {
    WithoutModelAppend(models, [m], m.id);
    assert WithoutModel([m], m.id) == [];
  }

  class Settings {
    var models: seq<ModelConfig>
    var isOpen: bool

    /** The initial state: the one EXO configuration, panel closed. */
    constructor()
      ensures models == [InitialModel] && !isOpen
      ensures models[0].id == "exo-qwen-30b" && models[0].provider == Exo && models[0].enabled
    {
      models := [InitialModel];
      isOpen := false;
    }

    /** `addModel`: appended at the end, with no check for a duplicate id. */
    method AddModel(model: ModelConfig)
      modifies this
      ensures models == old(models) + [model]
      ensures isOpen == old(isOpen)
    {
      models := models + [model];
    }

    /** `updateModel`: the update is merged into every configuration with the id. */
    method UpdateModel(id: string, updates: ModelPatch)
      modifies this
      ensures models == WithUpdate(old(models), id, updates)
      ensures isOpen == old(isOpen)
    {
      models := WithUpdate(models, id, updates);
    }

    /** `removeModel`: every configuration with the id goes. */
    method RemoveModel(id: string)
      modifies this
      ensures models == WithoutModel(old(models), id)
      ensures isOpen == old(isOpen)
    {
      models := WithoutModel(models, id);
    }

    /** `toggleSettings`: the panel flag flips, so two toggles restore it. */
    method ToggleSettings()
      modifies this
      ensures isOpen == !old(isOpen)
      ensures models == old(models)
    {
      isOpen := !isOpen;
    }
  }
}
