/** `ModelRegistry`: model names mapped to the factories that build them.
    A name is registered at most once, lookups of unknown names fail, and the
    names are listed in the order they were registered. */
module Registry {
  import opened Outcomes

  /** A model factory: calling it builds the model, or raises. */
  type Factory<M> = () -> Outcome<M>

  /** The message of the `ValueError` for a second registration of a name. */
  function AlreadyRegistered(name: string): string {
    "Model " + name + " is already registered"
  }

  /** The message of the `KeyError` for a name that is not registered. */
  function NotFound(name: string): string {
    "Model " + name + " not found in registry"
  }

  predicate NoDuplicates(names: seq<string>) {
    forall i, j :: 0 <= i < j < |names| ==> names[i] != names[j]
  }

  /** `ModelRegistry`. Python's dictionary `_models` is kept as the sequence
      of its keys in insertion order and the key-to-factory mapping.
      `registrations` counts the calls of `register_model` that succeeded. */
  class ModelRegistry<M> {
    var names: seq<string>
    var factories: map<string, Factory<M>>
    ghost var registrations: nat

    ghost predicate Valid()
      reads this
    {
      && NoDuplicates(names)
      && (forall n :: n in factories <==> n in names)
      && |names| == registrations
    }

    /** `__init__`: an empty registry. */
    constructor()
      ensures Valid()
      ensures names == [] && factories == map[] && registrations == 0
    {
      names := [];
      factories := map[];
      registrations := 0;
    }

    /** `register_model`: a name already present raises `ValueError` and
        changes nothing; a new name is appended with its factory. */
    method RegisterModel(modelName: string, modelFactory: Factory<M>) returns (r: Outcome<()>)
      requires Valid()
      modifies this
      ensures Valid()
      ensures old(modelName in factories) ==>
        && r == Raised(ValueError(AlreadyRegistered(modelName)))
        && names == old(names) && factories == old(factories) && registrations == old(registrations)
      ensures old(modelName !in factories) ==>
        && r == Ok(())
        && names == old(names) + [modelName]
        && factories == old(factories)[modelName := modelFactory]
        && registrations == old(registrations) + 1
    {
      if modelName in factories {
        return Raised(ValueError(AlreadyRegistered(modelName)));
      }
      factories := factories[modelName := modelFactory];
      names := names + [modelName];
      registrations := registrations + 1;
      r := Ok(());
    }

    /** `get_model`: an unknown name raises `KeyError`; a known one gives
        whatever its factory gives. */
    method GetModel(modelName: string) returns (r: Outcome<M>)
      requires Valid()
      ensures modelName !in names ==> r == Raised(KeyError(NotFound(modelName)))
      ensures modelName in names ==> modelName in factories && r == factories[modelName]()
    {
      if modelName !in factories {
        return Raised(KeyError(NotFound(modelName)));
      }
      r := factories[modelName]();
    }

    /** `list_models`: every registered name once, in registration order,
        as many names as there were successful registrations. */
    method ListModels() returns (r: seq<string>)
      requires Valid()
      ensures r == names
      ensures NoDuplicates(r)
      ensures forall n :: n in r <==> n in factories
      ensures |r| == registrations
    {
      r := names;
    }
  }

  /** `register_models`: registers the CodeLlama factory under "codellama". */
  method RegisterModels<M>(registry: ModelRegistry<M>, createCodellamaInstance: Factory<M>) returns (r: Outcome<()>)
    requires registry.Valid()
    modifies registry
    ensures registry.Valid()
    ensures "codellama" in registry.factories
    ensures old("codellama" in registry.factories) ==>
      && r == Raised(ValueError(AlreadyRegistered("codellama")))
      && registry.names == old(registry.names) && registry.factories == old(registry.factories)
    ensures old("codellama" !in registry.factories) ==>
      && r == Ok(())
      && registry.names == old(registry.names) + ["codellama"]
      && registry.factories == old(registry.factories)["codellama" := createCodellamaInstance]
  {
    r := registry.RegisterModel("codellama", createCodellamaInstance);
  }

  /** Module initialisation: the global registry is created and
      `register_models` runs once, leaving exactly "codellama" registered. */
  method InitializeModule<M>(createCodellamaInstance: Factory<M>) returns (registry: ModelRegistry<M>)
    ensures fresh(registry) && registry.Valid()
    ensures registry.names == ["codellama"]
    ensures registry.factories == map["codellama" := createCodellamaInstance]
  {
    registry := new ModelRegistry();
    var r := RegisterModels(registry, createCodellamaInstance);
  }
}
