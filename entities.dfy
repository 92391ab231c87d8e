/** The audited model (an Eloquent model instance) as the pipeline sees it:
    its class and key, its original and current attributes, its `$hidden`
    list, and the customisation hooks it defines. */
module Entities {
  import opened Values
  import opened RecordAction
  import opened ChangeLogsConfig

  /** The optional methods the pipeline looks for with `method_exists`.
      `None` means the model does not define the method. Hooks that read the
      configuration take it as an argument. */
  datatype Hooks = Hooks(
    excludedFields: Option<Config -> seq<string>>,      // getChangeLogExcludedFields()
    formatValue: Option<(Val, string) -> Val>,          // formatChangeLogValue($value, $field)
    description: Option<Action -> Option<string>>,      // getChangeLogDescription($action)
    tags: Option<Action -> seq<string>>,                // getChangeLogTags($action)
    shouldLogChanges: Option<(Config, Action) -> bool>  // shouldLogChanges($action)
  )

  /** A model that defines none of the hooks. */
  const NoHooks: Hooks := Hooks(None, None, None, None, None)

  datatype Entity = Entity(
    className: string,           // get_class($model), also its morph class
    key: string,                 // $model->getKey()
    original: map<string, Val>,  // the snapshot returned by getOriginal()
    attributes: Fields,          // getAttributes(), in attribute order
    hidden: seq<string>,         // $model->hidden
    hooks: Hooks
  )

  /** `$model->getOriginal($field)`: null for a field the snapshot lacks. */
  function Original(e: Entity, field: string): Val {
    if field in e.original then e.original[field] else Null
  }

  /** Names of the attributes whose current value equals the original one. */
  function CleanNames(e: Entity): set<string> {
    set f | f in e.attributes && f.name in e.original && e.original[f.name] == f.value :: f.name
  }

  /** `$model->getDirty()`: the attributes that are new or differ from the
      original snapshot, in attribute order. */
  function Dirty(e: Entity): (r: Fields)
    ensures forall f :: f in r <==>
      f in e.attributes && (f.name !in e.original || e.original[f.name] != f.value)
  {
    var r := WithoutKeys(e.attributes, CleanNames(e));
    forall f | f in e.attributes && f.name in CleanNames(e)
      ensures f.name in e.original && e.original[f.name] == f.value
    {
      var g :| g in e.attributes && g.name in e.original && e.original[g.name] == g.value && g.name == f.name;
      var i :| 0 <= i < |e.attributes| && e.attributes[i] == f;
      var j :| 0 <= j < |e.attributes| && e.attributes[j] == g;
      assert i == j;
    }
    r
  }
}
