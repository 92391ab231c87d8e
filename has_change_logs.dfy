/** The `HasChangeLogs` trait: the hook implementations a model gets by using
    it, and its relation queries as filters over the log table. */
module HasChangeLogs {
  import opened Values
  import opened RecordAction
  import opened ChangeLogsConfig
  import opened Entities
  import opened ChangeLogModel

  /** `getChangeLogExcludedFields()`: the configured hidden fields, the model's
      `$hidden`, and the timestamps when the key `excluded_timestamps` (not the
      shipped `exclude_timestamps`) is true or missing. */
  function TraitExcludedFields(cfg: Config, hidden: seq<string>): (r: seq<string>)
    ensures forall x :: x in r <==>
      x in cfg.hiddenFields || x in hidden || (ExcludedTimestampsFlag(cfg) && x in TimestampFields)
  {
    cfg.hiddenFields + hidden + if ExcludedTimestampsFlag(cfg) then TimestampFields else []
  }

  /** `shouldLogChanges($action)`: off when logging is disabled, otherwise the
      action's entry in `track_actions`, true when the entry is missing. */
  function ShouldLogChanges(cfg: Config, a: Action): (r: bool)
    ensures !cfg.enabled ==> !r
    ensures cfg.enabled ==> r == TrackAction(cfg, match a
      case Create => "create"
      case Update => "update"
      case Delete => "delete"
      case Restore => "restore")
  {
    NameCase(a);
    cfg.enabled && TrackAction(cfg, Lower(Name(a)))
  }

  /** `formatChangeLogValue($value, $field)`: `\DateTime` objects become their
      'Y-m-d H:i:s' text, other objects with `toArray` become that array, and
      every other value, booleans included, is returned unchanged. */
  function TraitFormatValue(v: Val, field: string): (r: Val)
    ensures v.Date? && v.mutable ==> r == Str(v.ymdHis)
    ensures v.Date? && !v.mutable && v.arrayForm.Some? ==> r == Arr(v.arrayForm.value)
    ensures v.Obj? && v.toArray.Some? ==> r == Arr(v.toArray.value)
    ensures !v.Date? && !(v.Obj? && v.toArray.Some?) ==> r == v
    ensures v.Date? && !v.mutable && v.arrayForm.None? ==> r == v
  {
    match v
    case Date(text, mutable, arrayForm) =>
      if mutable then Str(text)
      else if arrayForm.Some? then Arr(arrayForm.value)
      else v
    case Obj(toArray) => if toArray.Some? then Arr(toArray.value) else v
    case _ => v
  }

  /** The hooks a model gets from the trait without overriding any:
      description null and no tags for every action. */
  function TraitHooks(hidden: seq<string>): Hooks {
    Hooks(
      excludedFields := Some((cfg: Config) => TraitExcludedFields(cfg, hidden)),
      formatValue := Some((v: Val, field: string) => TraitFormatValue(v, field)),
      description := Some((a: Action) => None),
      tags := Some((a: Action) => []),
      shouldLogChanges := Some((cfg: Config, a: Action) => ShouldLogChanges(cfg, a)))
  }

  /** A model class that uses the trait and overrides none of its methods. */
  function TraitModel(className: string, key: string, original: map<string, Val>,
                      attributes: Fields, hidden: seq<string>): Entity
  {
    Entity(className, key, original, attributes, hidden, TraitHooks(hidden))
  }

  // ---------------------------------------------------------------------
  // Relation queries

  /** `changeLogs()`: the rows whose polymorphic reference is this model,
      newest `created_at` first. */
  function ChangeLogs(records: seq<Record>, e: Entity): (r: seq<Record>)
    ensures forall x :: x in r <==>
      x in records && x.data.loggableType == e.className && x.data.loggableId == e.key
    ensures NewestFirst(r)
    ensures multiset(r) == multiset(FilterAll(records, [TypeIs(e.className), IdIs(e.key)]))
  {
    var cs := [TypeIs(e.className), IdIs(e.key)];
    forall x ensures AllHold(cs, x) <==> Holds(cs[0], x) && Holds(cs[1], x) {
      AllHoldSnoc([TypeIs(e.className)], IdIs(e.key), x);
      AllHoldSnoc([], TypeIs(e.className), x);
      assert [TypeIs(e.className)] == [] + [TypeIs(e.className)];
    }
    var q := FilterAll(records, cs);
    var r := SortNewestFirst(q);
    SameRows(r, q);
    r
  }

  /** `changeLogsByAction($action)`: this model's rows whose action is the
      upper-cased argument, newest first. */
  function ChangeLogsByAction(records: seq<Record>, e: Entity, action: string): (r: seq<Record>)
    ensures forall x :: x in r <==> x in ChangeLogs(records, e) && Name(x.data.action) == Upper(action)
    ensures NewestFirst(r)
  {
    WhereKeepsNewestFirst(ChangeLogs(records, e), ActionIs(Upper(action)));
    Where(ChangeLogs(records, e), ActionIs(Upper(action)))
  }

  /** `changeLogsByUser($userId)`: this model's rows by that user; a null
      argument selects the rows without a user. */
  function ChangeLogsByUser(records: seq<Record>, e: Entity, user: Option<string>): (r: seq<Record>)
    ensures forall x :: x in r <==> x in ChangeLogs(records, e) && x.data.userId == user
    ensures NewestFirst(r)
  {
    WhereKeepsNewestFirst(ChangeLogs(records, e), UserIs(user));
    Where(ChangeLogs(records, e), UserIs(user))
  }

  /** `recentChangeLogs($limit = 20)`: the newest `limit` rows of this model. */
  function RecentChangeLogs(records: seq<Record>, e: Entity, limit: int := 20): (r: seq<Record>)
    ensures r <= ChangeLogs(records, e)
    ensures 0 <= limit ==> |r| <= limit
    ensures 0 <= limit <= |ChangeLogs(records, e)| ==> |r| == limit
    ensures NewestFirst(r)
  {
    Limit(ChangeLogs(records, e), limit)
  }

  /** `hasChangeLogs()`. */
  function HasChangeLogs(records: seq<Record>, e: Entity): (b: bool)
    ensures b <==> exists x :: x in records && x.data.loggableType == e.className && x.data.loggableId == e.key
  {
    var logs := ChangeLogs(records, e);
    assert |logs| > 0 ==> logs[0] in logs;
    |logs| > 0
  }

  /** `lastChangeLog()`: this model's row that is newest by `created_at`, ties
      going to the greater key; none when the model has no rows. */
  function LastChangeLog(records: seq<Record>, e: Entity): (r: Option<Record>)
    ensures r.None? <==> !HasChangeLogs(records, e)
    ensures r.Some? ==> r.value in ChangeLogs(records, e)
    ensures r.Some? ==> forall x :: x in ChangeLogs(records, e) ==> !Later(x, r.value)
  {
    Latest(ChangeLogs(records, e))
  }
}
