/** What the service and the observer do for a model that uses the
    `HasChangeLogs` trait: the trait's hooks shadow the service's own
    defaults, which changes how booleans are stored and which configuration
    key decides about timestamps. */
module TraitPipeline {
  import opened Values
  import opened RecordAction
  import opened ChangeLogsConfig
  import opened Entities
  import opened ChangeLogModel
  import opened HasChangeLogs
  import opened ChangeLogService
  import opened ChangeLogObserver

  /** The service stores a boolean as 'true'/'false', but a trait model's
      `formatChangeLogValue` wins and keeps the boolean as it is. */
  lemma TraitKeepsBooleans(className: string, key: string, original: map<string, Val>,
                           attributes: Fields, hidden: seq<string>, field: string, b: bool)
    ensures FormatValue(TraitModel(className, key, original, attributes, hidden), field, Bool(b)) == Bool(b)
    ensures FormatValue(Entity(className, key, original, attributes, hidden, NoHooks), field, Bool(b))
            == Str(if b then "true" else "false")
  {
  }

  /** Dates and `toArray` objects come out of the trait's formatter as from
      the service's, except immutable dates, which the trait does not
      recognise as `\DateTime`. */
  lemma TraitFormatsLikeServiceForMutableDates(className: string, key: string, original: map<string, Val>,
                                               attributes: Fields, hidden: seq<string>, field: string, v: Val)
    requires (v.Date? && v.mutable) || v.Obj?
    ensures FormatValue(TraitModel(className, key, original, attributes, hidden), field, v)
            == FormatValue(Entity(className, key, original, attributes, hidden, NoHooks), field, v)
  {
  }

  /** For a trait model the timestamps are excluded whenever the key
      `excluded_timestamps` is missing, whatever `exclude_timestamps` says;
      the model's `$hidden` is excluded as well. */
  lemma TraitTimestampsIgnoreShippedKey(cfg: Config, className: string, key: string, original: map<string, Val>,
                                        attributes: Fields, hidden: seq<string>, flag: bool)
    requires cfg.excludedTimestamps.None?
    ensures var m := TraitModel(className, key, original, attributes, hidden);
      && (forall t :: t in TimestampFields ==> t in Excluded(cfg, m))
      && (forall h :: h in hidden ==> h in Excluded(cfg, m))
      && Excluded(cfg.(excludeTimestamps := flag), m) == Excluded(cfg, m)
  {
    var m := TraitModel(className, key, original, attributes, hidden);
    assert ExcludedFields(cfg, m) == TraitExcludedFields(cfg, hidden);
    assert ExcludedFields(cfg.(excludeTimestamps := flag), m) == TraitExcludedFields(cfg, hidden);
  }

  /** Under the shipped configuration a trait model never logs a password
      or a timestamp: not in the CREATE, RESTORE or DELETE snapshot and not
      among the fields of an update. */
  lemma ShippedRedaction(ctx: Context, className: string, key: string, original: map<string, Val>,
                         attributes: Fields, hidden: seq<string>, x: string)
    requires x in ["password", "created_at", "updated_at", "deleted_at"]
    ensures var m := TraitModel(className, key, original, attributes, hidden);
      var created, restored := CreateEntry(Shipped, ctx, m), RestoreEntry(Shipped, ctx, m);
      var deleted := DeleteEntry(Shipped, ctx, m, false);
      && created.newValue.Arr? && x !in created.newValue.items
      && restored.newValue.Arr? && x !in restored.newValue.items
      && deleted.oldValue.Arr? && x !in deleted.oldValue.items
      && forall d :: d in UpdateEntries(Shipped, ctx, m, Dirty(m)) ==>
           && d.fieldColumn.None?
           && d.oldValue.Arr? && x !in d.oldValue.items
           && d.newValue.Arr? && x !in d.newValue.items
  {
    var m := TraitModel(className, key, original, attributes, hidden);
    assert ExcludedFields(Shipped, m) == TraitExcludedFields(Shipped, hidden);
    assert x in Excluded(Shipped, m);
    SnapshotRows(Shipped, ctx, m, false);
    NoExcludedKeyLogged(Shipped, ctx, m, Dirty(m));
  }

  /** The observer's gate for a trait model is `shouldLogChanges`: every
      action is logged under the shipped configuration and none once
      `enabled` is off. */
  lemma TraitGate(cfg: Config, className: string, key: string, original: map<string, Val>,
                  attributes: Fields, hidden: seq<string>, a: Action)
    ensures var m := TraitModel(className, key, original, attributes, hidden);
      && ShouldLog(cfg, m, a) == ShouldLogChanges(cfg, a)
      && ShouldLog(Shipped, m, a)
      && (!cfg.enabled ==> !ShouldLog(cfg, m, a))
  {
  }

  /** A trait model without overrides has no description and no tags, so its
      DELETE rows read '' and carry no tags. */
  lemma TraitDefaultsInRows(cfg: Config, ctx: Context, className: string, key: string, original: map<string, Val>,
                            attributes: Fields, hidden: seq<string>)
    ensures var m := TraitModel(className, key, original, attributes, hidden);
      && (forall a :: Description(m, a).None? && Tags(m, a) == [])
      && DeleteEntry(cfg, ctx, m, false).description == Some("")
      && DeleteEntry(cfg, ctx, m, false).tags == []
      && CreateEntry(cfg, ctx, m).description.None? && CreateEntry(cfg, ctx, m).tags == []
  {
    var m := TraitModel(className, key, original, attributes, hidden);
    DeleteMarkers(cfg, ctx, m, false);
  }
}
