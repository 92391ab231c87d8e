/** `ChangeLogObserver`: one handler per model event, each a guard on the
    model's `shouldLogChanges` followed by one call into the service. */
module ChangeLogObserver {
  import opened Values
  import opened RecordAction
  import opened ChangeLogsConfig
  import opened Entities
  import opened ChangeLogModel
  import opened ChangeLogService

  /** `shouldLog`: the model's `shouldLogChanges($action)` when it defines
      one, otherwise true. */
  function ShouldLog(cfg: Config, e: Entity, a: Action): (b: bool)
    ensures e.hooks.shouldLogChanges.None? ==> b
    ensures e.hooks.shouldLogChanges.Some? ==> b == e.hooks.shouldLogChanges.value(cfg, a)
  {
    if e.hooks.shouldLogChanges.Some? then e.hooks.shouldLogChanges.value(cfg, a) else true
  }

  /** The "created" event. */
  method Created(store: LogStore, cfg: Config, ctx: Context, e: Entity)
    requires store.Valid()
    modifies store
    ensures store.Valid()
    ensures !ShouldLog(cfg, e, Create) ==> store.records == old(store.records)
    ensures ShouldLog(cfg, e, Create) ==>
      Appended(store.records, old(store.records), [CreateEntry(cfg, ctx, e)], ctx.today, ctx.now)
  {
    if !ShouldLog(cfg, e, Create) {
      return;
    }
    LogCreate(store, cfg, ctx, e);
  }

  /** The "updated" event: only the dirty attributes are passed on, and
      nothing happens when there are none. */
  method Updated(store: LogStore, cfg: Config, ctx: Context, e: Entity)
    requires store.Valid()
    modifies store
    ensures store.Valid()
    ensures !ShouldLog(cfg, e, Update) || Dirty(e) == [] ==> store.records == old(store.records)
    ensures ShouldLog(cfg, e, Update) ==>
      Appended(store.records, old(store.records), UpdateEntries(cfg, ctx, e, Dirty(e)), ctx.today, ctx.now)
  {
    if !ShouldLog(cfg, e, Update) {
      return;
    }
    var changes := Dirty(e);
    if changes == [] {
      assert WithoutKeys(changes, Excluded(cfg, e)) == [];
      AppendedNothing(store.records, ctx.today, ctx.now);
      return;
    }
    LogUpdate(store, cfg, ctx, e, changes);
  }

  /** The "deleted" event. */
  method Deleted(store: LogStore, cfg: Config, ctx: Context, e: Entity)
    requires store.Valid()
    modifies store
    ensures store.Valid()
    ensures !ShouldLog(cfg, e, Delete) ==> store.records == old(store.records)
    ensures ShouldLog(cfg, e, Delete) ==>
      Appended(store.records, old(store.records), [DeleteEntry(cfg, ctx, e, false)], ctx.today, ctx.now)
  {
    if !ShouldLog(cfg, e, Delete) {
      return;
    }
    LogDelete(store, cfg, ctx, e);
  }

  /** The "restored" event. */
  method Restored(store: LogStore, cfg: Config, ctx: Context, e: Entity)
    requires store.Valid()
    modifies store
    ensures store.Valid()
    ensures !ShouldLog(cfg, e, Restore) ==> store.records == old(store.records)
    ensures ShouldLog(cfg, e, Restore) ==>
      Appended(store.records, old(store.records), [RestoreEntry(cfg, ctx, e)], ctx.today, ctx.now)
  {
    if !ShouldLog(cfg, e, Restore) {
      return;
    }
    LogRestore(store, cfg, ctx, e);
  }

  /** The "forceDeleted" event: gated on DELETE and logged exactly like a
      plain delete, since `logDelete` is called without `forceDelete`. */
  method ForceDeleted(store: LogStore, cfg: Config, ctx: Context, e: Entity)
    requires store.Valid()
    modifies store
    ensures store.Valid()
    ensures !ShouldLog(cfg, e, Delete) ==> store.records == old(store.records)
    ensures ShouldLog(cfg, e, Delete) ==>
      Appended(store.records, old(store.records), [DeleteEntry(cfg, ctx, e, false)], ctx.today, ctx.now)
  {
    if !ShouldLog(cfg, e, Delete) {
      return;
    }
    LogDelete(store, cfg, ctx, e);
  }

  /** The row a force delete leaves through the observer carries neither the
      ' (Permanent)' suffix nor a 'force_delete' tag the model did not add
      itself, unlike the row `logDelete` writes when asked to force. */
  lemma ForceDeleteUnmarked(cfg: Config, ctx: Context, e: Entity)
    requires "force_delete" !in Tags(e, Delete)
    ensures var d := DeleteEntry(cfg, ctx, e, false);
      && "force_delete" !in d.tags
      && d.description == Some(Description(e, Delete).GetOr(""))
    ensures var d := DeleteEntry(cfg, ctx, e, true);
      && "force_delete" in d.tags
      && d.description == Some(Description(e, Delete).GetOr("") + " (Permanent)")
  {
    DeleteMarkers(cfg, ctx, e, false);
    DeleteMarkers(cfg, ctx, e, true);
  }

  /** An update that touches only excluded fields appends nothing, and one
      that touches a loggable field appends at least one row. */
  lemma UpdateLogsIffLoggableChange(cfg: Config, ctx: Context, e: Entity)
    ensures UpdateEntries(cfg, ctx, e, Dirty(e)) == [] <==>
      forall f :: f in Dirty(e) ==> f.name in Excluded(cfg, e)
  {
    var remaining := WithoutKeys(Dirty(e), Excluded(cfg, e));
    if remaining != [] {
      assert remaining[0] in remaining;
    }
  }
}
