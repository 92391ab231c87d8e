/** `ChangeLogService`: builds the log rows for each action, enriches them
    with the acting user and the request, and runs the queries, statistics
    and retention deletes over the log table. */
module ChangeLogService {
  import opened Values
  import opened RecordAction
  import opened ChangeLogsConfig
  import opened Entities
  import opened ChangeLogModel

  /** What the `Request` facade reports for the current request. */
  datatype Request = Request(ip: Option<string>, userAgent: Option<string>, verb: string, path: string)

  /** The ambient inputs of one call: `today()`, `now()`, `Auth::id()` and the request. */
  datatype Context = Context(today: Day, now: Timestamp, user: Option<string>, request: Request)

  // ---------------------------------------------------------------------
  // Policy helpers

  /** `getExcludedFields`: the model's own list when it defines the hook,
      otherwise `hidden_fields` plus the timestamps when `exclude_timestamps`. */
  function ExcludedFields(cfg: Config, e: Entity): (r: seq<string>)
    ensures e.hooks.excludedFields.Some? ==> r == e.hooks.excludedFields.value(cfg)
    ensures e.hooks.excludedFields.None? ==>
      forall x :: x in r <==> x in cfg.hiddenFields || (cfg.excludeTimestamps && x in TimestampFields)
  {
    if e.hooks.excludedFields.Some? then e.hooks.excludedFields.value(cfg)
    else cfg.hiddenFields + if cfg.excludeTimestamps then TimestampFields else []
  }

  function Excluded(cfg: Config, e: Entity): set<string> {
    set x | x in ExcludedFields(cfg, e)
  }

  /** `getLoggableAttributes`: the model's attributes without the excluded keys. */
  function LoggableAttributes(cfg: Config, e: Entity): (m: map<string, Val>)
    ensures m.Keys == Names(e.attributes) - Excluded(cfg, e)
    ensures forall f :: f in e.attributes && f.name !in Excluded(cfg, e) ==> f.name in m && m[f.name] == f.value
  {
    AsMap(WithoutKeys(e.attributes, Excluded(cfg, e)))
  }

  /** `formatValue`: the model's hook wins; otherwise dates become their
      'Y-m-d H:i:s' text, objects with `toArray` become that array, booleans
      become 'true'/'false', and anything else is kept. */
  function FormatValue(e: Entity, field: string, v: Val): (r: Val)
    ensures e.hooks.formatValue.Some? ==> r == e.hooks.formatValue.value(v, field)
    ensures e.hooks.formatValue.None? ==>
      && (v.Date? ==> r == Str(v.ymdHis))
      && (v.Obj? && v.toArray.Some? ==> r == Arr(v.toArray.value))
      && (v.Bool? ==> r == Str(if v.b then "true" else "false"))
      && (v.Null? || v.Num? || v.Str? || v.Arr? || (v.Obj? && v.toArray.None?) ==> r == v)
    ensures e.hooks.formatValue.None? ==> !r.Bool? && !r.Date?
  {
    if e.hooks.formatValue.Some? then e.hooks.formatValue.value(v, field)
    else match v
      case Date(text, _, _) => Str(text)
      case Obj(toArray) => if toArray.Some? then Arr(toArray.value) else v
      case Bool(b) => Str(if b then "true" else "false")
      case _ => v
  }

  /** `getDescription`: the model's hook, else null. */
  function Description(e: Entity, a: Action): Option<string> {
    if e.hooks.description.Some? then e.hooks.description.value(a) else None
  }

  /** `getTags`: the model's hook, else no tags. */
  function Tags(e: Entity, a: Action): seq<string> {
    if e.hooks.tags.Some? then e.hooks.tags.value(a) else []
  }

  /** The stored endpoint: the request path with exactly one leading slash
      added, the root path staying '/'. */
  function NormaliseEndpoint(path: string): (r: string)
    ensures |r| >= 1 && r[0] == '/'
    ensures path != "/" ==> r[1..] == path
    ensures path == "/" ==> r == "/"
  {
    if path == "/" then "/" else "/" + path
  }

  /** Laravel's `Request::path()` has no leading slash except for the root,
      so the stored endpoint never starts with two slashes. */
  lemma EndpointSingleSlash(path: string)
    requires path == "/" || path == "" || path[0] != '/'
    ensures var r := NormaliseEndpoint(path); r[0] == '/' && (|r| == 1 || r[1] != '/')
  {
  }

  /** The keys that `getUserInformation` may produce. */
  const ContextKeys: set<string> := {"user_id", "ip_address", "user_agent", "method", "endpoint"}

  /** What `getUserInformation` returns, key by key. */
  function UserInformation(cfg: Config, ctx: Context): (info: map<string, Option<string>>)
    ensures info.Keys <= ContextKeys
    ensures "user_id" in info && info["user_id"] == ctx.user
    ensures ("ip_address" in info <==> cfg.trackIp) && ("user_agent" in info <==> cfg.trackUserAgent)
    ensures ("method" in info <==> cfg.trackMethod) && ("endpoint" in info <==> cfg.trackEndpoint)
    ensures "ip_address" in info ==> info["ip_address"] == ctx.request.ip
    ensures "user_agent" in info ==> info["user_agent"] == ctx.request.userAgent
    ensures "method" in info ==> info["method"] == Some(Upper(ctx.request.verb))
    ensures "endpoint" in info ==> info["endpoint"] == Some(NormaliseEndpoint(ctx.request.path))
  {
    map k | k in ContextKeys && (k == "user_id" || (k == "ip_address" && cfg.trackIp)
                                  || (k == "user_agent" && cfg.trackUserAgent)
                                  || (k == "method" && cfg.trackMethod)
                                  || (k == "endpoint" && cfg.trackEndpoint))
      :: if k == "user_id" then ctx.user
         else if k == "ip_address" then ctx.request.ip
         else if k == "user_agent" then ctx.request.userAgent
         else if k == "method" then Some(Upper(ctx.request.verb))
         else Some(NormaliseEndpoint(ctx.request.path))
  }

  /** `getUserInformation()`, assigning the entries one toggle at a time. */
  method GetUserInformation(cfg: Config, ctx: Context) returns (info: map<string, Option<string>>)
    ensures info == UserInformation(cfg, ctx)
  {
    info := map["user_id" := ctx.user];
    if cfg.trackIp {
      info := info["ip_address" := ctx.request.ip];
    }
    if cfg.trackUserAgent {
      info := info["user_agent" := ctx.request.userAgent];
    }
    if cfg.trackMethod {
      info := info["method" := Some(Upper(ctx.request.verb))];
    }
    if cfg.trackEndpoint {
      var endpoint := ctx.request.path;
      info := info["endpoint" := if endpoint == "/" then Some("/") else Some("/" + endpoint)];
    }
  }

  /** `array_merge($logData, $info)`: the context entries overwrite the row's. */
  function Merge(d: LogData, info: map<string, Option<string>>): LogData {
    d.(userId := if "user_id" in info then info["user_id"] else d.userId,
       ipAddress := if "ip_address" in info then info["ip_address"] else d.ipAddress,
       userAgent := if "user_agent" in info then info["user_agent"] else d.userAgent,
       httpMethod := if "method" in info then info["method"] else d.httpMethod,
       endpoint := if "endpoint" in info then info["endpoint"] else d.endpoint)
  }

  /** The columns an action's builder fills in, as opposed to the context ones. */
  predicate SamePayload(r: LogData, d: LogData) {
    && r.loggableType == d.loggableType && r.loggableId == d.loggableId
    && r.action == d.action && r.fieldColumn == d.fieldColumn
    && r.oldValue == d.oldValue && r.newValue == d.newValue
    && r.description == d.description && r.tags == d.tags
  }

  /** The row `createLog` hands to the table, column by column: the acting
      user, the request details whose toggle is on, the builder's columns
      otherwise, and the date defaulted to today. */
  function Enriched(cfg: Config, ctx: Context, d: LogData): (r: LogData)
    ensures SamePayload(r, d)
    ensures r.date.Some? && (d.date.Some? ==> r.date == d.date)
  {
    var r := d.(userId := ctx.user,
                ipAddress := if cfg.trackIp then ctx.request.ip else d.ipAddress,
                userAgent := if cfg.trackUserAgent then ctx.request.userAgent else d.userAgent,
                httpMethod := if cfg.trackMethod then Some(Upper(ctx.request.verb)) else d.httpMethod,
                endpoint := if cfg.trackEndpoint then Some(NormaliseEndpoint(ctx.request.path)) else d.endpoint);
    if r.date.None? then r.(date := Some(ctx.today)) else r
  }

  /** `createLog` merges `getUserInformation()` over the row with
      `array_merge` and then defaults the date: that is the column-wise row
      above, so the context never overwrites the builder's payload. */
  lemma MergeEnriches(cfg: Config, ctx: Context, d: LogData)
    ensures var m := Merge(d, UserInformation(cfg, ctx));
      (if m.date.None? then m.(date := Some(ctx.today)) else m) == Enriched(cfg, ctx, d)
  {
  }

  // ---------------------------------------------------------------------
  // The rows each action produces

  /** A row as an action builder writes it, before `createLog` adds the context. */
  function Row(e: Entity, a: Action, field: Option<string>, oldValue: Val, newValue: Val,
               description: Option<string>, tags: seq<string>, today: Day): LogData {
    LogData(e.className, e.key, a, field, oldValue, newValue,
            None, None, None, None, None, description, tags, Some(today))
  }

  /** The CREATE row of `logCreate`. */
  function CreateEntry(cfg: Config, ctx: Context, e: Entity): LogData {
    Enriched(cfg, ctx, Row(e, Create, None, Null, Arr(LoggableAttributes(cfg, e)),
                           Description(e, Create), Tags(e, Create), ctx.today))
  }

  /** The RESTORE row of `logRestore`. */
  function RestoreEntry(cfg: Config, ctx: Context, e: Entity): LogData {
    Enriched(cfg, ctx, Row(e, Restore, None, Null, Arr(LoggableAttributes(cfg, e)),
                           Description(e, Restore), Tags(e, Restore), ctx.today))
  }

  /** The DELETE row of `logDelete`: string concatenation turns a null
      description into '' and a forced delete appends ' (Permanent)' and the
      tag 'force_delete'. */
  function DeleteEntry(cfg: Config, ctx: Context, e: Entity, force: bool): LogData {
    Enriched(cfg, ctx, Row(e, Delete, None, Arr(LoggableAttributes(cfg, e)), Null,
                           Some(Description(e, Delete).GetOr("") + if force then " (Permanent)" else ""),
                           Tags(e, Delete) + if force then ["force_delete"] else [], ctx.today))
  }

  /** The row of `logFieldChange` for one field. */
  function FieldChangeEntry(cfg: Config, ctx: Context, e: Entity, field: string, newValue: Val): LogData {
    Enriched(cfg, ctx, Row(e, Update, Some(field),
                           FormatValue(e, field, Original(e, field)), FormatValue(e, field, newValue),
                           Description(e, Update), Tags(e, Update), ctx.today))
  }

  /** A changed field's formatted original value, or its formatted new value. */
  function Formatted(e: Entity, f: Field, fromOriginal: bool): Val {
    if fromOriginal then FormatValue(e, f.name, Original(e, f.name)) else FormatValue(e, f.name, f.value)
  }

  /** The changed fields with their values formatted, original or new. */
  function FormattedFields(e: Entity, changes: Fields, fromOriginal: bool): (r: Fields)
    ensures |r| == |changes|
    ensures forall j :: 0 <= j < |r| ==> r[j] == Field(changes[j].name, Formatted(e, changes[j], fromOriginal))
  {
    var r := seq(|changes|, j requires 0 <= j < |changes| => Field(changes[j].name, Formatted(e, changes[j], fromOriginal)));
    assert DistinctNames(r) by {
      forall i, j | 0 <= i < j < |r| ensures r[i].name != r[j].name {
        assert r[i].name == changes[i].name && r[j].name == changes[j].name;
      }
    }
    r
  }

  /** The formatted original values of the changed fields. */
  function OldValues(e: Entity, changes: Fields): (m: map<string, Val>)
    ensures m.Keys == Names(changes)
    ensures forall j :: 0 <= j < |changes| ==>
      m[changes[j].name] == FormatValue(e, changes[j].name, Original(e, changes[j].name))
  {
    var r := FormattedFields(e, changes, true);
    assert Names(r) == Names(changes) by {
      assert forall j :: 0 <= j < |r| ==> r[j].name == changes[j].name;
    }
    AsMap(r)
  }

  /** The formatted new values of the changed fields. */
  function NewValues(e: Entity, changes: Fields): (m: map<string, Val>)
    ensures m.Keys == Names(changes)
    ensures forall j :: 0 <= j < |changes| ==> m[changes[j].name] == FormatValue(e, changes[j].name, changes[j].value)
  {
    var r := FormattedFields(e, changes, false);
    assert Names(r) == Names(changes) by {
      assert forall j :: 0 <= j < |r| ==> r[j].name == changes[j].name;
    }
    AsMap(r)
  }

  /** The single row of `logBulkChanges`. */
  function BulkEntry(cfg: Config, ctx: Context, e: Entity, changes: Fields): LogData {
    Enriched(cfg, ctx, Row(e, Update, None, Arr(OldValues(e, changes)), Arr(NewValues(e, changes)),
                           Description(e, Update), Tags(e, Update), ctx.today))
  }

  /** The rows of `logUpdate`: nothing when every change is excluded, one row
      per remaining field in per-field mode, else a single bulk row. */
  function UpdateEntries(cfg: Config, ctx: Context, e: Entity, changes: Fields): (ds: seq<LogData>)
    ensures var remaining := WithoutKeys(changes, Excluded(cfg, e));
      && (remaining == [] ==> ds == [])
      && (remaining != [] && cfg.logPerField ==>
            |ds| == |remaining|
            && forall k :: 0 <= k < |ds| ==>
                 ds[k] == FieldChangeEntry(cfg, ctx, e, remaining[k].name, remaining[k].value))
      && (remaining != [] && !cfg.logPerField ==> ds == [BulkEntry(cfg, ctx, e, remaining)])
  {
    var remaining := WithoutKeys(changes, Excluded(cfg, e));
    if remaining == [] then []
    else if cfg.logPerField then
      seq(|remaining|, k requires 0 <= k < |remaining| =>
        FieldChangeEntry(cfg, ctx, e, remaining[k].name, remaining[k].value))
    else [BulkEntry(cfg, ctx, e, remaining)]
  }

  // ---------------------------------------------------------------------
  // What the rows say

  /** CREATE and RESTORE rows carry no old value and the loggable attributes
      as new value; DELETE rows the reverse. All carry the model's class and
      key, the acting user and today's date. */
  lemma SnapshotRows(cfg: Config, ctx: Context, e: Entity, force: bool)
    ensures var c := CreateEntry(cfg, ctx, e);
      c.action == Create && c.fieldColumn.None? && c.oldValue == Null
      && c.newValue == Arr(LoggableAttributes(cfg, e))
    ensures var r := RestoreEntry(cfg, ctx, e);
      r.action == Restore && r.fieldColumn.None? && r.oldValue == Null
      && r.newValue == Arr(LoggableAttributes(cfg, e))
    ensures var d := DeleteEntry(cfg, ctx, e, force);
      d.action == Delete && d.fieldColumn.None? && d.newValue == Null
      && d.oldValue == Arr(LoggableAttributes(cfg, e))
    ensures var c := CreateEntry(cfg, ctx, e);
      c.loggableType == e.className && c.loggableId == e.key && c.userId == ctx.user && c.date == Some(ctx.today)
    ensures var r := RestoreEntry(cfg, ctx, e);
      r.loggableType == e.className && r.loggableId == e.key && r.userId == ctx.user && r.date == Some(ctx.today)
    ensures var d := DeleteEntry(cfg, ctx, e, force);
      d.loggableType == e.className && d.loggableId == e.key && d.userId == ctx.user && d.date == Some(ctx.today)
  {
  }

  /** The DELETE row's description and tags: a forced delete appends
      'force_delete' after the model's tags and ' (Permanent)' to the
      description; otherwise the tags are the model's and a null description
      is stored as ''. */
  lemma DeleteMarkers(cfg: Config, ctx: Context, e: Entity, force: bool)
    ensures var d := DeleteEntry(cfg, ctx, e, force);
      && d.description.Some?
      && (force ==> d.tags == Tags(e, Delete) + ["force_delete"]
                    && d.description.value == Description(e, Delete).GetOr("") + " (Permanent)")
      && (!force ==> d.tags == Tags(e, Delete) && d.description == Some(Description(e, Delete).GetOr("")))
      && (!force && Description(e, Delete).None? ==> d.description == Some(""))
  {
    var text := Description(e, Delete).GetOr("");
    assert text + "" == text;
  }

  /** No excluded key reaches a payload: not in a snapshot, not as a bulk
      key, not as the field of a per-field row. */
  lemma NoExcludedKeyLogged(cfg: Config, ctx: Context, e: Entity, changes: Fields)
    ensures forall x :: x in Excluded(cfg, e) ==> x !in LoggableAttributes(cfg, e)
    ensures forall d, x :: d in UpdateEntries(cfg, ctx, e, changes) && x in Excluded(cfg, e) ==>
      && d.fieldColumn != Some(x)
      && (d.fieldColumn.None? ==> d.oldValue.Arr? && x !in d.oldValue.items)
      && (d.fieldColumn.None? ==> d.newValue.Arr? && x !in d.newValue.items)
  {
    var remaining := WithoutKeys(changes, Excluded(cfg, e));
    if remaining != [] {
      var ds := UpdateEntries(cfg, ctx, e, changes);
      if cfg.logPerField {
        PerFieldRows(cfg, ctx, e, changes);
        PerFieldShapeOf(ds, remaining, e);
        forall d, x | d in ds && x in Excluded(cfg, e) ensures d.fieldColumn.Some? && d.fieldColumn != Some(x) {
        }
      } else {
        var b := BulkEntry(cfg, ctx, e, remaining);
        assert b.fieldColumn.None? && b.oldValue.items.Keys == Names(remaining) && b.newValue.items.Keys == Names(remaining);
        assert ds == [b];
        forall d, x | d in ds && x in Excluded(cfg, e)
          ensures d == b && x !in b.oldValue.items && x !in b.newValue.items
        {
        }
      }
    }
  }

  /** Bulk mode: one row without a field whose old and new maps have exactly
      the changed, non-excluded keys, the old values read from the original
      snapshot. */
  lemma BulkRowShape(cfg: Config, ctx: Context, e: Entity, changes: Fields)
    requires !cfg.logPerField
    requires exists f :: f in changes && f.name !in Excluded(cfg, e)
    ensures var ds := UpdateEntries(cfg, ctx, e, changes);
      && |ds| == 1 && ds[0].action == Update && ds[0].fieldColumn.None?
      && ds[0].oldValue.Arr? && ds[0].newValue.Arr?
      && ds[0].oldValue.items.Keys == Names(changes) - Excluded(cfg, e)
      && ds[0].newValue.items.Keys == Names(changes) - Excluded(cfg, e)
      && forall f :: f in changes && f.name !in Excluded(cfg, e) ==>
           && ds[0].oldValue.items[f.name] == FormatValue(e, f.name, Original(e, f.name))
           && ds[0].newValue.items[f.name] == FormatValue(e, f.name, f.value)
  {
    var remaining := WithoutKeys(changes, Excluded(cfg, e));
    var f :| f in changes && f.name !in Excluded(cfg, e);
    assert f in remaining;
    forall g | g in changes && g.name !in Excluded(cfg, e)
      ensures OldValues(e, remaining)[g.name] == FormatValue(e, g.name, Original(e, g.name))
      ensures NewValues(e, remaining)[g.name] == FormatValue(e, g.name, g.value)
    {
      assert g in remaining;
      var j :| 0 <= j < |remaining| && remaining[j] == g;
    }
  }

  /** Per-field mode: one UPDATE row per changed, non-excluded field, in
      attribute order, each naming its field; no field is logged twice. */
  lemma PerFieldRowShape(cfg: Config, ctx: Context, e: Entity, changes: Fields)
    requires cfg.logPerField
    ensures var ds := UpdateEntries(cfg, ctx, e, changes);
      && |ds| == |Names(changes) - Excluded(cfg, e)|
      && (forall d :: d in ds ==> d.action == Update && d.fieldColumn.Some?
                                  && d.fieldColumn.value in Names(changes) - Excluded(cfg, e))
      && (forall i, j :: 0 <= i < j < |ds| ==> ds[i].fieldColumn != ds[j].fieldColumn)
      && (forall f :: f in changes && f.name !in Excluded(cfg, e) ==>
            exists d :: d in ds && d.fieldColumn == Some(f.name)
                        && d.newValue == FormatValue(e, f.name, f.value)
                        && d.oldValue == FormatValue(e, f.name, Original(e, f.name)))
  {
    var remaining := WithoutKeys(changes, Excluded(cfg, e));
    PerFieldRows(cfg, ctx, e, changes);
    PerFieldShapeOf(UpdateEntries(cfg, ctx, e, changes), remaining, e);
  }

  /** The shape of rows that follow the remaining fields one by one. */
  lemma PerFieldShapeOf(ds: seq<LogData>, remaining: Fields, e: Entity)
    requires |ds| == |remaining|
    requires forall k :: 0 <= k < |ds| ==>
      && ds[k].action == Update && ds[k].fieldColumn == Some(remaining[k].name)
      && ds[k].newValue == FormatValue(e, remaining[k].name, remaining[k].value)
      && ds[k].oldValue == FormatValue(e, remaining[k].name, Original(e, remaining[k].name))
    ensures |ds| == |Names(remaining)|
    ensures forall d :: d in ds ==> d.action == Update && d.fieldColumn.Some? && d.fieldColumn.value in Names(remaining)
    ensures forall i, j :: 0 <= i < j < |ds| ==> ds[i].fieldColumn != ds[j].fieldColumn
    ensures forall f :: f in remaining ==>
      exists d :: d in ds && d.fieldColumn == Some(f.name)
                  && d.newValue == FormatValue(e, f.name, f.value)
                  && d.oldValue == FormatValue(e, f.name, Original(e, f.name))
  {
    DistinctCount(remaining);
    forall d | d in ds
      ensures d.action == Update && d.fieldColumn.Some? && d.fieldColumn.value in Names(remaining)
    {
      var k :| 0 <= k < |ds| && ds[k] == d;
    }
    forall f | f in remaining
      ensures exists d :: d in ds && d.fieldColumn == Some(f.name)
                          && d.newValue == FormatValue(e, f.name, f.value)
                          && d.oldValue == FormatValue(e, f.name, Original(e, f.name))
    {
      var k :| 0 <= k < |remaining| && remaining[k] == f;
      assert ds[k] in ds;
    }
  }

  /** In per-field mode the k-th row is about the k-th remaining field. */
  lemma PerFieldRows(cfg: Config, ctx: Context, e: Entity, changes: Fields)
    requires cfg.logPerField
    ensures var remaining := WithoutKeys(changes, Excluded(cfg, e));
      var ds := UpdateEntries(cfg, ctx, e, changes);
      && |ds| == |remaining|
      && forall k :: 0 <= k < |ds| ==>
           && ds[k].action == Update && ds[k].fieldColumn == Some(remaining[k].name)
           && ds[k].newValue == FormatValue(e, remaining[k].name, remaining[k].value)
           && ds[k].oldValue == FormatValue(e, remaining[k].name, Original(e, remaining[k].name))
  {
  }

  /** An ordered array with distinct keys has as many entries as keys. */
  lemma {:induction false} DistinctCount(s: Fields)
    ensures |Names(s)| == |s|
  {
    if s != [] {
      var t: Fields := s[1..];
      DistinctCount(t);
      assert Names(s) == {s[0].name} + Names(t) by {
        forall x | x in Names(s) ensures x in {s[0].name} + Names(t) {
          var j :| 0 <= j < |s| && s[j].name == x;
          if j > 0 { assert t[j - 1].name == x; }
        }
        forall x | x in Names(t) ensures x in Names(s) {
          var j :| 0 <= j < |t| && t[j].name == x;
          assert s[j + 1].name == x;
        }
      }
      assert s[0].name !in Names(t) by {
        forall j | 0 <= j < |t| ensures t[j].name != s[0].name {
          assert t[j] == s[j + 1];
        }
      }
    }
  }

  // ---------------------------------------------------------------------
  // Writing rows

  /** `createLog`: merges the context into the row, defaults its date and
      stores it; queued and immediate mode store the same row. */
  method CreateLog(store: LogStore, cfg: Config, ctx: Context, logData: LogData)
    requires store.Valid()
    modifies store
    ensures store.Valid()
    ensures Appended(store.records, old(store.records), [Enriched(cfg, ctx, logData)], ctx.today, ctx.now)
  {
    var info := GetUserInformation(cfg, ctx);
    var d := Merge(logData, info);
    if d.date.None? {
      d := d.(date := Some(ctx.today));
    }
    MergeEnriches(cfg, ctx, logData);
    ghost var before := store.records;
    AppendedNothing(before, ctx.today, ctx.now);
    if cfg.queueEnabled {
      // CreateChangeLogJob::handle performs the same create later.
      var r := store.Insert(d, ctx.today, ctx.now);
      AppendedOneMore(store.records, before, before, [], d, r, ctx.today, ctx.now);
    } else {
      var r := store.Insert(d, ctx.today, ctx.now);
      AppendedOneMore(store.records, before, before, [], d, r, ctx.today, ctx.now);
    }
  }

  /** `logCreate`. */
  method LogCreate(store: LogStore, cfg: Config, ctx: Context, e: Entity)
    requires store.Valid()
    modifies store
    ensures store.Valid()
    ensures Appended(store.records, old(store.records), [CreateEntry(cfg, ctx, e)], ctx.today, ctx.now)
  {
    var attributes := LoggableAttributes(cfg, e);
    var logData := Row(e, Create, None, Null, Arr(attributes), Description(e, Create), Tags(e, Create), ctx.today);
    CreateLog(store, cfg, ctx, logData);
  }

  /** `logRestore`. */
  method LogRestore(store: LogStore, cfg: Config, ctx: Context, e: Entity)
    requires store.Valid()
    modifies store
    ensures store.Valid()
    ensures Appended(store.records, old(store.records), [RestoreEntry(cfg, ctx, e)], ctx.today, ctx.now)
  {
    var attributes := LoggableAttributes(cfg, e);
    var logData := Row(e, Restore, None, Null, Arr(attributes), Description(e, Restore), Tags(e, Restore), ctx.today);
    CreateLog(store, cfg, ctx, logData);
  }

  /** `logDelete($model, $forceDelete = false)`. */
  method LogDelete(store: LogStore, cfg: Config, ctx: Context, e: Entity, forceDelete: bool := false)
    requires store.Valid()
    modifies store
    ensures store.Valid()
    ensures Appended(store.records, old(store.records), [DeleteEntry(cfg, ctx, e, forceDelete)], ctx.today, ctx.now)
  {
    var attributes := LoggableAttributes(cfg, e);
    var description := Description(e, Delete).GetOr("") + if forceDelete then " (Permanent)" else "";
    var tags := Tags(e, Delete) + if forceDelete then ["force_delete"] else [];
    var logData := Row(e, Delete, None, Arr(attributes), Null, Some(description), tags, ctx.today);
    CreateLog(store, cfg, ctx, logData);
  }

  /** `logFieldChange`. */
  method LogFieldChange(store: LogStore, cfg: Config, ctx: Context, e: Entity, field: string, newValue: Val)
    requires store.Valid()
    modifies store
    ensures store.Valid()
    ensures Appended(store.records, old(store.records), [FieldChangeEntry(cfg, ctx, e, field, newValue)], ctx.today, ctx.now)
  {
    var oldValue := Original(e, field);
    var logData := Row(e, Update, Some(field), FormatValue(e, field, oldValue), FormatValue(e, field, newValue),
                       Description(e, Update), Tags(e, Update), ctx.today);
    CreateLog(store, cfg, ctx, logData);
  }

  /** The loop of `logBulkChanges` that fills the old and new value arrays. */
  method BulkPayload(e: Entity, changes: Fields) returns (oldValues: map<string, Val>, newValues: map<string, Val>)
    ensures oldValues == OldValues(e, changes) && newValues == NewValues(e, changes)
  {
    oldValues, newValues := map[], map[];
    ghost var olds, news := FormattedFields(e, changes, true), FormattedFields(e, changes, false);
    var i := 0;
    while i < |changes|
      invariant 0 <= i <= |changes|
      invariant oldValues == AsMapPrefix(olds, i)
      invariant newValues == AsMapPrefix(news, i)
    {
      var field, newValueRaw := changes[i].name, changes[i].value;
      AsMapPrefixStep(olds, i);
      AsMapPrefixStep(news, i);
      oldValues := oldValues[field := FormatValue(e, field, Original(e, field))];
      newValues := newValues[field := FormatValue(e, field, newValueRaw)];
      i := i + 1;
    }
  }

  /** `logBulkChanges`. */
  method LogBulkChanges(store: LogStore, cfg: Config, ctx: Context, e: Entity, changes: Fields)
    requires store.Valid()
    modifies store
    ensures store.Valid()
    ensures Appended(store.records, old(store.records), [BulkEntry(cfg, ctx, e, changes)], ctx.today, ctx.now)
  {
    var oldValues, newValues := BulkPayload(e, changes);
    var logData := Row(e, Update, None, Arr(oldValues), Arr(newValues), Description(e, Update), Tags(e, Update), ctx.today);
    CreateLog(store, cfg, ctx, logData);
  }

  /** `logUpdate`. */
  method LogUpdate(store: LogStore, cfg: Config, ctx: Context, e: Entity, changes: Fields)
    requires store.Valid()
    modifies store
    ensures store.Valid()
    ensures Appended(store.records, old(store.records), UpdateEntries(cfg, ctx, e, changes), ctx.today, ctx.now)
  {
    var remaining := WithoutKeys(changes, Excluded(cfg, e));
    if remaining == [] {
      AppendedNothing(store.records, ctx.today, ctx.now);
      return;
    }
    if cfg.logPerField {
      ghost var ds := UpdateEntries(cfg, ctx, e, changes);
      var i := 0;
      AppendedNothing(store.records, ctx.today, ctx.now);
      while i < |remaining|
        invariant 0 <= i <= |remaining|
        invariant store.Valid()
        invariant Appended(store.records, old(store.records), ds[..i], ctx.today, ctx.now)
      {
        ghost var mid := store.records;
        LogFieldChange(store, cfg, ctx, e, remaining[i].name, remaining[i].value);
        AppendedChain(store.records, mid, old(store.records), ds[..i], [ds[i]], ctx.today, ctx.now);
        assert ds[..i] + [ds[i]] == ds[..i + 1];
        i := i + 1;
      }
      assert ds[..i] == ds;
    } else {
      LogBulkChanges(store, cfg, ctx, e, remaining);
    }
  }

  // ---------------------------------------------------------------------
  // Queries

  /** The filter keys `query` understands; `None` is an unset (or null) key. */
  datatype Filters = Filters(
    model: Option<string>,
    action: Option<string>,
    userId: Option<string>,
    startDate: Option<Day>,
    endDate: Option<Day>,
    tag: Option<string>,
    loggableId: Option<string>,
    loggableType: Option<string>)

  const NoFilters: Filters := Filters(None, None, None, None, None, None, None, None)

  /** A row matches a filter set when it passes every filter that is given;
      the date range needs both ends and the loggable filter both parts. */
  predicate Matches(f: Filters, x: Record) {
    && (f.model.Some? ==> x.data.loggableType == f.model.value)
    && (f.action.Some? ==> Name(x.data.action) == Upper(f.action.value))
    && (f.userId.Some? ==> x.data.userId == f.userId)
    && (f.startDate.Some? && f.endDate.Some? ==>
          x.data.date.Some? && f.startDate.value <= x.data.date.value <= f.endDate.value)
    && (f.tag.Some? ==> f.tag.value in x.data.tags)
    && (f.loggableId.Some? && f.loggableType.Some? ==>
          x.data.loggableId == f.loggableId.value && x.data.loggableType == f.loggableType.value)
  }

  /** One `where` of `query`: the condition, and whether its filter is given. */
  datatype Step = Step(given: bool, cond: Condition)

  /** The `i`-th `where` of `query`, in the order it checks the filters; the
      date range needs both ends, and the loggable filter needs both parts
      and adds two conditions. */
  function QueryStep(f: Filters, i: nat): Step
    requires i < 7
  {
    var both := f.loggableId.Some? && f.loggableType.Some?;
    if i == 0 then Step(f.model.Some?, ScopeForModel(f.model.GetOr("")))
    else if i == 1 then Step(f.action.Some?, ScopeAction(f.action.GetOr("")))
    else if i == 2 then Step(f.userId.Some?, ScopeByUser(f.userId))
    else if i == 3 then Step(f.startDate.Some? && f.endDate.Some?, ScopeDateRange(f.startDate.GetOr(0), f.endDate.GetOr(0)))
    else if i == 4 then Step(f.tag.Some?, ScopeWithTag(f.tag.GetOr("")))
    else if i == 5 then Step(both, IdIs(f.loggableId.GetOr("")))
    else Step(both, TypeIs(f.loggableType.GetOr("")))
  }

  /** The rows left after the first `k` steps of `query`. */
  function Narrowing(all: seq<Record>, f: Filters, k: nat): seq<Record>
    requires k <= 7
  {
    if k == 0 then all
    else
      var prev, st := Narrowing(all, f, k - 1), QueryStep(f, k - 1);
      if st.given then Where(prev, st.cond) else prev
  }

  /** The rows `query` keeps before ordering them. */
  function QueryRows(all: seq<Record>, f: Filters): seq<Record> {
    Narrowing(all, f, 7)
  }

  /** A row survives the first `k` steps exactly when it satisfies the
      condition of each given one. */
  lemma {:induction false} NarrowingMatch(all: seq<Record>, f: Filters, k: nat, x: Record)
    requires k <= 7
    ensures x in Narrowing(all, f, k) <==>
      x in all && forall i :: 0 <= i < k && QueryStep(f, i).given ==> Holds(QueryStep(f, i).cond, x)
  {
    if k > 0 {
      NarrowingMatch(all, f, k - 1, x);
    }
  }

  /** A row survives the narrowing exactly when it matches every given filter. */
  lemma QueryRowsMatch(all: seq<Record>, f: Filters, x: Record)
    ensures x in QueryRows(all, f) <==> x in all && Matches(f, x)
  {
    NarrowingMatch(all, f, 7, x);
    if Matches(f, x) {
      forall i | 0 <= i < 7 && QueryStep(f, i).given ensures Holds(QueryStep(f, i).cond, x) {
        assert i == 0 || i == 1 || i == 2 || i == 3 || i == 4 || i == 5 || i == 6;
      }
    } else {
      var i :| 0 <= i < 7 && QueryStep(f, i).given && !Holds(QueryStep(f, i).cond, x) by {
        if !(QueryStep(f, 0).given ==> Holds(QueryStep(f, 0).cond, x)) {
        } else if !(QueryStep(f, 1).given ==> Holds(QueryStep(f, 1).cond, x)) {
        } else if !(QueryStep(f, 2).given ==> Holds(QueryStep(f, 2).cond, x)) {
        } else if !(QueryStep(f, 3).given ==> Holds(QueryStep(f, 3).cond, x)) {
        } else if !(QueryStep(f, 4).given ==> Holds(QueryStep(f, 4).cond, x)) {
        } else if !(QueryStep(f, 5).given ==> Holds(QueryStep(f, 5).cond, x)) {
        } else {
          assert !(QueryStep(f, 6).given ==> Holds(QueryStep(f, 6).cond, x));
        }
      }
    }
  }

  /** The rows `query($filters)->get()` returns. */
  function QueryResult(records: seq<Record>, f: Filters): (r: seq<Record>)
    ensures forall x :: x in r <==> x in records && Matches(f, x)
    ensures NewestFirst(r)
  {
    var q := QueryRows(records, f);
    var r := SortNewestFirst(q);
    SameRows(r, q);
    forall x ensures x in q <==> x in records && Matches(f, x) {
      QueryRowsMatch(records, f, x);
    }
    r
  }

  /** `query($filters)->get()`: narrows the table one given filter at a time,
      then orders newest first. */
  method Query(store: LogStore, f: Filters) returns (result: seq<Record>)
    ensures result == QueryResult(store.records, f)
  {
    var all := store.records;
    var rows := all;
    if f.model.Some? {
      rows := Where(rows, ScopeForModel(f.model.value));
    }
    assert rows == Narrowing(all, f, 1);
    if f.action.Some? {
      rows := Where(rows, ScopeAction(f.action.value));
    }
    assert rows == Narrowing(all, f, 2);
    if f.userId.Some? {
      rows := Where(rows, ScopeByUser(f.userId));
    }
    assert rows == Narrowing(all, f, 3);
    if f.startDate.Some? && f.endDate.Some? {
      rows := Where(rows, ScopeDateRange(f.startDate.value, f.endDate.value));
    }
    assert rows == Narrowing(all, f, 4);
    if f.tag.Some? {
      rows := Where(rows, ScopeWithTag(f.tag.value));
    }
    assert rows == Narrowing(all, f, 5);
    if f.loggableId.Some? && f.loggableType.Some? {
      rows := Where(Where(rows, IdIs(f.loggableId.value)), TypeIs(f.loggableType.value));
    }
    assert rows == Narrowing(all, f, 7);
    result := SortNewestFirst(rows);
  }

  // ---------------------------------------------------------------------
  // Statistics

  /** Number of rows with the given action. */
  function CountAction(s: seq<Record>, a: Action): (n: nat)
    ensures n <= |s|
    ensures n > 0 <==> exists x :: x in s && x.data.action == a
  {
    if s == [] then 0
    else
      var rest := CountAction(s[1..], a);
      assert forall x :: x in s <==> x == s[0] || x in s[1..];
      (if s[0].data.action == a then 1 else 0) + rest
  }

  /** Number of rows by the given user. */
  function CountUser(s: seq<Record>, u: string): (n: nat)
    ensures n <= |s|
    ensures n > 0 <==> exists x :: x in s && x.data.userId == Some(u)
  {
    if s == [] then 0
    else
      var rest := CountUser(s[1..], u);
      assert forall x :: x in s <==> x == s[0] || x in s[1..];
      (if s[0].data.userId == Some(u) then 1 else 0) + rest
  }

  /** The users that occur in the rows, nulls omitted. */
  function UsersIn(s: seq<Record>): set<string> {
    set x | x in s && x.data.userId.Some? :: x.data.userId.value
  }

  /** `groupBy('action')`: the count per action that occurs. */
  function ByAction(s: seq<Record>): (m: map<Action, nat>)
    ensures forall a :: a in m <==> exists x :: x in s && x.data.action == a
    ensures forall a :: a in m ==> m[a] == CountAction(s, a) && m[a] > 0
  {
    assert AllActions == {Create, Update, Delete, Restore};
    assert forall a: Action :: a.Create? || a.Update? || a.Delete? || a.Restore?;
    map a | a in AllActions && CountAction(s, a) > 0 :: CountAction(s, a)
  }

  /** `whereNotNull('user_id')->groupBy('user_id')`: the count per user. */
  function ByUser(s: seq<Record>): (m: map<string, nat>)
    ensures forall u :: u in m <==> exists x :: x in s && x.data.userId == Some(u)
    ensures forall u :: u in m ==> m[u] == CountUser(s, u) && m[u] > 0
  {
    map u | u in UsersIn(s) :: CountUser(s, u)
  }

  /** The sum of the per-action counts, an action that does not occur counting zero. */
  function ActionTotal(m: map<Action, nat>): nat {
    (if Create in m then m[Create] else 0) + (if Update in m then m[Update] else 0)
    + (if Delete in m then m[Delete] else 0) + (if Restore in m then m[Restore] else 0)
  }

  /** Every row has exactly one of the four actions, so the per-action counts
      add up to the number of rows. */
  lemma {:induction false} ActionCountsAddUp(s: seq<Record>)
    ensures CountAction(s, Create) + CountAction(s, Update) + CountAction(s, Delete) + CountAction(s, Restore) == |s|
  {
    if s != [] {
      ActionCountsAddUp(s[1..]);
    }
  }

  lemma ByActionTotal(s: seq<Record>)
    ensures ActionTotal(ByAction(s)) == |s|
  {
    ActionCountsAddUp(s);
  }

  datatype Statistics = Statistics(
    total: nat,
    byAction: map<Action, nat>,   // keyed by the stored action name
    byUser: map<string, nat>,
    recent: seq<Record>)

  /** `getStatistics($filters)`: all figures come from the same filtered query. */
  method GetStatistics(store: LogStore, f: Filters) returns (st: Statistics)
    ensures var q := QueryResult(store.records, f);
      && st.total == |q|
      && st.byAction == ByAction(q) && ActionTotal(st.byAction) == st.total
      && st.byUser == ByUser(q)
      && st.recent <= q && |st.recent| <= 10
      && (|q| >= 10 ==> |st.recent| == 10) && (|q| < 10 ==> st.recent == q)
  {
    var q := Query(store, f);
    ByActionTotal(q);
    st := Statistics(|q|, ByAction(q), ByUser(q), Limit(q, 10));
  }

  // ---------------------------------------------------------------------
  // Retention

  /** The cut-off of `cleanup`: today minus the given number of days, or
      minus `cleanup.days` when none is given. */
  function CleanupCutoff(cfg: Config, today: Day, days: Option<int>): Day {
    today - days.GetOr(cfg.cleanupDays)
  }

  /** `cleanup($days = null)`: nothing when `cleanup.enabled` is off;
      otherwise deletes the rows dated strictly before the cut-off and
      returns how many. */
  method Cleanup(store: LogStore, cfg: Config, today: Day, days: Option<int>) returns (deleted: nat)
    requires store.Valid()
    modifies store
    ensures store.Valid()
    ensures store.nextId == old(store.nextId)
    ensures !cfg.cleanupEnabled ==> deleted == 0 && store.records == old(store.records)
    ensures cfg.cleanupEnabled ==> forall x :: x in store.records <==>
      x in old(store.records) && !Holds(DateBefore(CleanupCutoff(cfg, today, days)), x)
    ensures cfg.cleanupEnabled ==> store.records == Except(old(store.records), DateBefore(CleanupCutoff(cfg, today, days)))
    ensures cfg.cleanupEnabled ==> deleted == |Where(old(store.records), DateBefore(CleanupCutoff(cfg, today, days)))|
    ensures cfg.cleanupEnabled ==> deleted + |store.records| == |old(store.records)|
  {
    if !cfg.cleanupEnabled {
      deleted := 0;
    } else {
      var n := days.GetOr(cfg.cleanupDays);
      var cutoffDate := today - n;
      assert cutoffDate == CleanupCutoff(cfg, today, days);
      deleted := store.DeleteWhere(DateBefore(cutoffDate));
    }
  }

  /** `cleanupByDateRange($start, $end)`: deletes the rows dated within the
      range, both ends included. */
  method CleanupByDateRange(store: LogStore, startDate: Day, endDate: Day) returns (deleted: nat)
    requires store.Valid()
    modifies store
    ensures store.Valid()
    ensures store.nextId == old(store.nextId)
    ensures forall x :: x in store.records <==> x in old(store.records) && !Holds(DateBetween(startDate, endDate), x)
    ensures store.records == Except(old(store.records), DateBetween(startDate, endDate))
    ensures deleted == |Where(old(store.records), DateBetween(startDate, endDate))|
    ensures deleted + |store.records| == |old(store.records)|
  {
    deleted := store.DeleteWhere(DateBetween(startDate, endDate));
  }

  /** `cleanupBeforeDate($date)`: deletes the rows dated strictly before it. */
  method CleanupBeforeDate(store: LogStore, date: Day) returns (deleted: nat)
    requires store.Valid()
    modifies store
    ensures store.Valid()
    ensures store.nextId == old(store.nextId)
    ensures forall x :: x in store.records <==> x in old(store.records) && !Holds(DateBefore(date), x)
    ensures store.records == Except(old(store.records), DateBefore(date))
    ensures deleted == |Where(old(store.records), DateBefore(date))|
    ensures deleted + |store.records| == |old(store.records)|
  {
    deleted := store.DeleteWhere(DateBefore(date));
  }
}
