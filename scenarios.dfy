/** The package's test scenarios, replayed on the model under the shipped
    configuration with the test models `User` and `Post`. */
module Scenarios {
  import opened Values
  import opened RecordAction
  import opened ChangeLogsConfig
  import opened Entities
  import opened ChangeLogModel
  import opened HasChangeLogs
  import opened ChangeLogService
  import opened ChangeLogObserver
  import opened TraitPipeline

  const UserClass: string := "Imamsudarajat04\\ChangeLogs\\Tests\\Models\\User"
  const PostClass: string := "Imamsudarajat04\\ChangeLogs\\Tests\\Models\\Post"

  /** The attributes of the test `User`, with the `created_at`/`updated_at`
      timestamps of its table. */
  function UserAttributes(key: string, name: string, email: string, createdAt: string, updatedAt: string): Fields {
    [Field("name", Str(name)), Field("email", Str(email)), Field("password", Str("secret123")),
     Field("id", Str(key)), Field("updated_at", Str(updatedAt)), Field("created_at", Str(createdAt))]
  }

  /** The test `User`: trait model hiding `password` and `remember_token`. */
  function User(key: string, original: map<string, Val>, name: string, email: string,
                createdAt: string, updatedAt: string): Entity {
    TraitModel(UserClass, key, original, UserAttributes(key, name, email, createdAt, updatedAt),
               ["password", "remember_token"])
  }

  /** The original snapshot of a saved `User`. */
  function Snapshot(key: string, name: string, email: string, createdAt: string, updatedAt: string): map<string, Val> {
    AsMap(UserAttributes(key, name, email, createdAt, updatedAt))
  }

  /** The attributes of the test `Post`: its columns, its timestamps, and
      `deleted_at` once the soft-delete column has been written. */
  function PostAttributes(key: string, createdAt: string, updatedAt: string, deletedAt: Option<Val>): Fields {
    if deletedAt.Some? then
      [Field("title", Str("Test Post")), Field("content", Str("Content here")),
       Field("status", Str("published")), Field("id", Str(key)),
       Field("updated_at", Str(updatedAt)), Field("created_at", Str(createdAt)),
       Field("deleted_at", deletedAt.value)]
    else
      [Field("title", Str("Test Post")), Field("content", Str("Content here")),
       Field("status", Str("published")), Field("id", Str(key)),
       Field("updated_at", Str(updatedAt)), Field("created_at", Str(createdAt))]
  }

  /** The test `Post`: a soft-deletable trait model. */
  function Post(key: string, original: map<string, Val>, createdAt: string, updatedAt: string,
                deletedAt: Option<Val>): Entity {
    TraitModel(PostClass, key, original, PostAttributes(key, createdAt, updatedAt, deletedAt), [])
  }

  /** The original snapshot of a saved `Post` that has been soft-deleted. */
  function TrashedSnapshot(key: string, createdAt: string, deleted: string): map<string, Val> {
    AsMap(PostAttributes(key, createdAt, deleted, Some(Str(deleted))))
  }

  /** Creating a user writes one CREATE row for it whose snapshot has its
      name but no password and no timestamps. */
  method CreatingLogsOnce(ctx: Context, key: string, stamp: string) returns (store: LogStore)
    ensures |store.records| == 1
    ensures var r := store.records[0];
      && r.data.action == Create && r.data.loggableType == UserClass && r.data.loggableId == key
      && r.data.newValue.Arr? && "name" in r.data.newValue.items
      && "password" !in r.data.newValue.items && "created_at" !in r.data.newValue.items
      && "updated_at" !in r.data.newValue.items
  {
    store := new LogStore();
    var u := User(key, map[], "John Doe", "john@example.com", stamp, stamp);
    assert ExcludedFields(Shipped, u) == TraitExcludedFields(Shipped, u.hidden);
    assert "name" !in Excluded(Shipped, u);
    assert "created_at" in Excluded(Shipped, u) && "updated_at" in Excluded(Shipped, u);
    Created(store, Shipped, ctx, u);
  }

  /** A post is created, soft-deleted and restored. `restore()` saves the
      model, so the observer also sees an "updated" event whose dirty
      attributes, `deleted_at` and `updated_at`, are all excluded: it writes
      nothing. The table ends with a CREATE, a DELETE and a RESTORE row for
      the post, and the RESTORE snapshot has no `deleted_at`. */
  method SoftDeleteAndRestore(ctx: Context, key: string, created: string, deleted: string, restored: string)
    returns (store: LogStore)
    ensures |store.records| == 3
    ensures store.records[0].data.action == Create && store.records[1].data.action == Delete
    ensures store.records[2].data.action == Restore
    ensures forall r :: r in store.records ==> r.data.loggableId == key
    ensures |Where(Where(store.records, ActionIs("DELETE")), IdIs(key))| == 1
    ensures |Where(Where(store.records, ActionIs("RESTORE")), IdIs(key))| == 1
    ensures store.records[2].data.newValue.Arr? && "deleted_at" !in store.records[2].data.newValue.items
  {
    store := new LogStore();
    CreatePost(store, ctx, key, created);
    ghost var r0 := store.records[0];
    DeletePost(store, ctx, key, created, deleted);
    ghost var r1 := store.records[1];
    assert store.records == [r0, r1];
    RestoreSavesNothing(store, ctx, key, created, deleted, restored);
    RestorePost(store, ctx, key, created, restored);
    ghost var r2 := store.records[2];
    assert store.records == [r0, r1, r2];
    CreateDeleteRestoreRows(store.records, key);
  }

  /** `Post::create(...)`: one CREATE row for the post. */
  method CreatePost(store: LogStore, ctx: Context, key: string, createdAt: string)
    requires store.Valid()
    modifies store
    ensures store.Valid()
    ensures |store.records| == |old(store.records)| + 1 && store.records[..|old(store.records)|] == old(store.records)
    ensures store.records[|old(store.records)|].data.action == Create
    ensures store.records[|old(store.records)|].data.loggableId == key
  {
    var p := Post(key, map[], createdAt, createdAt, None);
    TraitGate(Shipped, PostClass, p.key, p.original, p.attributes, [], Create);
    SnapshotRows(Shipped, ctx, p, false);
    Created(store, Shipped, ctx, p);
    AppendedSingle(store.records, old(store.records), CreateEntry(Shipped, ctx, p), ctx.today, ctx.now);
  }

  /** `$post->delete()`: one DELETE row for the post. */
  method DeletePost(store: LogStore, ctx: Context, key: string, createdAt: string, deleted: string)
    requires store.Valid()
    modifies store
    ensures store.Valid()
    ensures |store.records| == |old(store.records)| + 1 && store.records[..|old(store.records)|] == old(store.records)
    ensures store.records[|old(store.records)|].data.action == Delete
    ensures store.records[|old(store.records)|].data.loggableId == key
  {
    var p := Post(key, TrashedSnapshot(key, createdAt, deleted), createdAt, deleted, Some(Str(deleted)));
    TraitGate(Shipped, PostClass, p.key, p.original, p.attributes, [], Delete);
    SnapshotRows(Shipped, ctx, p, false);
    Deleted(store, Shipped, ctx, p);
    AppendedSingle(store.records, old(store.records), DeleteEntry(Shipped, ctx, p, false), ctx.today, ctx.now);
  }

  /** The "updated" event of `restore()`: only `deleted_at` and `updated_at`
      differ from the trashed snapshot, both are excluded, so no row. */
  method RestoreSavesNothing(store: LogStore, ctx: Context, key: string, createdAt: string,
                             deleted: string, restored: string)
    requires store.Valid()
    modifies store
    ensures store.Valid()
    ensures store.records == old(store.records)
  {
    var p := Post(key, TrashedSnapshot(key, createdAt, deleted), createdAt, restored, Some(Null));
    TraitGate(Shipped, PostClass, p.key, p.original, p.attributes, [], Update);
    assert ExcludedFields(Shipped, p) == TraitExcludedFields(Shipped, []);
    assert "updated_at" in Excluded(Shipped, p) && "deleted_at" in Excluded(Shipped, p);
    RestoreDirty(key, createdAt, deleted, restored);
    UpdateLogsIffLoggableChange(Shipped, ctx, p);
    Updated(store, Shipped, ctx, p);
    assert store.records[..|old(store.records)|] == store.records;
  }

  /** Restoring a trashed post dirties only `updated_at` and `deleted_at`. */
  lemma RestoreDirty(key: string, createdAt: string, deleted: string, restored: string)
    ensures var p := Post(key, TrashedSnapshot(key, createdAt, deleted), createdAt, restored, Some(Null));
      forall f :: f in Dirty(p) ==> f.name == "updated_at" || f.name == "deleted_at"
  {
    var p := Post(key, TrashedSnapshot(key, createdAt, deleted), createdAt, restored, Some(Null));
    var before := PostAttributes(key, createdAt, deleted, Some(Str(deleted)));
    assert forall i :: 0 <= i < 4 || i == 5 ==> before[i] == p.attributes[i];
    DirtyOnly(p, before, 6, 4);
  }

  /** `$post->restore()`'s "restored" event: one RESTORE row for the post,
      whose snapshot leaves out the excluded `deleted_at`. */
  method RestorePost(store: LogStore, ctx: Context, key: string, createdAt: string, restored: string)
    requires store.Valid()
    modifies store
    ensures store.Valid()
    ensures |store.records| == |old(store.records)| + 1 && store.records[..|old(store.records)|] == old(store.records)
    ensures store.records[|old(store.records)|].data.action == Restore
    ensures store.records[|old(store.records)|].data.loggableId == key
    ensures store.records[|old(store.records)|].data.newValue.Arr?
    ensures "deleted_at" !in store.records[|old(store.records)|].data.newValue.items
  {
    var p := Post(key, AsMap(PostAttributes(key, createdAt, restored, Some(Null))), createdAt, restored, Some(Null));
    TraitGate(Shipped, PostClass, p.key, p.original, p.attributes, [], Restore);
    SnapshotRows(Shipped, ctx, p, false);
    assert ExcludedFields(Shipped, p) == TraitExcludedFields(Shipped, []);
    assert "deleted_at" in Excluded(Shipped, p);
    Restored(store, Shipped, ctx, p);
    AppendedSingle(store.records, old(store.records), RestoreEntry(Shipped, ctx, p), ctx.today, ctx.now);
  }

  /** `where('action', ...)->where('loggable_id', key)` finds one row of each
      of DELETE and RESTORE in a CREATE, DELETE, RESTORE table of that key. */
  lemma CreateDeleteRestoreRows(s: seq<Record>, key: string)
    requires |s| == 3 && s[0].data.action == Create && s[1].data.action == Delete && s[2].data.action == Restore
    requires forall r :: r in s ==> r.data.loggableId == key
    ensures |Where(Where(s, ActionIs("DELETE")), IdIs(key))| == 1
    ensures |Where(Where(s, ActionIs("RESTORE")), IdIs(key))| == 1
  {
    WhereOfThree(s, ActionIs("DELETE"));
    WhereOfThree(s, ActionIs("RESTORE"));
    WhereKeepsAll(Where(s, ActionIs("DELETE")), IdIs(key));
    WhereKeepsAll(Where(s, ActionIs("RESTORE")), IdIs(key));
  }

  /** A `where` every row satisfies keeps the rows as they are. */
  lemma {:induction false} WhereKeepsAll(s: seq<Record>, c: Condition)
    requires forall x :: x in s ==> Holds(c, x)
    ensures Where(s, c) == s
  {
    if s != [] {
      var p := s[..|s| - 1];
      assert s == p + [s[|s| - 1]];
      WhereKeepsAll(p, c);
    }
  }

  /** Filtering two rows. */
  lemma WhereOfTwo(s: seq<Record>, c: Condition)
    requires |s| <= 2
    ensures |s| == 2 ==> Where(s, c) == (if Holds(c, s[0]) then [s[0]] else []) + (if Holds(c, s[1]) then [s[1]] else [])
    ensures |s| == 1 ==> Where(s, c) == if Holds(c, s[0]) then [s[0]] else []
  {
    if |s| == 2 {
      assert s[..1] == [s[0]];
      assert [s[0]][..0] == [];
    } else if |s| == 1 {
      assert s[..0] == [];
    }
  }

  /** Filtering three rows. */
  lemma WhereOfThree(s: seq<Record>, c: Condition)
    requires |s| == 3
    ensures |Where(s, c)| == (if Holds(c, s[0]) then 1 else 0) + (if Holds(c, s[1]) then 1 else 0)
                             + (if Holds(c, s[2]) then 1 else 0)
  {
    WhereOfTwo(s[..2], c);
  }

  /** Creating a user and then updating its name twice over two updates
      (name, then email) writes one CREATE and two UPDATE rows; the first
      UPDATE holds exactly the name, old and new. */
  method SuccessiveUpdates(ctx: Context, key: string, stamp: string, later: string, latest: string) returns (store: LogStore)
    ensures |store.records| == 3
    ensures store.records[0].data.action == Create
    ensures store.records[1].data.action == Update && store.records[2].data.action == Update
    ensures store.records[1].data.oldValue == Arr(map["name" := Str("John Doe")])
    ensures store.records[1].data.newValue == Arr(map["name" := Str("Jane Doe")])
    ensures LastChangeLog(store.records, User(key, map[], "", "", "", "")) == Some(store.records[2])
  {
    store := new LogStore();
    ghost var c := CreateUser(store, ctx, key, "John Doe", "john@example.com", stamp);
    ghost var first := store.records;
    ghost var d1 := SaveUserChange(store, ctx, key, "John Doe", "Jane Doe", "john@example.com", "john@example.com", "name", stamp, stamp, later);
    assert store.records[0] == first[0];
    ghost var second := store.records;
    ghost var d2 := SaveUserChange(store, ctx, key, "Jane Doe", "Jane Doe", "john@example.com", "jane@example.com", "email", stamp, later, latest);
    assert store.records[..2] == second;
    CreateThenTwoUpdates(store.records, key, c, d1, d2, ctx.today, ctx.now);
  }

  /** Creating a user and updating its name once leaves a CREATE row and
      then an UPDATE row, and `lastChangeLog()` is the UPDATE row. */
  method CreateThenUpdate(ctx: Context, key: string, stamp: string, later: string) returns (store: LogStore)
    ensures |store.records| == 2
    ensures store.records[0].data.action == Create && store.records[1].data.action == Update
    ensures LastChangeLog(store.records, User(key, map[], "", "", "", "")) == Some(store.records[1])
    ensures LastChangeLog(store.records, User(key, map[], "", "", "", "")).value.data.action == Update
  {
    store := new LogStore();
    ghost var c := CreateUser(store, ctx, key, "John Doe", "john@example.com", stamp);
    ghost var first := store.records;
    ghost var d := SaveUserChange(store, ctx, key, "John Doe", "Jane Doe", "john@example.com", "john@example.com", "name", stamp, stamp, later);
    assert store.records[0] == first[0];
    CreateThenOneUpdate(store.records, key, c, d, ctx.today, ctx.now);
  }

  /** The rows a CREATE and one UPDATE of the user leave: the UPDATE is the
      user's last change. */
  lemma CreateThenOneUpdate(s: seq<Record>, key: string, c: LogData, d: LogData, today: Day, now: Timestamp)
    requires |s| == 2 && IdsIncreasing(s)
    requires s[0].data == Saving(c, today) && s[1].data == Saving(d, today)
    requires s[0].createdAt == now && s[1].createdAt == now
    requires c.action == Create && d.action == Update
    requires c.loggableType == UserClass && c.loggableId == key
    requires d.loggableType == UserClass && d.loggableId == key
    ensures s[0].data.action == Create && s[1].data.action == Update
    ensures LastChangeLog(s, User(key, map[], "", "", "", "")) == Some(s[1])
  {
    forall r | r in s ensures r.data.loggableType == UserClass && r.data.loggableId == key {
      var k :| 0 <= k < 2 && s[k] == r;
    }
    LastIsNewest(s, User(key, map[], "", "", "", ""));
  }

  /** `User::create(...)` through the observer: one CREATE row. */
  method CreateUser(store: LogStore, ctx: Context, key: string, name: string, email: string, stamp: string)
    returns (ghost c: LogData)
    requires store.Valid()
    modifies store
    ensures store.Valid()
    ensures c.action == Create && c.loggableType == UserClass && c.loggableId == key
    ensures |store.records| == |old(store.records)| + 1 && store.records[..|old(store.records)|] == old(store.records)
    ensures store.records[|old(store.records)|].data == Saving(c, ctx.today)
    ensures store.records[|old(store.records)|].createdAt == ctx.now
  {
    var u := User(key, map[], name, email, stamp, stamp);
    TraitGate(Shipped, UserClass, key, map[], u.attributes, u.hidden, Create);
    SnapshotRows(Shipped, ctx, u, false);
    c := CreateEntry(Shipped, ctx, u);
    Created(store, Shipped, ctx, u);
    AppendedSingle(store.records, old(store.records), c, ctx.today, ctx.now);
  }

  /** `$user->update(...)` changing exactly one of name and email: one UPDATE row. */
  method SaveUserChange(store: LogStore, ctx: Context, key: string, oldName: string, newName: string,
                        oldEmail: string, newEmail: string, field: string,
                        createdAt: string, oldStamp: string, newStamp: string) returns (ghost d: LogData)
    requires store.Valid()
    requires (field == "name" && oldName != newName && oldEmail == newEmail)
          || (field == "email" && oldName == newName && oldEmail != newEmail)
    modifies store
    ensures store.Valid()
    ensures d.action == Update && d.loggableId == key && d.loggableType == UserClass
    ensures d.oldValue == Arr(map[field := Str(if field == "name" then oldName else oldEmail)])
    ensures d.newValue == Arr(map[field := Str(if field == "name" then newName else newEmail)])
    ensures |store.records| == |old(store.records)| + 1 && store.records[..|old(store.records)|] == old(store.records)
    ensures store.records[|old(store.records)|].data == Saving(d, ctx.today)
    ensures store.records[|old(store.records)|].createdAt == ctx.now
  {
    var u := User(key, Snapshot(key, oldName, oldEmail, createdAt, oldStamp), newName, newEmail, createdAt, newStamp);
    TraitGate(Shipped, UserClass, key, u.original, u.attributes, u.hidden, Update);
    d := SingleFieldUpdate(ctx, key, oldName, newName, oldEmail, newEmail, field, createdAt, oldStamp, newStamp);
    Updated(store, Shipped, ctx, u);
    AppendedSingle(store.records, old(store.records), d, ctx.today, ctx.now);
  }

  /** One appended row, spelled out. */
  lemma AppendedSingle(after: seq<Record>, before: seq<Record>, d: LogData, today: Day, now: Timestamp)
    requires Appended(after, before, [d], today, now)
    ensures |after| == |before| + 1 && after[..|before|] == before
    ensures after[|before|].data == Saving(d, today) && after[|before|].createdAt == now
  {
  }

  /** The rows a CREATE and two single-field UPDATEs of the user leave. */
  lemma CreateThenTwoUpdates(s: seq<Record>, key: string, c: LogData, d1: LogData, d2: LogData, today: Day, now: Timestamp)
    requires |s| == 3 && IdsIncreasing(s)
    requires s[0].data == Saving(c, today) && s[1].data == Saving(d1, today) && s[2].data == Saving(d2, today)
    requires s[0].createdAt == now && s[1].createdAt == now && s[2].createdAt == now
    requires c.action == Create && d1.action == Update && d2.action == Update
    requires c.loggableType == UserClass && c.loggableId == key
    requires d1.loggableType == UserClass && d1.loggableId == key
    requires d2.loggableType == UserClass && d2.loggableId == key
    requires d1.oldValue == Arr(map["name" := Str("John Doe")]) && d1.newValue == Arr(map["name" := Str("Jane Doe")])
    ensures s[0].data.action == Create
    ensures s[1].data.action == Update && s[2].data.action == Update
    ensures s[1].data.oldValue == Arr(map["name" := Str("John Doe")])
    ensures s[1].data.newValue == Arr(map["name" := Str("Jane Doe")])
    ensures LastChangeLog(s, User(key, map[], "", "", "", "")) == Some(s[2])
  {
    forall r | r in s ensures r.data.loggableType == UserClass && r.data.loggableId == key {
      var k :| 0 <= k < 3 && s[k] == r;
    }
    LastIsNewest(s, User(key, map[], "", "", "", ""));
  }

  /** Changing exactly one of name and email writes one bulk UPDATE row
      holding that field's old and new value; the `updated_at` the save
      touches is excluded. */
  lemma SingleFieldUpdate(ctx: Context, key: string, oldName: string, newName: string,
                          oldEmail: string, newEmail: string, field: string,
                          createdAt: string, oldStamp: string, newStamp: string) returns (d: LogData)
    requires (field == "name" && oldName != newName && oldEmail == newEmail)
          || (field == "email" && oldName == newName && oldEmail != newEmail)
    ensures var u := User(key, Snapshot(key, oldName, oldEmail, createdAt, oldStamp), newName, newEmail, createdAt, newStamp);
      UpdateEntries(Shipped, ctx, u, Dirty(u)) == [d]
    ensures d.action == Update && d.loggableId == key && d.loggableType == UserClass
    ensures d.oldValue == Arr(map[field := Str(if field == "name" then oldName else oldEmail)])
    ensures d.newValue == Arr(map[field := Str(if field == "name" then newName else newEmail)])
  {
    var original := Snapshot(key, oldName, oldEmail, createdAt, oldStamp);
    var u := User(key, original, newName, newEmail, createdAt, newStamp);
    var f := Field(field, Str(if field == "name" then newName else newEmail));
    UserFieldLoggable(key, original, newName, newEmail, createdAt, newStamp, field);
    assert ExcludedFields(Shipped, u) == TraitExcludedFields(Shipped, u.hidden);
    assert "updated_at" in Excluded(Shipped, u);
    UserDirty(key, oldName, newName, oldEmail, newEmail, field, createdAt, oldStamp, newStamp);
    var remaining := WithoutKeys(Dirty(u), Excluded(Shipped, u));
    forall g ensures g in remaining <==> g == f {
    }
    DirtyIsSingle(remaining, f);
    assert FormatValue(u, field, Original(u, field)) == TraitFormatValue(Original(u, field), field);
    assert FormatValue(u, field, f.value) == TraitFormatValue(f.value, field);
    SingletonPayload(u, f);
    d := UpdateEntries(Shipped, ctx, u, Dirty(u))[0];
  }

  /** Changing exactly one of name and email dirties that attribute and
      at most `updated_at` besides. */
  lemma UserDirty(key: string, oldName: string, newName: string, oldEmail: string, newEmail: string,
                  field: string, createdAt: string, oldStamp: string, newStamp: string)
    requires (field == "name" && oldName != newName && oldEmail == newEmail)
          || (field == "email" && oldName == newName && oldEmail != newEmail)
    ensures var u := User(key, Snapshot(key, oldName, oldEmail, createdAt, oldStamp), newName, newEmail, createdAt, newStamp);
      && Field(field, Str(if field == "name" then newName else newEmail)) in Dirty(u)
      && forall g :: g in Dirty(u) ==> g == Field(field, Str(if field == "name" then newName else newEmail)) || g.name == "updated_at"
    ensures Original(User(key, Snapshot(key, oldName, oldEmail, createdAt, oldStamp), newName, newEmail, createdAt, newStamp), field)
            == Str(if field == "name" then oldName else oldEmail)
  {
    var before := UserAttributes(key, oldName, oldEmail, createdAt, oldStamp);
    var u := User(key, AsMap(before), newName, newEmail, createdAt, newStamp);
    var k := if field == "name" then 0 else 1;
    assert before[1 - k] == u.attributes[1 - k] by {
      if field == "name" {
        assert oldEmail == newEmail;
      } else {
        assert oldName == newName;
      }
    }
    assert before[2] == u.attributes[2] && before[3] == u.attributes[3] && before[5] == u.attributes[5];
    DirtyOnly(u, before, k, 4);
    assert u.original[before[k].name] == before[k].value;
  }

  /** Neither the name nor the email of the test `User` is excluded. */
  lemma UserFieldLoggable(key: string, original: map<string, Val>, name: string, email: string,
                          createdAt: string, updatedAt: string, field: string)
    requires field == "name" || field == "email"
    ensures field !in Excluded(Shipped, User(key, original, name, email, createdAt, updatedAt))
  {
    var u := User(key, original, name, email, createdAt, updatedAt);
    assert ExcludedFields(Shipped, u) == TraitExcludedFields(Shipped, u.hidden);
  }

  /** The bulk arrays of a single changed field whose values the formatter keeps. */
  lemma SingletonPayload(u: Entity, f: Field)
    requires FormatValue(u, f.name, Original(u, f.name)) == Original(u, f.name)
    requires FormatValue(u, f.name, f.value) == f.value
    ensures OldValues(u, [f]) == map[f.name := Original(u, f.name)]
    ensures NewValues(u, [f]) == map[f.name := f.value]
  {
    var single: Fields := [f];
    assert Names(single) == {f.name} by {
      assert single[0].name == f.name;
    }
    var o, n := OldValues(u, single), NewValues(u, single);
    assert o[f.name] == Original(u, f.name) && n[f.name] == f.value by {
      assert single[0] == f;
    }
  }

  /** Against a snapshot taken from an array of the same length that agrees
      with the attributes everywhere but at positions `k` and `t`, the `k`-th
      attribute, which differs, is dirty, and no attribute but those two is. */
  lemma DirtyOnly(e: Entity, before: Fields, k: nat, t: nat)
    requires e.original == AsMap(before) && |before| == |e.attributes| && k < |before| && t < |before|
    requires forall i :: 0 <= i < |before| && i != k && i != t ==> before[i] == e.attributes[i]
    requires before[k].name == e.attributes[k].name && before[k] != e.attributes[k]
    ensures e.attributes[k] in Dirty(e)
    ensures forall g :: g in Dirty(e) ==> g == e.attributes[k] || g == e.attributes[t]
  {
    assert e.original[before[k].name] == before[k].value;
    forall g | g in Dirty(e) ensures g == e.attributes[k] || g == e.attributes[t] {
      var i :| 0 <= i < |e.attributes| && e.attributes[i] == g;
      assert e.original[before[i].name] == before[i].value;
    }
  }

  /** An ordered array whose only member is `f` is `[f]`. */
  lemma DirtyIsSingle(d: Fields, f: Field)
    requires forall g :: g in d <==> g == f
    ensures d == [f]
  {
    assert f in d;
    forall i | 0 <= i < |d| ensures d[i] == f {
      assert d[i] in d;
    }
    assert |d| == 1 by {
      assert DistinctNames(d);
      assert |d| >= 2 ==> d[0].name != d[1].name;
    }
  }

  /** In a table where every row is the user's and the last row is strictly
      newest by key, `lastChangeLog()` is that row. */
  lemma LastIsNewest(s: seq<Record>, u: Entity)
    requires |s| > 0 && forall r :: r in s ==> r.data.loggableType == u.className && r.data.loggableId == u.key
    requires forall k :: 0 <= k < |s| - 1 ==> s[k].createdAt == s[|s| - 1].createdAt && s[k].id < s[|s| - 1].id
    ensures LastChangeLog(s, u) == Some(s[|s| - 1])
  {
    var last := s[|s| - 1];
    var logs := ChangeLogs(s, u);
    assert last in logs;
    forall x | x in logs && x != last ensures Later(last, x) {
      var k :| 0 <= k < |s| && s[k] == x;
    }
  }

  /** Rows dated today, yesterday and a week ago: one matches `today()`, one
      `yesterday()`, three `withinDays(7)` and one `olderThanDays(2)`. */
  method DateScopes(today: Day, now: Timestamp) returns (store: LogStore)
    ensures |Where(store.records, ScopeToday(today))| == 1
    ensures |Where(store.records, ScopeYesterday(today))| == 1
    ensures |Where(store.records, ScopeWithinDays(7, today))| == 3
    ensures |Where(store.records, ScopeOlderThanDays(2, today))| == 1
  {
    store := new LogStore();
    var row := LogData(UserClass, "1", Create, None, Null, Null, None, None, None, None, None, None, [], Some(today));
    var r0 := store.Insert(row, today, now);
    var r1 := store.Insert(row.(loggableId := "2", date := Some(today - 1)), today, now);
    var r2 := store.Insert(row.(loggableId := "3", date := Some(today - 7)), today, now);
    assert store.records == [r0, r1, r2];
    ThreeDatedRows(store.records, today);
  }

  /** The counts of the date scopes over rows dated today, yesterday and a week ago. */
  lemma ThreeDatedRows(s: seq<Record>, today: Day)
    requires |s| == 3
    requires s[0].data.date == Some(today) && s[1].data.date == Some(today - 1) && s[2].data.date == Some(today - 7)
    ensures |Where(s, ScopeToday(today))| == 1
    ensures |Where(s, ScopeYesterday(today))| == 1
    ensures |Where(s, ScopeWithinDays(7, today))| == 3
    ensures |Where(s, ScopeOlderThanDays(2, today))| == 1
  {
    assert Holds(DateOn(today), s[0]) && !Holds(DateOn(today), s[1]) && !Holds(DateOn(today), s[2]);
    WhereOfThree(s, ScopeToday(today));
    assert !Holds(DateOn(today - 1), s[0]) && Holds(DateOn(today - 1), s[1]) && !Holds(DateOn(today - 1), s[2]);
    WhereOfThree(s, ScopeYesterday(today));
    assert Holds(DateFrom(today - 7), s[0]) && Holds(DateFrom(today - 7), s[1]) && Holds(DateFrom(today - 7), s[2]);
    WhereOfThree(s, ScopeWithinDays(7, today));
    assert !Holds(DateBefore(today - 2), s[0]) && !Holds(DateBefore(today - 2), s[1]) && Holds(DateBefore(today - 2), s[2]);
    WhereOfThree(s, ScopeOlderThanDays(2, today));
  }

  /** The row the auto-date test creates: no `date` given. */
  const DatelessRow: LogData :=
    LogData(UserClass, "999", Create, None, Null, Null, None, None, None, None, None, None, [], None)

  /** A row created without a date reads back with today's date. The test
      reads the date through the accessor, so its expectation holds under the
      hook as written too, although that hook leaves the stored column null;
      the store applies the intended hook, which stores today's date. */
  method DateAutoSet(today: Day, now: Timestamp) returns (r: Record)
    ensures ReadDate(r.data.date, today) == today
    ensures r.data.date == Some(today)
    ensures SavingAsWritten(DatelessRow, today).date.None?
    ensures ReadDate(SavingAsWritten(DatelessRow, today).date, today) == today
  {
    var store := new LogStore();
    r := store.Insert(DatelessRow, today, now);
  }
}
