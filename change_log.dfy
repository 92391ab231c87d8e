/** The `ChangeLog` Eloquent model: the columns a log row carries, its
    mass-assignment whitelist, the `date` saving hook and accessor, the query
    scopes as conditions on a row, and the table itself as a store of rows. */
module ChangeLogModel {
  import opened Values
  import opened RecordAction

  /** A calendar date as a day number; consecutive days differ by one. */
  type Day = int
  /** The `created_at` timestamp. */
  type Timestamp = int

  /** The fourteen fillable columns of a log row. A key missing from the array
      given to `create` and a key holding null both persist as NULL, which
      `None` (or `Null` for the JSON payloads, `[]` for tags) stands for. */
  datatype LogData = LogData(
    loggableType: string,
    loggableId: string,
    action: Action,
    fieldColumn: Option<string>,
    oldValue: Val,
    newValue: Val,
    userId: Option<string>,
    ipAddress: Option<string>,
    userAgent: Option<string>,
    httpMethod: Option<string>,
    endpoint: Option<string>,
    description: Option<string>,
    tags: seq<string>,
    date: Option<Day>
  )

  /** A stored row: its key, its columns and its creation time. The table's
      key is a UUID (`HasUuids`); the model orders keys by creation, as a
      counter would, which time-ordered UUIDs do only approximately. */
  datatype Record = Record(id: nat, data: LogData, createdAt: Timestamp)

  /** The `$fillable` whitelist. */
  const Fillable: seq<string> :=
    ["loggable_type", "loggable_id", "action", "field_column", "old_value",
     "new_value", "user_id", "ip_address", "user_agent", "method", "endpoint",
     "description", "tags", "date"]

  /** Mass assignment keeps the whitelisted keys of the given attributes and
      silently drops the others. */
  function MassAssign(attrs: map<string, Val>): (m: map<string, Val>)
    ensures forall k :: k in m <==> k in attrs && k in Fillable
    ensures forall k :: k in m ==> m[k] == attrs[k]
  {
    map k | k in attrs && k in Fillable :: attrs[k]
  }

  /** Mass assignment never sets the key or the timestamps. */
  lemma FillableWhitelist(attrs: map<string, Val>)
    ensures "id" !in MassAssign(attrs)
    ensures "created_at" !in MassAssign(attrs) && "updated_at" !in MassAssign(attrs)
  {
    assert "id" !in Fillable;
    assert "created_at" !in Fillable;
  }

  /** Mass assignment keeps the payload columns that are given. */
  lemma FillableKeepsPayload(attrs: map<string, Val>)
    ensures forall k :: k in attrs && k in ["loggable_type", "action", "old_value", "new_value"] ==> k in MassAssign(attrs)
  {
  }

  /** The `date` accessor: the stored date, or today's date when the column is null. */
  function ReadDate(raw: Option<Day>, today: Day): Day {
    if raw.Some? then raw.value else today
  }

  /** The saving hook as written. Its test `empty($model->date)` reads the
      attribute through the accessor above, which yields a date object (today's
      when the column is null) and so is never empty: the hook never assigns. */
  function SavingAsWritten(d: LogData, today: Day): LogData {
    d
  }

  /** The saving hook as intended: a missing date becomes today's date. */
  function Saving(d: LogData, today: Day): (r: LogData)
    ensures r.date.Some?
    ensures d.date.None? ==> r.date == Some(today)
    ensures d.date.Some? ==> r == d
    ensures r == d.(date := r.date)
  {
    if d.date.None? then d.(date := Some(today)) else d
  }

  /** A row saved without a date keeps a null column under the hook as
      written, while reading it reports today's date: the row then matches no
      date condition, so no date scope finds it and no cleanup deletes it. */
  lemma SavingAsWrittenLeavesNullDate(d: LogData, today: Day, id: nat, now: Timestamp)
    requires d.date.None?
    ensures SavingAsWritten(d, today).date.None?
    ensures ReadDate(SavingAsWritten(d, today).date, today) == today
    ensures forall c :: IsDateCondition(c) ==> !Holds(c, Record(id, SavingAsWritten(d, today), now))
    ensures Saving(d, today).date == Some(today)
    ensures Holds(ScopeToday(today), Record(id, Saving(d, today), now))
  {
  }

  /** The saved date is what the test reads back: today's date when none was
      given, the given date otherwise. */
  lemma SavedDateReadsBack(d: LogData, today: Day)
    ensures ReadDate(Saving(d, today).date, today) == ReadDate(d.date, today)
    ensures d.date.None? ==> ReadDate(Saving(d, today).date, today) == today
  {
  }

  // ---------------------------------------------------------------------
  // Query conditions and scopes

  /** A `where` condition on one column, as the scopes and the service emit them. */
  datatype Condition =
    | ActionIs(name: string)            // where('action', name)
    | TypeIs(loggableType: string)      // where('loggable_type', t)
    | IdIs(loggableId: string)          // where('loggable_id', id)
    | UserIs(user: Option<string>)      // where('user_id', u); null compares with whereNull
    | DateBetween(from: Day, to: Day)   // whereBetween('date', [from, to])
    | DateOn(day: Day)                  // whereDate('date', day)
    | DateFrom(start: Day)              // where('date', '>=', start)
    | DateBefore(cutoff: Day)           // where('date', '<', cutoff)
    | TagIn(tag: string)                // whereJsonContains('tags', tag)

  predicate IsDateCondition(c: Condition) {
    c.DateBetween? || c.DateOn? || c.DateFrom? || c.DateBefore?
  }

  /** Whether a row satisfies a condition; a null date satisfies no date comparison. */
  predicate Holds(c: Condition, r: Record) {
    match c
    case ActionIs(n) => Name(r.data.action) == n
    case TypeIs(t) => r.data.loggableType == t
    case IdIs(id) => r.data.loggableId == id
    case UserIs(u) => r.data.userId == u
    case DateBetween(a, b) => r.data.date.Some? && a <= r.data.date.value <= b
    case DateOn(d) => r.data.date == Some(d)
    case DateFrom(d) => r.data.date.Some? && r.data.date.value >= d
    case DateBefore(d) => r.data.date.Some? && r.data.date.value < d
    case TagIn(t) => t in r.data.tags
  }

  function ScopeAction(action: string): Condition { ActionIs(Upper(action)) }
  function ScopeForModel(modelClass: string): Condition { TypeIs(modelClass) }
  function ScopeByUser(user: Option<string>): Condition { UserIs(user) }
  function ScopeDateRange(startDate: Day, endDate: Day): Condition { DateBetween(startDate, endDate) }
  function ScopeOnDate(day: Day): Condition { DateOn(day) }
  function ScopeWithinDays(days: int, today: Day): Condition { DateFrom(today - days) }
  function ScopeOlderThanDays(days: int, today: Day): Condition { DateBefore(today - days) }
  function ScopeWithTag(tag: string): Condition { TagIn(tag) }
  function ScopeToday(today: Day): Condition { DateOn(today) }
  function ScopeYesterday(today: Day): Condition { DateOn(today - 1) }
  /** The week's first and last day come from the calendar. */
  function ScopeThisWeek(weekStart: Day, weekEnd: Day): Condition { DateBetween(weekStart, weekEnd) }
  /** The month's first and last day come from the calendar. */
  function ScopeThisMonth(monthStart: Day, monthEnd: Day): Condition { DateBetween(monthStart, monthEnd) }

  /** The action scope upper-cases its argument: any spelling of an action's
      name selects exactly the rows of that action, and nothing else matches
      a spelling that is no action's name. */
  lemma ScopeActionIgnoresCase(r: Record, action: string)
    ensures Holds(ScopeAction(action), r) <==> Holds(ScopeAction(Upper(action)), r)
    ensures Holds(ScopeAction(action), r) <==> FromName(Upper(action)) == Some(r.data.action)
    ensures Holds(ScopeAction(Lower(Name(r.data.action))), r)
  {
    UpperIdempotent(action);
    var n := Name(r.data.action);
    NameCase(r.data.action);
    var l := Lower(n);
    assert Upper(l) == n by {
      forall i | 0 <= i < |n| ensures Upper(l)[i] == n[i] {
        assert 'A' <= n[i] <= 'Z';
      }
    }
  }

  /** Date ranges include both ends; single-day scopes match exactly one day. */
  lemma DateScopesInclusive(r: Record, from: Day, to: Day, today: Day)
    requires r.data.date.Some?
    ensures Holds(ScopeDateRange(from, to), r) <==> from <= r.data.date.value <= to
    ensures from <= to ==> (r.data.date == Some(from) || r.data.date == Some(to)) ==> Holds(ScopeDateRange(from, to), r)
    ensures Holds(ScopeToday(today), r) <==> r.data.date.value == today
    ensures Holds(ScopeYesterday(today), r) <==> r.data.date.value == today - 1
    ensures Holds(ScopeOnDate(from), r) <==> Holds(ScopeDateRange(from, from), r)
  {
  }

  /** For one N, "within N days" and "older than N days" split the dated rows. */
  lemma WithinAndOlderPartition(r: Record, days: int, today: Day)
    requires r.data.date.Some?
    ensures Holds(ScopeWithinDays(days, today), r) != Holds(ScopeOlderThanDays(days, today), r)
  {
  }

  // ---------------------------------------------------------------------
  // Filtering and ordering rows

  /** The rows of `s` satisfying `c`, in their order. */
  function Where(s: seq<Record>, c: Condition): (r: seq<Record>)
    ensures forall x :: x in r <==> x in s && Holds(c, x)
  {
    if s == [] then []
    else
      var p, x := s[..|s| - 1], s[|s| - 1];
      assert s == p + [x];
      Where(p, c) + if Holds(c, x) then [x] else []
  }

  /** A `where` keeps the order of the rows it keeps. */
  lemma {:induction false} WhereKeepsNewestFirst(s: seq<Record>, c: Condition)
    requires NewestFirst(s)
    ensures NewestFirst(Where(s, c))
  {
    if s != [] {
      var p, x := s[..|s| - 1], s[|s| - 1];
      assert s == p + [x];
      assert NewestFirst(p) by {
        forall i, j | 0 <= i < j < |p| ensures p[i].createdAt >= p[j].createdAt {
          assert p[i] == s[i] && p[j] == s[j];
        }
      }
      WhereKeepsNewestFirst(p, c);
      var w := Where(p, c);
      forall y | y in w ensures y.createdAt >= x.createdAt {
        var j :| 0 <= j < |p| && p[j] == y;
        assert s[j] == y;
      }
    }
  }

  /** The rows of `s` not satisfying `c`, in their order. */
  function Except(s: seq<Record>, c: Condition): (r: seq<Record>)
    ensures forall x :: x in r <==> x in s && !Holds(c, x)
  {
    if s == [] then []
    else
      var p, x := s[..|s| - 1], s[|s| - 1];
      assert s == p + [x];
      Except(p, c) + if Holds(c, x) then [] else [x]
  }

  /** Keys strictly increase from the first row to the last. */
  ghost predicate IdsIncreasing(s: seq<Record>) {
    forall i, j :: 0 <= i < j < |s| ==> s[i].id < s[j].id
  }

  /** Removing rows keeps the survivors in their order. */
  lemma {:induction false} ExceptKeepsOrder(s: seq<Record>, c: Condition)
    requires IdsIncreasing(s)
    ensures IdsIncreasing(Except(s, c))
  {
    if s != [] {
      var p, x := s[..|s| - 1], s[|s| - 1];
      assert s == p + [x];
      ExceptKeepsOrder(p, c);
      var q := Except(p, c);
      if !Holds(c, x) {
        forall y | y in q ensures y.id < x.id {
          var k :| 0 <= k < |p| && p[k] == y;
          assert s[k] == y;
        }
        IncreasingSnoc(q, x);
      }
    }
  }

  lemma IncreasingSnoc(q: seq<Record>, x: Record)
    requires IdsIncreasing(q) && forall y :: y in q ==> y.id < x.id
    ensures IdsIncreasing(q + [x])
  {
    forall i, j | 0 <= i < j < |q| + 1 ensures (q + [x])[i].id < (q + [x])[j].id {
      if j == |q| {
        assert q[i] in q;
      }
    }
  }

  /** Filtering one more row of a prefix. */
  lemma FilterStep(s: seq<Record>, i: nat, c: Condition)
    requires i < |s|
    ensures Where(s[..i + 1], c) == Where(s[..i], c) + if Holds(c, s[i]) then [s[i]] else []
    ensures Except(s[..i + 1], c) == Except(s[..i], c) + if Holds(c, s[i]) then [] else [s[i]]
  {
    assert s[..i + 1][..i] == s[..i];
  }

  /** Every row either satisfies `c` or survives its removal. */
  lemma {:induction false} WhereExceptSplit(s: seq<Record>, c: Condition)
    ensures |Where(s, c)| + |Except(s, c)| == |s|
  {
    if s != [] {
      WhereExceptSplit(s[..|s| - 1], c);
    }
  }

  /** A row passes a chain of `where` conditions. */
  predicate AllHold(cs: seq<Condition>, x: Record) {
    cs == [] || (AllHold(cs[..|cs| - 1], x) && Holds(cs[|cs| - 1], x))
  }

  /** Chaining one more `where`. */
  lemma AllHoldSnoc(cs: seq<Condition>, c: Condition, x: Record)
    ensures AllHold(cs + [c], x) <==> AllHold(cs, x) && Holds(c, x)
  {
    assert (cs + [c])[..|cs|] == cs;
  }

  /** A row passes a chain exactly when it passes each of its conditions. */
  lemma {:induction false} AllHoldEach(cs: seq<Condition>, x: Record)
    ensures AllHold(cs, x) <==> forall c :: c in cs ==> Holds(c, x)
  {
    if cs != [] {
      var p, c := cs[..|cs| - 1], cs[|cs| - 1];
      AllHoldEach(p, x);
      assert cs == p + [c];
      assert forall d :: d in cs <==> d in p || d == c;
    }
  }

  /** The rows satisfying every condition of `cs`, in their order. */
  function FilterAll(s: seq<Record>, cs: seq<Condition>): (r: seq<Record>)
    ensures forall x :: x in r <==> x in s && AllHold(cs, x)
  {
    if s == [] then []
    else
      var p, x := s[..|s| - 1], s[|s| - 1];
      assert s == p + [x];
      FilterAll(p, cs) + if AllHold(cs, x) then [x] else []
  }

  /** Newest first by `created_at`. */
  ghost predicate NewestFirst(s: seq<Record>) {
    forall i, j :: 0 <= i < j < |s| ==> s[i].createdAt >= s[j].createdAt
  }

  function InsertNewestFirst(x: Record, s: seq<Record>): (r: seq<Record>)
    requires NewestFirst(s)
    ensures NewestFirst(r)
    ensures multiset(r) == multiset(s) + multiset{x}
  {
    if s == [] || x.createdAt >= s[0].createdAt then
      ConsNewestFirst(x, s);
      [x] + s
    else
      TailNewestFirst(s);
      var tail := InsertNewestFirst(x, s[1..]);
      HeadNotOlder(s, tail, x);
      ConsNewestFirst(s[0], tail);
      assert s == [s[0]] + s[1..];
      [s[0]] + tail
  }

  lemma TailNewestFirst(s: seq<Record>)
    requires NewestFirst(s) && s != []
    ensures NewestFirst(s[1..])
  {
    var t := s[1..];
    forall i, j | 0 <= i < j < |t| ensures t[i].createdAt >= t[j].createdAt {
      assert t[i] == s[i + 1] && t[j] == s[j + 1];
    }
  }

  /** A row no older than any row of a newest-first list can go in front. */
  lemma ConsNewestFirst(h: Record, t: seq<Record>)
    requires NewestFirst(t)
    requires t != [] ==> h.createdAt >= t[0].createdAt
    ensures NewestFirst([h] + t)
  {
    var r := [h] + t;
    forall i, j | 0 <= i < j < |r| ensures r[i].createdAt >= r[j].createdAt {
      if i == 0 {
        assert r[j] == t[j - 1];
        assert t[0].createdAt >= t[j - 1].createdAt || j - 1 == 0;
      } else {
        assert r[i] == t[i - 1] && r[j] == t[j - 1];
      }
    }
  }

  /** The head of a newest-first list is no older than the rows of the rest
      with one older row added. */
  lemma HeadNotOlder(s: seq<Record>, t: seq<Record>, x: Record)
    requires NewestFirst(s) && s != [] && s[0].createdAt >= x.createdAt
    requires multiset(t) == multiset(s[1..]) + multiset{x}
    ensures t != [] ==> s[0].createdAt >= t[0].createdAt
  {
    if t != [] {
      var y := t[0];
      assert y in multiset(t);
      if y != x {
        assert y in multiset(s[1..]);
        var j :| 0 <= j < |s[1..]| && s[1..][j] == y;
        assert s[j + 1] == y;
      }
    }
  }

  /** `orderBy('created_at', 'desc')`: the same rows, newest first; rows with
      equal timestamps keep their stored order. */
  function SortNewestFirst(s: seq<Record>): (r: seq<Record>)
    ensures NewestFirst(r)
    ensures multiset(r) == multiset(s)
  {
    if s == [] then []
    else
      assert s == [s[0]] + s[1..];
      InsertNewestFirst(s[0], SortNewestFirst(s[1..]))
  }

  /** Reordering keeps exactly the same rows. */
  lemma SameRows(r: seq<Record>, s: seq<Record>)
    requires multiset(r) == multiset(s)
    ensures forall x :: x in r <==> x in s
  {
    forall x ensures x in r <==> x in s {
      assert x in r <==> x in multiset(r);
      assert x in s <==> x in multiset(s);
    }
  }

  /** Ordering by `created_at` descending, then by key descending. */
  predicate Later(x: Record, y: Record) {
    x.createdAt > y.createdAt || (x.createdAt == y.createdAt && x.id > y.id)
  }

  /** The first row under that ordering, if any. */
  function Latest(s: seq<Record>): (r: Option<Record>)
    ensures r.None? <==> s == []
    ensures r.Some? ==> r.value in s && forall x :: x in s ==> !Later(x, r.value)
  {
    if s == [] then None
    else
      assert s == [s[0]] + s[1..];
      match Latest(s[1..])
      case None => Some(s[0])
      case Some(y) => if Later(y, s[0]) then Some(y) else Some(s[0])
  }

  /** The first `limit` rows; Laravel ignores a negative limit. */
  function Limit(s: seq<Record>, limit: int): (r: seq<Record>)
    ensures limit >= 0 ==> |r| == if limit < |s| then limit else |s|
    ensures limit < 0 ==> r == s
    ensures r <= s
  {
    if limit < 0 || limit >= |s| then s else s[..limit]
  }

  // ---------------------------------------------------------------------
  // The table

  /** `after` is `before` followed by one saved row per entry of `ds`, in
      order, each stamped with `now`. */
  ghost predicate Appended(after: seq<Record>, before: seq<Record>, ds: seq<LogData>, today: Day, now: Timestamp) {
    && |after| == |before| + |ds|
    && after[..|before|] == before
    && forall j :: |before| <= j < |after| ==>
         after[j].data == Saving(ds[j - |before|], today) && after[j].createdAt == now
  }

  lemma AppendedNothing(s: seq<Record>, today: Day, now: Timestamp)
    ensures Appended(s, s, [], today, now)
  {
  }

  lemma AppendedOneMore(after: seq<Record>, mid: seq<Record>, before: seq<Record>,
                        ds: seq<LogData>, d: LogData, r: Record, today: Day, now: Timestamp)
    requires Appended(mid, before, ds, today, now)
    requires after == mid + [r] && r.data == Saving(d, today) && r.createdAt == now
    ensures Appended(after, before, ds + [d], today, now)
  {
    assert after[..|before|] == mid[..|before|];
  }

  /** Appending `ds` and then `es` appends `ds + es`. */
  lemma AppendedChain(after: seq<Record>, mid: seq<Record>, before: seq<Record>,
                      ds: seq<LogData>, es: seq<LogData>, today: Day, now: Timestamp)
    requires Appended(mid, before, ds, today, now)
    requires Appended(after, mid, es, today, now)
    ensures Appended(after, before, ds + es, today, now)
  {
    assert after[..|before|] == mid[..|before|];
    forall j | |before| <= j < |after|
      ensures after[j].data == Saving((ds + es)[j - |before|], today) && after[j].createdAt == now
    {
      if j < |mid| {
        assert after[j] == mid[j];
      }
    }
  }

  /** Every row has a date and a key below `nextId`, and keys grow along
      the table: each new key is taken from the counter `nextId`, the model's
      stand-in for a fresh, creation-ordered UUID. */
  ghost predicate TableInvariant(s: seq<Record>, nextId: nat) {
    && (forall r :: r in s ==> r.id < nextId && r.data.date.Some?)
    && IdsIncreasing(s)
  }

  /** Deleting the rows satisfying `c` keeps the table invariant, and every
      row is either deleted or kept. */
  lemma ExceptKeepsInvariant(s: seq<Record>, c: Condition, nextId: nat)
    requires TableInvariant(s, nextId)
    ensures TableInvariant(Except(s, c), nextId)
    ensures |Where(s, c)| + |Except(s, c)| == |s|
  {
    ExceptKeepsOrder(s, c);
    WhereExceptSplit(s, c);
  }

  /** One pass over the rows: the rows not satisfying `c`, in order, and the
      number that do. */
  method Partition(rows: seq<Record>, c: Condition) returns (kept: seq<Record>, deleted: nat)
    ensures kept == Except(rows, c)
    ensures deleted == |Where(rows, c)|
  {
    kept := [];
    deleted := 0;
    var i := 0;
    while i < |rows|
      invariant 0 <= i <= |rows|
      invariant kept == Except(rows[..i], c)
      invariant deleted == |Where(rows[..i], c)|
    {
      FilterStep(rows, i, c);
      if Holds(c, rows[i]) {
        deleted := deleted + 1;
      } else {
        kept := kept + [rows[i]];
      }
      i := i + 1;
    }
    assert rows[..i] == rows;
  }

  /** The `change_logs` table. */
  class LogStore {
    var records: seq<Record>
    var nextId: nat

    ghost predicate Valid()
      reads this
    {
      TableInvariant(records, nextId)
    }

    constructor ()
      ensures Valid() && records == [] && nextId == 0
    {
      records := [];
      nextId := 0;
    }

    /** `ChangeLog::query()->create($d)`: runs the saving hook (the corrected
        one, `Saving`), assigns a new key and the creation time, and appends
        the row. */
    method Insert(d: LogData, today: Day, now: Timestamp) returns (r: Record)
      requires Valid()
      modifies this
      ensures Valid()
      ensures r == Record(old(nextId), Saving(d, today), now)
      ensures records == old(records) + [r] && nextId == old(nextId) + 1
    {
      r := Record(nextId, Saving(d, today), now);
      records := records + [r];
      nextId := nextId + 1;
    }

    /** `->where(c)->delete()`: removes the rows satisfying `c` and returns
        how many there were. */
    method DeleteWhere(c: Condition) returns (deleted: nat)
      requires Valid()
      modifies this
      ensures Valid()
      ensures records == Except(old(records), c) && nextId == old(nextId)
      ensures forall x :: x in records <==> x in old(records) && !Holds(c, x)
      ensures deleted == |Where(old(records), c)|
      ensures deleted + |records| == |old(records)|
    {
      var kept;
      kept, deleted := Partition(records, c);
      ExceptKeepsInvariant(records, c, nextId);
      records := kept;
    }
  }
}
