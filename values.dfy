/**
 * Values handled by the change-log pipeline: optional values, PHP attribute
 * values, PHP's ordered attribute arrays, and the ASCII case mapping that
 * `strtoupper`/`strtolower` perform.
 */
module Values {

  datatype Option<+T> = None | Some(value: T) {
    function GetOr(default: T): T {
      match this
      case Some(v) => v
      case None => default
    }
  }

  /** A PHP attribute value as the pipeline sees it.
      - Date: a date/time object; `ymdHis` is what its `format('Y-m-d H:i:s')`
        returns, `mutable` says it is a `\DateTime` (as opposed to a
        `DateTimeImmutable`), and `arrayForm` is what its `toArray()` returns
        when the object has such a method.
      - Obj: any other object, with the result of its `toArray()` when it has one.
      - Arr: a PHP array (and the decoded form of a JSON column). */
  datatype Val =
    | Null
    | Bool(b: bool)
    | Num(n: int)
    | Str(s: string)
    | Arr(items: map<string, Val>)
    | Date(ymdHis: string, mutable: bool, arrayForm: Option<map<string, Val>>)
    | Obj(toArray: Option<map<string, Val>>)

  /** One key/value entry of a PHP array. */
  datatype Field = Field(name: string, value: Val)

  ghost predicate DistinctNames(s: seq<Field>) {
    forall i, j :: 0 <= i < j < |s| ==> s[i].name != s[j].name
  }

  /** A PHP array with string keys: ordered, each key at most once. */
  type Fields = s: seq<Field> | DistinctNames(s) witness []

  function Names(s: seq<Field>): set<string> {
    set j | 0 <= j < |s| :: s[j].name
  }

  /** Adding an entry with a new key to an array. */
  lemma NamesSnoc(p: seq<Field>, f: Field)
    ensures Names(p + [f]) == Names(p) + {f.name}
  {
    var q := p + [f];
    forall x | x in Names(q) ensures x in Names(p) + {f.name} {
      var j :| 0 <= j < |q| && q[j].name == x;
      if j < |p| {
        assert p[j] == q[j];
      }
    }
    forall x | x in Names(p) ensures x in Names(q) {
      var j :| 0 <= j < |p| && p[j].name == x;
      assert q[j] == p[j];
    }
    assert q[|p|] == f;
  }

  /** A prefix of an array has distinct keys too. */
  lemma PrefixDistinct(s: seq<Field>, n: nat)
    requires DistinctNames(s) && n <= |s|
    ensures DistinctNames(s[..n])
  {
    var p := s[..n];
    forall i, j | 0 <= i < j < |p| ensures p[i].name != p[j].name {
      assert p[i] == s[i] && p[j] == s[j];
    }
  }

  /** The array as an (unordered) map, built entry by entry. */
  function AsMap(s: Fields): (m: map<string, Val>)
    ensures m.Keys == Names(s)
    ensures forall j :: 0 <= j < |s| ==> m[s[j].name] == s[j].value
  {
    if s == [] then map[]
    else
      var n := |s| - 1;
      PrefixDistinct(s, n);
      var p, f := s[..n], s[n];
      assert s == p + [f];
      NamesSnoc(p, f);
      assert forall j :: 0 <= j < n ==> s[j].name != f.name;
      AsMap(p)[f.name := f.value]
  }

  /** The map of the first `n` entries of an array. */
  function AsMapPrefix(s: Fields, n: nat): (m: map<string, Val>)
    requires n <= |s|
    ensures n == |s| ==> m == AsMap(s)
  {
    PrefixDistinct(s, n);
    assert n == |s| ==> s[..n] == s;
    AsMap(s[..n])
  }

  /** Adding the next entry of an array to the map of the entries before it. */
  lemma AsMapPrefixStep(s: Fields, n: nat)
    requires n < |s|
    ensures AsMapPrefix(s, n + 1) == AsMapPrefix(s, n)[s[n].name := s[n].value]
  {
    PrefixDistinct(s, n);
    PrefixDistinct(s, n + 1);
    assert s[..n + 1][..n] == s[..n];
  }

  /** Keeps the entries whose key is not listed, in their order. */
  function Drop(s: seq<Field>, keys: set<string>): (r: seq<Field>)
    ensures forall f :: f in r <==> f in s && f.name !in keys
  {
    if s == [] then []
    else if s[0].name in keys then Drop(s[1..], keys)
    else [s[0]] + Drop(s[1..], keys)
  }

  lemma {:induction false} DropDistinct(s: seq<Field>, keys: set<string>)
    requires DistinctNames(s)
    ensures DistinctNames(Drop(s, keys))
  {
    if s != [] {
      var rest := s[1..];
      DropDistinct(rest, keys);
      var tail := Drop(rest, keys);
      if s[0].name !in keys {
        forall f | f in tail ensures f.name != s[0].name {
          var j :| 0 <= j < |rest| && rest[j] == f;
          assert s[j + 1] == f;
        }
        var r := [s[0]] + tail;
        forall i, j | 0 <= i < j < |r| ensures r[i].name != r[j].name {
          if i == 0 { assert r[j] in tail; }
          else { assert r[i] == tail[i - 1] && r[j] == tail[j - 1]; }
        }
      }
    }
  }

  lemma DropNames(s: seq<Field>, keys: set<string>)
    ensures Names(Drop(s, keys)) == Names(s) - keys
  {
    var r := Drop(s, keys);
    forall x | x in Names(r) ensures x in Names(s) - keys {
      var j :| 0 <= j < |r| && r[j].name == x;
      assert r[j] in s;
    }
    forall x | x in Names(s) - keys ensures x in Names(r) {
      var j :| 0 <= j < |s| && s[j].name == x;
      assert s[j] in r;
    }
  }

  /** `array_diff_key($s, array_flip($keys))`: drops the entries whose key is
      listed, keeping the order of the others. */
  function WithoutKeys(s: Fields, keys: set<string>): (r: Fields)
    ensures Names(r) == Names(s) - keys
    ensures forall f :: f in r <==> f in s && f.name !in keys
  {
    DropDistinct(s, keys);
    DropNames(s, keys);
    Drop(s, keys)
  }

  // ASCII case mapping, as PHP 8's strtoupper/strtolower perform it.

  function UpperChar(c: char): char {
    if 'a' <= c <= 'z' then (c as int - 32) as char else c
  }

  function LowerChar(c: char): char {
    if 'A' <= c <= 'Z' then (c as int + 32) as char else c
  }

  function Upper(s: string): (r: string)
    ensures |r| == |s|
    ensures forall i :: 0 <= i < |s| ==> r[i] == UpperChar(s[i])
  {
    seq(|s|, i requires 0 <= i < |s| => UpperChar(s[i]))
  }

  function Lower(s: string): (r: string)
    ensures |r| == |s|
    ensures forall i :: 0 <= i < |s| ==> r[i] == LowerChar(s[i])
  {
    seq(|s|, i requires 0 <= i < |s| => LowerChar(s[i]))
  }

  /** No lower-case ASCII letter is left after upper-casing, so a second
      upper-casing changes nothing. */
  lemma UpperIdempotent(s: string)
    ensures forall i :: 0 <= i < |Upper(s)| ==> !('a' <= Upper(s)[i] <= 'z')
    ensures Upper(Upper(s)) == Upper(s)
  {
    assert forall i :: 0 <= i < |s| ==> UpperChar(UpperChar(s[i])) == UpperChar(s[i]);
  }
}
