/** The closed set of logged actions and their stored names. */
module RecordAction {
  import opened Values

  datatype Action = Create | Update | Delete | Restore

  const AllActions: set<Action> := {Create, Update, Delete, Restore}

  /** The backed value of each enum case, as stored in the `action` column. */
  function Name(a: Action): string {
    match a
    case Create => "CREATE"
    case Update => "UPDATE"
    case Delete => "DELETE"
    case Restore => "RESTORE"
  }

  /** `RecordAction::tryFrom`: the case whose stored name is exactly `s`. */
  function FromName(s: string): (r: Option<Action>)
    ensures forall a :: r == Some(a) <==> Name(a) == s
  {
    if s == "CREATE" then Some(Create)
    else if s == "UPDATE" then Some(Update)
    else if s == "DELETE" then Some(Delete)
    else if s == "RESTORE" then Some(Restore)
    else None
  }

  /** Stored names are already upper case, and `strtolower` of a name gives
      the key used in the `track_actions` configuration map. */
  lemma NameCase(a: Action)
    ensures Upper(Name(a)) == Name(a)
    ensures Lower(Name(a)) == match a
      case Create => "create"
      case Update => "update"
      case Delete => "delete"
      case Restore => "restore"
  {
    var n := Name(a);
    assert Upper(n) == n by {
      assert forall i :: 0 <= i < |n| ==> 'A' <= n[i] <= 'Z';
    }
    match a
    case Create => assert Lower(n) == "create";
    case Update => assert Lower(n) == "update";
    case Delete => assert Lower(n) == "delete";
    case Restore => assert Lower(n) == "restore";
  }
}
