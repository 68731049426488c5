/** Result types shared by the repositories and the domain services. */
module Common {

  datatype Option<+T> = None | Some(value: T)

  /** Failures raised by the database itself: a violated constraint. */
  datatype DbError =
    | UniqueViolation      // the unique index on renters.email
    | ForeignKeyViolation  // the foreign key locations.renterId -> renters.id

  /** What a repository write yields: the promise resolves with a value or rejects with a storage error. */
  datatype Stored<+T> = Done(value: T) | Failed(error: DbError)

  /** What a domain service yields: the value, one of the domain errors, or a storage error passed on unchanged. */
  datatype Outcome<+T> =
    | Ok(value: T)
    | NotFound(entity: string, id: int)  // EntityNotFoundException(entity, id)
    | Conflict(message: string)          // ConflictException
    | InvalidType(message: string)       // Error raised by the location type check
    | StorageFailure(error: DbError)     // rethrown unchanged
}

/** Listing the rows of a table: a table is a map from id to row, listed by ascending id. */
module Tables {

  lemma {:induction false} LeastExists(ids: set<int>)
    requires ids != {}
    ensures exists m :: m in ids && forall k :: k in ids ==> m <= k
    decreases |ids|
  {
    assert (forall k :: k !in ids) ==> ids == {};
    var x :| x in ids;
    var rest := ids - {x};
    if rest == {} {
      assert ids == rest + {x};
    } else {
      LeastExists(rest);
      var m :| m in rest && forall k :: k in rest ==> m <= k;
      assert forall k :: k in ids ==> k == x || k in rest;
      var least := if x < m then x else m;
      assert least in ids && forall k :: k in ids ==> least <= k;
    }
  }

  /** The smallest id of a non-empty set. */
  function Least(ids: set<int>): (m: int)
    requires ids != {}
    ensures m in ids
    ensures forall k :: k in ids ==> m <= k
  {
    LeastExists(ids);
    var m :| m in ids && forall k :: k in ids ==> m <= k;
    m
  }

  /** The ids of a set, each once, in ascending order. */
  function Ascending(ids: set<int>): (r: seq<int>)
    ensures |r| == |ids|
    ensures forall k :: k in r <==> k in ids
    ensures forall i, j :: 0 <= i < j < |r| ==> r[i] < r[j]
    decreases |ids|
  {
    if ids == {} then []
    else
      var m := Least(ids);
      [m] + Ascending(ids - {m})
  }

  /** The rows stored under the given ids, in ascending id order. */
  function Listing<T>(rows: map<int, T>, ids: set<int>): (r: seq<T>)
    requires ids <= rows.Keys
    ensures |r| == |ids|
    ensures forall k :: k in ids ==> rows[k] in r
    ensures forall x :: x in r ==> exists k :: k in ids && rows[k] == x
  {
    var ks := Ascending(ids);
    var r := seq(|ks|, i requires 0 <= i < |ks| => rows[ks[i]]);
    assert forall k :: k in ids ==> rows[k] in r by {
      forall k | k in ids ensures rows[k] in r {
        var i :| 0 <= i < |ks| && ks[i] == k;
        assert r[i] == rows[k];
      }
    }
    r
  }
}
