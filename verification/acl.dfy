/**
  The two tables of app/model/acl.py, `api_keys` and `api_access`, as
  sequences of rows in insertion order, together with the query shapes the
  handlers use (`WHERE column == value`, then `scalar()` or
  `scalar_one_or_none()`).

  The schema makes `id` the primary key of each table and `api_keys.key`
  unique; it declares `api_access.api_key` a foreign key into
  `api_keys.key`, and it declares NO uniqueness over
  (`api_key`, `api_name`).  `Valid` collects what the handlers keep true
  on top of the schema.
 */
module Acl {
  import opened Wrappers

  /** A row of `api_keys`: `created_at` is the clock value at insertion. */
  datatype ApiKey = ApiKey(id: nat, key: string, createdAt: int)

  /** A row of `api_access`: a grant of `accessLimit` calls of `apiName` to the key `apiKey`. */
  datatype ApiAccess = ApiAccess(id: nat, apiKey: string, apiName: string, accessLimit: int, accessCount: int)

  /** The (key, api name) pair an access row is about. */
  datatype AccessPair = AccessPair(apiKey: string, apiName: string)

  datatype Db = Db(apiKeys: seq<ApiKey>, apiAccess: seq<ApiAccess>)

  /** `access_count` has column default 0 and is not set by the constructor call. */
  const DefaultAccessCount: int := 0

  /** `APIAccess(api_key=…, api_name=…, access_limit=…)` as inserted. */
  function NewApiAccess(id: nat, key: string, apiName: string, accessLimit: int): ApiAccess
  {
    ApiAccess(id, key, apiName, accessLimit, DefaultAccessCount)
  }

  function PairOf(a: ApiAccess): AccessPair
  {
    AccessPair(a.apiKey, a.apiName)
  }

  // Columns of the tables, as sequences parallel to the rows.

  function KeyColumn(rows: seq<ApiKey>): (c: seq<string>)
    ensures |c| == |rows|
    ensures forall i :: 0 <= i < |rows| ==> c[i] == rows[i].key
  {
    seq(|rows|, i requires 0 <= i < |rows| => rows[i].key)
  }

  function KeyIdColumn(rows: seq<ApiKey>): (c: seq<nat>)
    ensures |c| == |rows|
    ensures forall i :: 0 <= i < |rows| ==> c[i] == rows[i].id
  {
    seq(|rows|, i requires 0 <= i < |rows| => rows[i].id)
  }

  function PairColumn(rows: seq<ApiAccess>): (c: seq<AccessPair>)
    ensures |c| == |rows|
    ensures forall i :: 0 <= i < |rows| ==> c[i] == PairOf(rows[i])
  {
    seq(|rows|, i requires 0 <= i < |rows| => PairOf(rows[i]))
  }

  // A separate column function per table, since the two tables have different row types.
  function AccessIdColumn(rows: seq<ApiAccess>): (c: seq<nat>)
    ensures |c| == |rows|
    ensures forall i :: 0 <= i < |rows| ==> c[i] == rows[i].id
  {
    seq(|rows|, i requires 0 <= i < |rows| => rows[i].id)
  }

  /** The issued keys. */
  function KeySet(rows: seq<ApiKey>): set<string>
  {
    set r | r in rows :: r.key
  }

  /**
    The positions, in increasing order, of the rows whose column equals
    `v`: the result of `SELECT … WHERE column == v` in insertion order.
   */
  function IndicesOf<T(==)>(column: seq<T>, v: T): (ix: seq<nat>)
    ensures forall j :: 0 <= j < |ix| ==> ix[j] < |column| && column[ix[j]] == v
    ensures forall i :: 0 <= i < |column| && column[i] == v ==> i in ix
    ensures forall j, k :: 0 <= j < k < |ix| ==> ix[j] < ix[k]
  {
    if |column| == 0 then []
    else
      var rest := IndicesOf(column[..|column| - 1], v);
      if column[|column| - 1] == v then rest + [|column| - 1] else rest
  }

  /** What `scalar_one_or_none()` makes of a result: nothing, the one row, or `MultipleResultsFound`. */
  datatype Fetch = NoRow | OneRow(index: nat) | MultipleRows

  function ScalarOneOrNone(ix: seq<nat>): Fetch
  {
    if |ix| == 0 then NoRow else if |ix| == 1 then OneRow(ix[0]) else MultipleRows
  }

  /**
    What `scalar()` makes of a result: its first row, or `None`.  A query
    without `ORDER BY` on these tables returns rows in rowid order, which is
    the order of `id` (an `INTEGER PRIMARY KEY`); under `IdsIncreasing` that
    is position order, so the first row is the matching row with the lowest
    id (`ScalarPicksLowestId`).
   */
  function Scalar(ix: seq<nat>): Option<nat>
  {
    if |ix| == 0 then None else Some(ix[0])
  }

  /** The largest id in a column, 0 for an empty table. */
  function MaxId(ids: seq<nat>): (m: nat)
    ensures forall i :: 0 <= i < |ids| ==> ids[i] <= m
    ensures |ids| == 0 ==> m == 0
    ensures |ids| > 0 ==> m in ids
  {
    if |ids| == 0 then 0
    else
      var rest := MaxId(ids[..|ids| - 1]);
      if ids[|ids| - 1] >= rest then ids[|ids| - 1] else rest
  }

  /** The id SQLite gives the next inserted row: one more than the largest id present. */
  function NextId(ids: seq<nat>): nat
  {
    MaxId(ids) + 1
  }

  predicate Unique<T(==)>(column: seq<T>)
  {
    forall i, j :: 0 <= i < |column| && 0 <= j < |column| && column[i] == column[j] ==> i == j
  }

  /** Strictly increasing along the table. */
  predicate Increasing(ids: seq<nat>)
  {
    forall i, j :: 0 <= i < j < |ids| ==> ids[i] < ids[j]
  }

  /**
    Ids grow with position in both tables: every insert takes `NextId` and no
    row is ever deleted, so position order is rowid order.
   */
  predicate IdsIncreasing(db: Db)
  {
    Increasing(KeyIdColumn(db.apiKeys)) && Increasing(AccessIdColumn(db.apiAccess))
  }

  /** Constraints the schema declares and the database enforces: unique ids, unique keys. */
  predicate SchemaConstraints(db: Db)
  {
    && Unique(KeyIdColumn(db.apiKeys))
    && Unique(KeyColumn(db.apiKeys))
    && Unique(AccessIdColumn(db.apiAccess))
  }

  /** Every access row names an issued key. */
  predicate ForeignKeys(db: Db)
  {
    forall i :: 0 <= i < |db.apiAccess| ==> db.apiAccess[i].apiKey in KeySet(db.apiKeys)
  }

  /**
    A counter never goes below 0 and never past a non-negative limit; under a
    negative limit it stays at 0.
   */
  predicate CountInRange(a: ApiAccess)
  {
    0 <= a.accessCount && (a.accessCount <= a.accessLimit || a.accessCount == 0)
  }

  predicate CountsInRange(db: Db)
  {
    forall i :: 0 <= i < |db.apiAccess| ==> CountInRange(db.apiAccess[i])
  }

  /**
    The state every handler preserves: the schema constraints, ids in
    insertion order, the foreign key, at most one access row per
    (key, api name) pair (which no schema constraint enforces), and counters
    within their limits.
   */
  predicate Valid(db: Db)
  {
    && SchemaConstraints(db)
    && IdsIncreasing(db)
    && ForeignKeys(db)
    && Unique(PairColumn(db.apiAccess))
    && CountsInRange(db)
  }

  /** On a unique column a lookup finds at most one row, and finds it exactly when the value is present. */
  lemma UniqueLookup<T>(column: seq<T>, v: T)
    ensures Unique(column) ==> |IndicesOf(column, v)| <= 1
    ensures v in column <==> |IndicesOf(column, v)| >= 1
  {
  }

  /**
    When ids increase along the table, the row `scalar()` picks out of a
    lookup has the lowest id of all the rows that match.
   */
  lemma ScalarPicksLowestId(rows: seq<ApiAccess>, p: AccessPair)
    requires Increasing(AccessIdColumn(rows))
    ensures var s := Scalar(IndicesOf(PairColumn(rows), p));
      && (s.Some? <==> p in PairColumn(rows))
      && (s.Some? ==> s.value < |rows| && PairOf(rows[s.value]) == p)
      && (s.Some? ==> forall i :: 0 <= i < |rows| && PairOf(rows[i]) == p ==> rows[s.value].id <= rows[i].id)
  {
  }

  lemma KeySetIsKeyColumn(rows: seq<ApiKey>, key: string)
    ensures key in KeySet(rows) <==> key in KeyColumn(rows)
  {
  }
}
