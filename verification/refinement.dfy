/**
  The tables seen as the abstract store: the issued keys and, per
  (key, api name) pair, the quota of its access row.  On every database
  satisfying `Acl.Valid`, each handler of app/api/api_key.py and the
  middleware of app/api/main.py answers exactly as the corresponding
  `QuotaStore` transition, moves the tables to a state whose abstraction
  is that transition's new state, and keeps `Valid`.
 */
module Refinement {
  import opened Wrappers
  import opened Acl
  import opened Http
  import opened QuotaStore
  import ApiKeyApi
  import Middleware

  function QuotaOf(a: ApiAccess): Quota
  {
    Quota(a.accessLimit, a.accessCount)
  }

  /** The quota per pair that a table of access rows holds (a later row for a pair shadows an earlier one). */
  function GrantsOf(rows: seq<ApiAccess>): map<AccessPair, Quota>
  {
    if |rows| == 0 then map[]
    else GrantsOf(rows[..|rows| - 1])[PairOf(rows[|rows| - 1]) := QuotaOf(rows[|rows| - 1])]
  }

  /** The abstraction of the tables. */
  function Abs(db: Db): Store
  {
    Store(KeySet(db.apiKeys), GrantsOf(db.apiAccess))
  }

  lemma PairColumnPrefix(rows: seq<ApiAccess>, n: nat)
    requires n <= |rows|
    ensures PairColumn(rows[..n]) == PairColumn(rows)[..n]
    ensures Unique(PairColumn(rows)) ==> Unique(PairColumn(rows[..n]))
  {
  }

  /** A pair has a grant exactly when some access row is about it. */
  lemma {:induction false} GrantsOfDomain(rows: seq<ApiAccess>, p: AccessPair)
    ensures p in GrantsOf(rows) <==> p in PairColumn(rows)
  {
    if |rows| > 0 {
      var n := |rows| - 1;
      GrantsOfDomain(rows[..n], p);
      PairColumnPrefix(rows, n);
      assert PairColumn(rows) == PairColumn(rows)[..n] + [PairOf(rows[n])];
    }
  }

  /** With one row per pair, a row's pair maps to that row's quota. */
  lemma {:induction false} GrantsOfValue(rows: seq<ApiAccess>, i: nat)
    requires Unique(PairColumn(rows))
    requires i < |rows|
    ensures PairOf(rows[i]) in GrantsOf(rows)
    ensures GrantsOf(rows)[PairOf(rows[i])] == QuotaOf(rows[i])
  {
    var n := |rows| - 1;
    if i < n {
      PairColumnPrefix(rows, n);
      GrantsOfValue(rows[..n], i);
      assert PairColumn(rows)[n] != PairColumn(rows)[i];
    }
  }

  /** With one row per pair, rewriting a row's quota rewrites exactly that pair's grant. */
  lemma {:induction false} GrantsOfUpdate(rows: seq<ApiAccess>, i: nat, a: ApiAccess)
    requires Unique(PairColumn(rows))
    requires i < |rows|
    requires PairOf(a) == PairOf(rows[i])
    ensures GrantsOf(rows[i := a]) == GrantsOf(rows)[PairOf(a) := QuotaOf(a)]
  {
    var n := |rows| - 1;
    var updated := rows[i := a];
    if i == n {
      assert updated[..n] == rows[..n];
    } else {
      PairColumnPrefix(rows, n);
      GrantsOfUpdate(rows[..n], i, a);
      assert updated[..n] == rows[..n][i := a];
      assert PairColumn(rows)[n] != PairColumn(rows)[i];
    }
  }

  /** Appending a row for a new pair adds exactly that pair's grant. */
  lemma GrantsOfAppend(rows: seq<ApiAccess>, a: ApiAccess)
    ensures GrantsOf(rows + [a]) == GrantsOf(rows)[PairOf(a) := QuotaOf(a)]
  {
  }

  /** A valid database abstracts to a consistent store. */
  lemma AbsConsistent(db: Db)
    requires Valid(db)
    ensures Consistent(Abs(db))
  {
    forall p | p in Abs(db).grants
      ensures p.apiKey in Abs(db).keys && InRange(Abs(db).grants[p])
    {
      GrantsOfDomain(db.apiAccess, p);
      var i :| 0 <= i < |db.apiAccess| && PairColumn(db.apiAccess)[i] == p;
      GrantsOfValue(db.apiAccess, i);
    }
  }

  /** Appending a key row with a new key and an id above every id present keeps the database valid and issues that key. */
  lemma InsertKey(db: Db, row: ApiKey)
    requires Valid(db)
    requires row.key !in KeySet(db.apiKeys)
    requires forall j :: 0 <= j < |db.apiKeys| ==> db.apiKeys[j].id < row.id
    ensures var db' := db.(apiKeys := db.apiKeys + [row]);
      && Valid(db')
      && Abs(db') == Abs(db).(keys := Abs(db).keys + {row.key})
  {
    var db' := db.(apiKeys := db.apiKeys + [row]);
    assert KeyIdColumn(db'.apiKeys) == KeyIdColumn(db.apiKeys) + [row.id];
    assert KeyColumn(db'.apiKeys) == KeyColumn(db.apiKeys) + [row.key];
    assert KeySet(db'.apiKeys) == KeySet(db.apiKeys) + {row.key};
    KeySetIsKeyColumn(db.apiKeys, row.key);
  }

  /** `generate_api_key` is `Issue`, and keeps the database valid. */
  lemma GenerateApiKeyRefines(db: Db, uuid: string, now: int)
    requires Valid(db)
    ensures var r := ApiKeyApi.GenerateApiKey(db, uuid, now);
      var o := Issue(Abs(db), uuid);
      && r.response == o.response
      && Abs(r.db) == o.store
      && Valid(r.db)
  {
    var r := ApiKeyApi.GenerateApiKey(db, uuid, now);
    if uuid !in KeySet(db.apiKeys) {
      var row := r.db.apiKeys[|db.apiKeys|];
      assert r.db.apiKeys == db.apiKeys + [row];
      InsertKey(db, row);
    }
  }

  /** Inserting a zero-count row for a pair of an issued key that has none keeps the database valid and adds that grant. */
  lemma InsertGrant(db: Db, a: ApiAccess)
    requires Valid(db)
    requires a.apiKey in KeySet(db.apiKeys)
    requires PairOf(a) !in PairColumn(db.apiAccess)
    requires forall j :: 0 <= j < |db.apiAccess| ==> db.apiAccess[j].id < a.id
    requires a.accessCount == 0
    ensures var db' := db.(apiAccess := db.apiAccess + [a]);
      && Valid(db')
      && Abs(db') == Abs(db).(grants := Abs(db).grants[PairOf(a) := QuotaOf(a)])
  {
  }

  /** Overwriting the limit of row `i` and zeroing its counter keeps the database valid and resets that grant only. */
  lemma ResetGrant(db: Db, i: nat, accessLimit: int)
    requires Valid(db)
    requires i < |db.apiAccess|
    ensures var a := db.apiAccess[i];
      var db' := db.(apiAccess := db.apiAccess[i := a.(accessLimit := accessLimit, accessCount := 0)]);
      && Valid(db')
      && Abs(db') == Abs(db).(grants := Abs(db).grants[PairOf(a) := Quota(accessLimit, 0)])
  {
    var rows := db.apiAccess;
    var a := rows[i].(accessLimit := accessLimit, accessCount := 0);
    var db' := db.(apiAccess := rows[i := a]);
    GrantsOfUpdate(rows, i, a);
    assert PairColumn(db'.apiAccess) == PairColumn(rows);
    assert AccessIdColumn(db'.apiAccess) == AccessIdColumn(rows);
    assert forall j :: 0 <= j < |rows| ==> db'.apiAccess[j].apiKey == rows[j].apiKey;
  }

  /** `set_api_access` is `SetGrant`, and keeps the database valid. */
  lemma SetApiAccessRefines(db: Db, key: string, apiName: string, accessLimit: int)
    requires Valid(db)
    ensures var r := ApiKeyApi.SetApiAccess(db, key, apiName, accessLimit);
      var o := SetGrant(Abs(db), key, apiName, accessLimit);
      && r.response == o.response
      && Abs(r.db) == o.store
      && Valid(r.db)
  {
    var r := ApiKeyApi.SetApiAccess(db, key, apiName, accessLimit);
    var p := AccessPair(key, apiName);
    var rows := db.apiAccess;
    if key in KeySet(db.apiKeys) {
      UniqueLookup(PairColumn(rows), p);
      if p !in PairColumn(rows) {
        var a := r.db.apiAccess[|rows|];
        assert r.db.apiAccess == rows + [a];
        InsertGrant(db, a);
      } else {
        ResetGrant(db, IndicesOf(PairColumn(rows), p)[0], accessLimit);
      }
    }
  }

  /**
    Recording one more use on access row `i`, when its counter is below the
    limit, keeps the database valid and adds one to that pair's grant only.
   */
  lemma ConsumeOne(db: Db, i: nat)
    requires Valid(db)
    requires i < |db.apiAccess|
    requires db.apiAccess[i].accessCount < db.apiAccess[i].accessLimit
    ensures var a := db.apiAccess[i];
      var db' := db.(apiAccess := db.apiAccess[i := a.(accessCount := a.accessCount + 1)]);
      && Valid(db')
      && Abs(db') == Abs(db).(grants := Abs(db).grants[PairOf(a) := Quota(a.accessLimit, a.accessCount + 1)])
  {
    var rows := db.apiAccess;
    var a := rows[i].(accessCount := rows[i].accessCount + 1);
    var db' := db.(apiAccess := rows[i := a]);
    GrantsOfUpdate(rows, i, a);
    assert PairColumn(db'.apiAccess) == PairColumn(rows);
    assert AccessIdColumn(db'.apiAccess) == AccessIdColumn(rows);
    assert forall j :: 0 <= j < |rows| ==> db'.apiAccess[j].apiKey == rows[j].apiKey;
  }

  /**
    For a pair whose grant is below its limit, `check_api_access` answers as
    `Check` does, counting one use, and keeps the database valid.
   */
  lemma CheckConsumeRefines(db: Db, apiKey: string, apiName: string)
    requires Valid(db)
    requires AccessPair(apiKey, apiName) in PairColumn(db.apiAccess)
    requires var a := db.apiAccess[IndicesOf(PairColumn(db.apiAccess), AccessPair(apiKey, apiName))[0]];
      a.accessCount < a.accessLimit
    ensures var r := ApiKeyApi.CheckApiAccess(db, apiKey, apiName);
      var o := Check(Abs(db), apiKey, apiName);
      && r.response == o.response
      && Abs(r.db) == o.store
      && Valid(r.db)
  {
    var p := AccessPair(apiKey, apiName);
    var rows := db.apiAccess;
    UniqueLookup(PairColumn(rows), p);
    var i := IndicesOf(PairColumn(rows), p)[0];
    GrantsOfValue(rows, i);
    ConsumeOne(db, i);
    CheckStep(Abs(db), apiKey, apiName);
  }

  /** `check_api_access` is `Check`, and keeps the database valid. */
  lemma CheckApiAccessRefines(db: Db, apiKey: string, apiName: string)
    requires Valid(db)
    ensures var r := ApiKeyApi.CheckApiAccess(db, apiKey, apiName);
      var o := Check(Abs(db), apiKey, apiName);
      && r.response == o.response
      && Abs(r.db) == o.store
      && Valid(r.db)
  {
    var p := AccessPair(apiKey, apiName);
    var rows := db.apiAccess;
    GrantsOfDomain(rows, p);
    UniqueLookup(PairColumn(rows), p);
    if p in PairColumn(rows) {
      var i := IndicesOf(PairColumn(rows), p)[0];
      GrantsOfValue(rows, i);
      if rows[i].accessCount < rows[i].accessLimit {
        CheckConsumeRefines(db, apiKey, apiName);
      }
    }
  }

  /**
    On a gated path with an issued key whose grant for the path is below its
    limit, the middleware passes the request as `Admit` does, counting one
    use, and keeps the database valid.
   */
  lemma GatedConsumeRefines(db: Db, key: string, path: string)
    requires Valid(db)
    requires path in RestrictedPaths && key != "" && key in KeySet(db.apiKeys)
    requires AccessPair(key, path) in PairColumn(db.apiAccess)
    requires var a := db.apiAccess[IndicesOf(PairColumn(db.apiAccess), AccessPair(key, path))[0]];
      a.accessCount < a.accessLimit
    ensures var d := Middleware.ApiKeyMiddleware(db, path, Some(key));
      var g := Admit(Abs(db), path, Some(key));
      && d.admission == g.admission
      && Abs(d.db) == g.store
      && Valid(d.db)
  {
    var p := AccessPair(key, path);
    var rows := db.apiAccess;
    UniqueLookup(PairColumn(rows), p);
    var i := IndicesOf(PairColumn(rows), p)[0];
    GrantsOfValue(rows, i);
    ConsumeOne(db, i);
    AdmitStep(Abs(db), path, key);
  }

  /** On a gated path with an issued key in the header, the middleware is `Admit` and keeps the database valid. */
  lemma GatedKnownKeyRefines(db: Db, key: string, path: string)
    requires Valid(db)
    requires path in RestrictedPaths && key != "" && key in KeySet(db.apiKeys)
    ensures var d := Middleware.ApiKeyMiddleware(db, path, Some(key));
      var g := Admit(Abs(db), path, Some(key));
      && d.admission == g.admission
      && Abs(d.db) == g.store
      && Valid(d.db)
  {
    var p := AccessPair(key, path);
    var rows := db.apiAccess;
    GrantsOfDomain(rows, p);
    UniqueLookup(PairColumn(rows), p);
    if p in PairColumn(rows) {
      var i := IndicesOf(PairColumn(rows), p)[0];
      GrantsOfValue(rows, i);
      if rows[i].accessCount < rows[i].accessLimit {
        GatedConsumeRefines(db, key, path);
      }
    }
  }

  /** `api_key_middleware` is `Admit`, and keeps the database valid. */
  lemma ApiKeyMiddlewareRefines(db: Db, path: string, header: Option<string>)
    requires Valid(db)
    ensures var d := Middleware.ApiKeyMiddleware(db, path, header);
      var g := Admit(Abs(db), path, header);
      && d.admission == g.admission
      && Abs(d.db) == g.store
      && Valid(d.db)
  {
    if path in RestrictedPaths && HasKey(header) && header.value in KeySet(db.apiKeys) {
      GatedKnownKeyRefines(db, header.value, path);
    }
  }

  /** Tables the schema admits but the handlers never produce: two access rows for one pair. */
  function DuplicatedGrant(): Db
  {
    Db([ApiKey(1, "k", 0)],
       [ApiAccess(1, "k", "/restricted-api", 1, 0), ApiAccess(2, "k", "/restricted-api", 1, 0)])
  }

  /** The tables above meet every constraint the schema declares, yet hold two rows for one pair. */
  lemma DuplicatePairsMeetSchema()
    ensures var db := DuplicatedGrant();
      && SchemaConstraints(db)
      && IdsIncreasing(db)
      && ForeignKeys(db)
      && !Unique(PairColumn(db.apiAccess))
  {
    var db := DuplicatedGrant();
    assert "k" in KeySet(db.apiKeys);
    assert PairColumn(db.apiAccess)[0] == PairColumn(db.apiAccess)[1];
  }

  /**
    On any tables holding two or more rows for one pair of an issued key,
    `set_api_access` and `check_api_access` on that pair fail with 500
    (`MultipleResultsFound`) and change nothing.
   */
  lemma DuplicatePairsFailHandlers(db: Db, key: string, apiName: string, accessLimit: int)
    requires SchemaConstraints(db)
    requires key in KeySet(db.apiKeys)
    requires |IndicesOf(PairColumn(db.apiAccess), AccessPair(key, apiName))| >= 2
    ensures ApiKeyApi.SetApiAccess(db, key, apiName, accessLimit) == ApiKeyApi.Reply(InternalServerError, db)
    ensures ApiKeyApi.CheckApiAccess(db, key, apiName) == ApiKeyApi.Reply(InternalServerError, db)
  {
    KeySetIsKeyColumn(db.apiKeys, key);
    UniqueLookup(KeyColumn(db.apiKeys), key);
  }

  /**
    On any tables holding two or more rows for one pair of an issued key,
    the middleware lets a request on that pair through while the first such
    row, the one with the lowest id, is below its limit, and counts it on that
    row only.
   */
  lemma DuplicatePairsMiddlewareCountsFirst(db: Db, key: string, path: string)
    requires SchemaConstraints(db)
    requires IdsIncreasing(db)
    requires path in RestrictedPaths
    requires key != "" && key in KeySet(db.apiKeys)
    requires |IndicesOf(PairColumn(db.apiAccess), AccessPair(key, path))| >= 2
    ensures var ix := IndicesOf(PairColumn(db.apiAccess), AccessPair(key, path));
      var a := db.apiAccess[ix[0]];
      var d := Middleware.ApiKeyMiddleware(db, path, Some(key));
      && (forall j :: 0 < j < |ix| ==> a.id < db.apiAccess[ix[j]].id)
      && (a.accessCount < a.accessLimit ==>
            && d.admission == CallNext
            && d.db.apiAccess == db.apiAccess[ix[0] := a.(accessCount := a.accessCount + 1)]
            && d.db.apiAccess[ix[1]] == db.apiAccess[ix[1]])
  {
    KeySetIsKeyColumn(db.apiKeys, key);
    UniqueLookup(KeyColumn(db.apiKeys), key);
  }

  /** On the tables above, the lookup of the duplicated pair finds rows 0 and 1. */
  lemma DuplicatedGrantLookup()
    ensures IndicesOf(PairColumn(DuplicatedGrant().apiAccess), AccessPair("k", "/restricted-api")) == [0, 1]
  {
    var p := AccessPair("k", "/restricted-api");
    var c := PairColumn(DuplicatedGrant().apiAccess);
    assert |c| == 2 && c[0] == p && c[1] == p;
    assert |c[..1]| == 1 && c[..1][0] == p && c[..1][..0] == [];
    assert IndicesOf(c[..1], p) == [0];
  }

  /** The tables above are one instance: both handlers fail there, and the middleware counts on row 0. */
  lemma DuplicatedGrantInstance()
    ensures var db := DuplicatedGrant();
      && IndicesOf(PairColumn(db.apiAccess), AccessPair("k", "/restricted-api")) == [0, 1]
      && ApiKeyApi.CheckApiAccess(db, "k", "/restricted-api").response == InternalServerError
      && Middleware.ApiKeyMiddleware(db, "/restricted-api", Some("k")).db.apiAccess
           == [db.apiAccess[0].(accessCount := 1), db.apiAccess[1]]
  {
    var db := DuplicatedGrant();
    DuplicatePairsMeetSchema();
    DuplicatedGrantLookup();
    assert "k" in KeySet(db.apiKeys);
    DuplicatePairsFailHandlers(db, "k", "/restricted-api", 0);
    DuplicatePairsMiddlewareCountsFirst(db, "k", "/restricted-api");
  }
}
