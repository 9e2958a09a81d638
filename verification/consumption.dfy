/**
  Repeated use of one grant.  From a quota (limit, count), the j-th of
  successive checks is admitted exactly when count + j < limit; in
  particular a grant just set to L admits exactly L calls and denies the
  next.  Proved on the abstract store and carried to the tables through
  `Refinement`, for `check_api_access` and for the gated route of the
  middleware.
 */
module Consumption {
  import opened Wrappers
  import opened Acl
  import opened Http
  import opened QuotaStore
  import ApiKeyApi
  import Middleware
  import Refinement

  function Min(a: int, b: int): int
  {
    if a <= b then a else b
  }

  /** The counter of quota `q` after `n` successive consumption attempts. */
  function CountAfter(q: Quota, n: nat): int
  {
    if q.count >= q.limit then q.count else Min(q.count + n, q.limit)
  }

  /** The n-th attempt finds the counter below the limit exactly when count + n - 1 is, and adds one only then. */
  lemma CountAfterStep(q: Quota, n: nat)
    requires n > 0
    ensures CountAfter(q, n - 1) < q.limit <==> q.count + (n - 1) < q.limit
    ensures CountAfter(q, n) == if CountAfter(q, n - 1) < q.limit then CountAfter(q, n - 1) + 1 else CountAfter(q, n - 1)
  {
  }

  // ---- check_api_access ----

  datatype Trace = Trace(responses: seq<Response>, store: Store)

  /** `n` successive checks of one pair on the abstract store. */
  function Checks(s: Store, key: string, apiName: string, n: nat): (t: Trace)
    ensures |t.responses| == n
    ensures t.store.grants.Keys == s.grants.Keys
  {
    if n == 0 then Trace([], s)
    else
      var t := Checks(s, key, apiName, n - 1);
      var o := Check(t.store, key, apiName);
      Trace(t.responses + [o.response], o.store)
  }

  /** After `n` checks of a granted pair, the keys are unchanged and the pair's counter is `CountAfter(q, n)`. */
  lemma {:induction false} ChecksStoreAfter(s: Store, key: string, apiName: string, n: nat)
    requires AccessPair(key, apiName) in s.grants
    ensures var q := s.grants[AccessPair(key, apiName)];
      var t := Checks(s, key, apiName, n);
      && t.store.keys == s.keys
      && AccessPair(key, apiName) in t.store.grants
      && t.store.grants[AccessPair(key, apiName)] == Quota(q.limit, CountAfter(q, n))
  {
    if n > 0 {
      var t := Checks(s, key, apiName, n - 1);
      var p := AccessPair(key, apiName);
      var q := s.grants[p];
      ChecksStoreAfter(s, key, apiName, n - 1);
      CheckStep(t.store, key, apiName);
      CountAfterStep(q, n);
      var after := Check(t.store, key, apiName).store;
      assert Checks(s, key, apiName, n).store == after;
      assert t.store.grants[p] == Quota(q.limit, CountAfter(q, n - 1));
      assert after.grants[p] == Quota(q.limit, CountAfter(q, n));
    }
  }

  /** The j-th check is admitted exactly while the counter is below the limit; the rest are refused as over quota. */
  lemma {:induction false} ChecksConsumeUpToLimit(s: Store, key: string, apiName: string, n: nat)
    requires AccessPair(key, apiName) in s.grants
    ensures var q := s.grants[AccessPair(key, apiName)];
      var t := Checks(s, key, apiName, n);
      && |t.responses| == n
      && (forall j :: 0 <= j < n ==>
            t.responses[j] == if q.count + j < q.limit then Response(200, Null) else Response(403, Detail(QuotaExceeded)))
      && t.store.keys == s.keys
      && AccessPair(key, apiName) in t.store.grants
      && t.store.grants[AccessPair(key, apiName)] == Quota(q.limit, CountAfter(q, n))
  {
    ChecksStoreAfter(s, key, apiName, n);
    if n > 0 {
      var t := Checks(s, key, apiName, n - 1);
      var q := s.grants[AccessPair(key, apiName)];
      ChecksConsumeUpToLimit(s, key, apiName, n - 1);
      CheckStep(t.store, key, apiName);
      CountAfterStep(q, n);
      var responses := Checks(s, key, apiName, n).responses;
      assert responses == t.responses + [Check(t.store, key, apiName).response];
      assert responses[n - 1] == if q.count + (n - 1) < q.limit then Response(200, Null) else Response(403, Detail(QuotaExceeded));
      forall j | 0 <= j < n - 1
        ensures responses[j] == t.responses[j]
      {
      }
    }
  }

  /** After `SetGrant(key, apiName, L)`, exactly the first L checks are admitted and the counter ends at min(n, L). */
  lemma FreshGrantAdmitsExactlyLimit(s: Store, key: string, apiName: string, limit: int, n: nat)
    requires key in s.keys
    ensures var t := Checks(SetGrant(s, key, apiName, limit).store, key, apiName, n);
      && (forall j :: 0 <= j < n ==> (t.responses[j].status == 200 <==> j < limit))
      && AccessPair(key, apiName) in t.store.grants
      && t.store.grants[AccessPair(key, apiName)].count == if limit <= 0 then 0 else Min(n, limit)
  {
    ChecksConsumeUpToLimit(SetGrant(s, key, apiName, limit).store, key, apiName, n);
  }

  datatype Replies = Replies(responses: seq<Response>, db: Db)

  /** `n` successive `check_api_access` requests for one pair on the tables. */
  function CheckCalls(db: Db, apiKey: string, apiName: string, n: nat): (c: Replies)
    ensures |c.responses| == n
  {
    if n == 0 then Replies([], db)
    else
      var c := CheckCalls(db, apiKey, apiName, n - 1);
      var r := ApiKeyApi.CheckApiAccess(c.db, apiKey, apiName);
      Replies(c.responses + [r.response], r.db)
  }

  /** One more `check_api_access` on tables that refine a trace extends both by the same response. */
  lemma CheckCallStep(c: Replies, t: Trace, apiKey: string, apiName: string)
    requires Valid(c.db) && c.responses == t.responses && Refinement.Abs(c.db) == t.store
    ensures var r := ApiKeyApi.CheckApiAccess(c.db, apiKey, apiName);
      var o := Check(t.store, apiKey, apiName);
      && c.responses + [r.response] == t.responses + [o.response]
      && Refinement.Abs(r.db) == o.store
      && Valid(r.db)
  {
    Refinement.CheckApiAccessRefines(c.db, apiKey, apiName);
  }

  lemma {:induction false} CheckCallsRefine(db: Db, apiKey: string, apiName: string, n: nat)
    requires Valid(db)
    ensures var c := CheckCalls(db, apiKey, apiName, n);
      var t := Checks(Refinement.Abs(db), apiKey, apiName, n);
      c.responses == t.responses && Refinement.Abs(c.db) == t.store && Valid(c.db)
  {
    if n == 0 {
      assert CheckCalls(db, apiKey, apiName, n) == Replies([], db);
      assert Checks(Refinement.Abs(db), apiKey, apiName, n) == Trace([], Refinement.Abs(db));
    } else {
      var c := CheckCalls(db, apiKey, apiName, n - 1);
      var t := Checks(Refinement.Abs(db), apiKey, apiName, n - 1);
      CheckCallsRefine(db, apiKey, apiName, n - 1);
      CheckCallStep(c, t, apiKey, apiName);
    }
  }

  /**
    On the tables: after `set_api_access(key, apiName, L)` for an issued key,
    of `n` successive `check_api_access` requests the first L answer 200
    and every later one 403 "API quota exceeded".
   */
  lemma ApiQuotaAdmitsExactlyLimit(db: Db, key: string, apiName: string, limit: int, n: nat)
    requires Valid(db)
    requires key in KeySet(db.apiKeys)
    ensures var c := CheckCalls(ApiKeyApi.SetApiAccess(db, key, apiName, limit).db, key, apiName, n);
      forall j :: 0 <= j < n ==>
        c.responses[j] == if j < limit then Response(200, Null) else Response(403, Detail(QuotaExceeded))
  {
    var db' := ApiKeyApi.SetApiAccess(db, key, apiName, limit).db;
    Refinement.SetApiAccessRefines(db, key, apiName, limit);
    CheckCallsRefine(db', key, apiName, n);
    ChecksConsumeUpToLimit(Refinement.Abs(db'), key, apiName, n);
  }

  // ---- api_key_middleware ----

  datatype Gates = Gates(admissions: seq<Admission>, store: Store)

  /** `n` successive gated requests carrying the same header, on the abstract store. */
  function Admits(s: Store, path: string, header: Option<string>, n: nat): (t: Gates)
    ensures |t.admissions| == n
  {
    if n == 0 then Gates([], s)
    else
      var t := Admits(s, path, header, n - 1);
      var g := Admit(t.store, path, header);
      Gates(t.admissions + [g.admission], g.store)
  }

  /** After `n` gated requests with a granted key, the keys are unchanged and the pair's counter is `CountAfter(q, n)`. */
  lemma {:induction false} AdmitsStoreAfter(s: Store, path: string, key: string, n: nat)
    requires path in RestrictedPaths
    requires key != "" && key in s.keys
    requires AccessPair(key, path) in s.grants
    ensures var q := s.grants[AccessPair(key, path)];
      var t := Admits(s, path, Some(key), n);
      && t.store.keys == s.keys
      && AccessPair(key, path) in t.store.grants
      && t.store.grants[AccessPair(key, path)] == Quota(q.limit, CountAfter(q, n))
  {
    if n > 0 {
      var t := Admits(s, path, Some(key), n - 1);
      var p := AccessPair(key, path);
      var q := s.grants[p];
      AdmitsStoreAfter(s, path, key, n - 1);
      AdmitStep(t.store, path, key);
      CountAfterStep(q, n);
      var after := Admit(t.store, path, Some(key)).store;
      assert Admits(s, path, Some(key), n).store == after;
      assert t.store.grants[p] == Quota(q.limit, CountAfter(q, n - 1));
      assert after.grants[p] == Quota(q.limit, CountAfter(q, n));
    }
  }

  /** A gated path with a granted key lets requests through while the counter is below the limit, then refuses with 403. */
  lemma {:induction false} AdmitsConsumeUpToLimit(s: Store, path: string, key: string, n: nat)
    requires path in RestrictedPaths
    requires key != "" && key in s.keys
    requires AccessPair(key, path) in s.grants
    ensures var q := s.grants[AccessPair(key, path)];
      var t := Admits(s, path, Some(key), n);
      && |t.admissions| == n
      && (forall j :: 0 <= j < n ==>
            t.admissions[j] == if q.count + j < q.limit then CallNext
                               else ShortCircuit(Response(403, Message(AccessLimitReached))))
      && t.store.keys == s.keys
      && AccessPair(key, path) in t.store.grants
      && t.store.grants[AccessPair(key, path)] == Quota(q.limit, CountAfter(q, n))
  {
    AdmitsStoreAfter(s, path, key, n);
    if n > 0 {
      var t := Admits(s, path, Some(key), n - 1);
      var q := s.grants[AccessPair(key, path)];
      AdmitsConsumeUpToLimit(s, path, key, n - 1);
      AdmitStep(t.store, path, key);
      CountAfterStep(q, n);
      var admissions := Admits(s, path, Some(key), n).admissions;
      assert admissions == t.admissions + [Admit(t.store, path, Some(key)).admission];
      assert admissions[n - 1] == if q.count + (n - 1) < q.limit then CallNext
                                  else ShortCircuit(Response(403, Message(AccessLimitReached)));
      forall j | 0 <= j < n - 1
        ensures admissions[j] == t.admissions[j]
      {
      }
    }
  }

  datatype Passes = Passes(admissions: seq<Admission>, db: Db)

  /** `n` successive requests through the middleware on the tables. */
  function GatedCalls(db: Db, path: string, header: Option<string>, n: nat): (c: Passes)
    ensures |c.admissions| == n
  {
    if n == 0 then Passes([], db)
    else
      var c := GatedCalls(db, path, header, n - 1);
      var d := Middleware.ApiKeyMiddleware(c.db, path, header);
      Passes(c.admissions + [d.admission], d.db)
  }

  /** One more gated request on tables that refine a trace extends both by the same decision. */
  lemma GatedCallStep(c: Passes, t: Gates, path: string, header: Option<string>)
    requires Valid(c.db) && c.admissions == t.admissions && Refinement.Abs(c.db) == t.store
    ensures var d := Middleware.ApiKeyMiddleware(c.db, path, header);
      var g := Admit(t.store, path, header);
      && c.admissions + [d.admission] == t.admissions + [g.admission]
      && Refinement.Abs(d.db) == g.store
      && Valid(d.db)
  {
    Refinement.ApiKeyMiddlewareRefines(c.db, path, header);
  }

  lemma {:induction false} GatedCallsRefine(db: Db, path: string, header: Option<string>, n: nat)
    requires Valid(db)
    ensures var c := GatedCalls(db, path, header, n);
      var t := Admits(Refinement.Abs(db), path, header, n);
      c.admissions == t.admissions && Refinement.Abs(c.db) == t.store && Valid(c.db)
  {
    if n == 0 {
      assert GatedCalls(db, path, header, n) == Passes([], db);
      assert Admits(Refinement.Abs(db), path, header, n) == Gates([], Refinement.Abs(db));
    } else {
      var c := GatedCalls(db, path, header, n - 1);
      var t := Admits(Refinement.Abs(db), path, header, n - 1);
      GatedCallsRefine(db, path, header, n - 1);
      GatedCallStep(c, t, path, header);
    }
  }

  /**
    On the tables: after `set_api_access(key, path, L)` for an issued key on
    a gated path, of `n` successive requests carrying that key the first L
    pass and every later one is refused with 403 "API access limit reached".
   */
  lemma GatedQuotaAdmitsExactlyLimit(db: Db, key: string, path: string, limit: int, n: nat)
    requires Valid(db)
    requires path in RestrictedPaths
    requires key != "" && key in KeySet(db.apiKeys)
    ensures var c := GatedCalls(ApiKeyApi.SetApiAccess(db, key, path, limit).db, path, Some(key), n);
      forall j :: 0 <= j < n ==>
        c.admissions[j] == if j < limit then CallNext else ShortCircuit(Response(403, Message(AccessLimitReached)))
  {
    var db' := ApiKeyApi.SetApiAccess(db, key, path, limit).db;
    Refinement.SetApiAccessRefines(db, key, path, limit);
    GatedCallsRefine(db', path, Some(key), n);
    AdmitsConsumeUpToLimit(Refinement.Abs(db'), path, key, n);
  }

  /** The tables script/create_db.py seeds: key "test_key" with 5 calls of "/restricted-api". */
  function SeededDb(now: int): Db
  {
    Db([ApiKey(1, "test_key", now)], [NewApiAccess(1, "test_key", "/restricted-api", 5)])
  }

  /** On the seeded tables, five requests with "test_key" reach "/restricted-api" and the sixth is refused with 403. */
  lemma SeededKeyAdmitsFive(now: int)
    ensures var c := GatedCalls(SeededDb(now), "/restricted-api", Some("test_key"), 6);
      && (forall j :: 0 <= j < 5 ==> c.admissions[j] == CallNext)
      && c.admissions[5] == ShortCircuit(Response(403, Message(AccessLimitReached)))
  {
    var db := SeededDb(now);
    assert KeyColumn(db.apiKeys) == ["test_key"];
    assert "test_key" in KeySet(db.apiKeys);
    assert PairColumn(db.apiAccess) == [AccessPair("test_key", "/restricted-api")];
    assert Valid(db);
    Refinement.GrantsOfAppend([], db.apiAccess[0]);
    assert [] + [db.apiAccess[0]] == db.apiAccess;
    GatedCallsRefine(db, "/restricted-api", Some("test_key"), 6);
    AdmitsConsumeUpToLimit(Refinement.Abs(db), "/restricted-api", "test_key", 6);
  }
}
