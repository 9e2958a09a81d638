/**
  The server as a whole: the two tables plus the process-local lookup
  cache, driven by any sequence of requests to the handlers of
  app/api/api_key.py and the gated route of app/api/main.py.  The
  invariant is that the tables are `Valid` and that every cache entry is
  the current row of the key it is named after; under it, the cache never
  changes what `get_api_key` answers.
 */
module Service {
  import opened Wrappers
  import opened Acl
  import Cache
  import ApiKeyApi
  import Middleware
  import Refinement

  datatype Request =
    | GenerateKey(uuid: string, now: int)
    | SetAccess(key: string, apiName: string, accessLimit: int)
    | GetKey(key: string)
    | CheckAccess(apiKey: string, apiName: string)
    | Gated(path: string, header: Option<string>)

  datatype Server = Server(db: Db, cache: Cache.Cache<string, ApiKey>)

  /** The state after serving one request. */
  function Next(s: Server, req: Request): Server
  {
    match req
    case GenerateKey(uuid, now) => s.(db := ApiKeyApi.GenerateApiKey(s.db, uuid, now).db)
    case SetAccess(key, apiName, accessLimit) => s.(db := ApiKeyApi.SetApiAccess(s.db, key, apiName, accessLimit).db)
    case GetKey(key) => s.(cache := ApiKeyApi.GetApiKey(s.cache, s.db, key).cache)
    case CheckAccess(apiKey, apiName) => s.(db := ApiKeyApi.CheckApiAccess(s.db, apiKey, apiName).db)
    case Gated(path, header) => s.(db := Middleware.ApiKeyMiddleware(s.db, path, header).db)
  }

  /** The state after serving a sequence of requests in order. */
  function Run(s: Server, reqs: seq<Request>): Server
  {
    if |reqs| == 0 then s else Next(Run(s, reqs[..|reqs| - 1]), reqs[|reqs| - 1])
  }

  /** Every cache entry holds a row of `api_keys`, filed under that row's key. */
  predicate CacheCoherent(cache: Cache.Cache<string, ApiKey>, db: Db)
  {
    forall ck :: ck in cache.entries ==>
      cache.entries[ck] in db.apiKeys && ck == ApiKeyApi.CacheKey(cache.entries[ck].key)
  }

  predicate Invariant(s: Server)
  {
    Valid(s.db) && CacheCoherent(s.cache, s.db)
  }

  /** A server that has just started, on empty tables, satisfies the invariant. */
  function Start(): (s: Server)
    ensures Invariant(s)
  {
    Server(Db([], []), Cache.Empty())
  }

  /**
    On a coherent cache, `get_api_key` answers exactly as it would with an
    empty cache (that is, from the table alone), answers 200 exactly for
    issued keys, and leaves the cache coherent.
   */
  lemma GetApiKeyTransparent(cache: Cache.Cache<string, ApiKey>, db: Db, key: string)
    requires CacheCoherent(cache, db)
    requires SchemaConstraints(db)
    ensures var r := ApiKeyApi.GetApiKey(cache, db, key);
      && r.response == ApiKeyApi.GetApiKey(Cache.Empty(), db, key).response
      && (r.response.status == 200 <==> key in KeySet(db.apiKeys))
      && CacheCoherent(r.cache, db)
  {
    var ck := ApiKeyApi.CacheKey(key);
    KeySetIsKeyColumn(db.apiKeys, key);
    var uncached := ApiKeyApi.GetApiKey(Cache.Empty(), db, key);
    assert Cache.Get(Cache.Empty<string, ApiKey>(), ck) == None;
    if ck in cache.entries {
      var v := cache.entries[ck];
      ApiKeyApi.CacheKeyInjective(v.key, key);
      assert v.key in KeySet(db.apiKeys);
      var w := uncached.response.body.record;
      var i :| 0 <= i < |db.apiKeys| && db.apiKeys[i] == v;
      var j :| 0 <= j < |db.apiKeys| && db.apiKeys[j] == w;
      assert KeyColumn(db.apiKeys)[i] == KeyColumn(db.apiKeys)[j];
    }
  }

  /** Every request keeps the invariant. */
  lemma NextPreservesInvariant(s: Server, req: Request)
    requires Invariant(s)
    ensures Invariant(Next(s, req))
  {
    match req
    case GenerateKey(uuid, now) =>
      Refinement.GenerateApiKeyRefines(s.db, uuid, now);
      var db' := Next(s, req).db;
      assert forall r :: r in s.db.apiKeys ==> r in db'.apiKeys by {
        if uuid !in KeySet(s.db.apiKeys) {
          assert db'.apiKeys == s.db.apiKeys + [db'.apiKeys[|s.db.apiKeys|]];
        }
      }
    case SetAccess(key, apiName, accessLimit) =>
      Refinement.SetApiAccessRefines(s.db, key, apiName, accessLimit);
    case GetKey(key) =>
      GetApiKeyTransparent(s.cache, s.db, key);
    case CheckAccess(apiKey, apiName) =>
      Refinement.CheckApiAccessRefines(s.db, apiKey, apiName);
    case Gated(path, header) =>
      Refinement.ApiKeyMiddlewareRefines(s.db, path, header);
  }

  /** Every state reachable by serving requests keeps the invariant. */
  lemma {:induction false} RunPreservesInvariant(s: Server, reqs: seq<Request>)
    requires Invariant(s)
    ensures Invariant(Run(s, reqs))
  {
    if |reqs| > 0 {
      RunPreservesInvariant(s, reqs[..|reqs| - 1]);
      NextPreservesInvariant(Run(s, reqs[..|reqs| - 1]), reqs[|reqs| - 1]);
    }
  }

  /** The keys handed out by successive `generate_api_key` calls, and the tables after them. */
  datatype Issued = Issued(keys: seq<string>, db: Db)

  function IssueAll(db: Db, uuids: seq<string>, now: int): Issued
  {
    if |uuids| == 0 then Issued([], db)
    else
      var before := IssueAll(db, uuids[..|uuids| - 1], now);
      var r := ApiKeyApi.GenerateApiKey(before.db, uuids[|uuids| - 1], now);
      if r.response.status == 200 then Issued(before.keys + [uuids[|uuids| - 1]], r.db)
      else Issued(before.keys, r.db)
  }

  /**
    Whatever the drawn uuids, the keys successfully handed out are pairwise
    distinct, none was issued before, and they are exactly the keys added.
   */
  lemma {:induction false} IssuedKeysDistinct(db: Db, uuids: seq<string>, now: int)
    ensures var out := IssueAll(db, uuids, now);
      && (forall i, j :: 0 <= i < j < |out.keys| ==> out.keys[i] != out.keys[j])
      && (forall i :: 0 <= i < |out.keys| ==> out.keys[i] !in KeySet(db.apiKeys))
      && KeySet(out.db.apiKeys) == KeySet(db.apiKeys) + set k | k in out.keys
  {
    if |uuids| > 0 {
      var n := |uuids| - 1;
      var before := IssueAll(db, uuids[..n], now);
      IssuedKeysDistinct(db, uuids[..n], now);
      var out := IssueAll(db, uuids, now);
      if uuids[n] !in KeySet(before.db.apiKeys) {
        assert out.keys == before.keys + [uuids[n]];
        assert (set k | k in out.keys) == (set k | k in before.keys) + {uuids[n]};
      }
    }
  }
}
