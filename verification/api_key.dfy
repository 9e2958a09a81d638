/**
  The four handlers of app/api/api_key.py, each one atomic transition over
  the tables (and, for `get_api_key`, the lookup cache).  A handler that
  raises `HTTPException` leaves the tables as they were; an exception the
  handler does not catch (`MultipleResultsFound`, a unique-constraint
  violation at commit) rolls the session back and becomes a plain 500.
 */
module ApiKeyApi {
  import opened Wrappers
  import opened Acl
  import opened Http
  import Cache

  /** A response together with the tables after the request. */
  datatype Reply = Reply(response: Response, db: Db)

  /** A response together with the cache after the request (the tables are only read). */
  datatype Lookup = Lookup(response: Response, cache: Cache.Cache<string, ApiKey>)

  /**
    `generate_api_key`: store a row for the freshly drawn `uuid` (its text
    form) stamped with `now`, and return the key.  A `uuid` already issued
    is refused by the unique constraint on `api_keys.key` and nothing is
    stored.
   */
  function GenerateApiKey(db: Db, uuid: string, now: int): (r: Reply)
    ensures uuid in KeySet(db.apiKeys) ==> r == Reply(InternalServerError, db)
    ensures uuid !in KeySet(db.apiKeys) ==>
      && r.response == Response(200, IssuedKey(uuid))
      && |r.db.apiKeys| == |db.apiKeys| + 1
      && r.db.apiKeys[..|db.apiKeys|] == db.apiKeys
      && r.db.apiKeys[|db.apiKeys|].key == uuid
      && r.db.apiKeys[|db.apiKeys|].createdAt == now
      && (forall i :: 0 <= i < |db.apiKeys| ==> db.apiKeys[i].id < r.db.apiKeys[|db.apiKeys|].id)
      && KeySet(r.db.apiKeys) == KeySet(db.apiKeys) + {uuid}
      && r.db.apiAccess == db.apiAccess
  {
    if uuid in KeySet(db.apiKeys) then Reply(InternalServerError, db)
    else
      var row := ApiKey(NextId(KeyIdColumn(db.apiKeys)), uuid, now);
      Reply(Response(200, IssuedKey(uuid)), db.(apiKeys := db.apiKeys + [row]))
  }

  /**
    `set_api_access`: 404 for a key never issued; otherwise insert a grant
    of `accessLimit` with a zero counter for a new (key, api name) pair, or
    overwrite the limit of the existing grant and reset its counter to 0,
    whatever the counter was.
   */
  function SetApiAccess(db: Db, key: string, apiName: string, accessLimit: int): (r: Reply)
    ensures key !in KeySet(db.apiKeys) ==> r == Reply(Response(404, Detail(ApiKeyNotFound)), db)
    ensures r.response.status != 200 ==> r.db == db
    ensures r.response.status == 200 ==>
      && key in KeySet(db.apiKeys)
      && r.response.body == Message(AccessLimitSet)
      && r.db.apiKeys == db.apiKeys
    ensures SchemaConstraints(db) && key in KeySet(db.apiKeys) && AccessPair(key, apiName) !in PairColumn(db.apiAccess) ==>
      && r.response == Response(200, Message(AccessLimitSet))
      && |r.db.apiAccess| == |db.apiAccess| + 1
      && r.db.apiAccess[..|db.apiAccess|] == db.apiAccess
      && var a := r.db.apiAccess[|db.apiAccess|];
         PairOf(a) == AccessPair(key, apiName) && a.accessLimit == accessLimit && a.accessCount == 0
         && (forall i :: 0 <= i < |db.apiAccess| ==> db.apiAccess[i].id < a.id)
    ensures SchemaConstraints(db) && key in KeySet(db.apiKeys) ==>
      var ix := IndicesOf(PairColumn(db.apiAccess), AccessPair(key, apiName));
      |ix| == 1 ==>
        && r.response == Response(200, Message(AccessLimitSet))
        && |r.db.apiAccess| == |db.apiAccess|
        && r.db.apiAccess[ix[0]] == db.apiAccess[ix[0]].(accessLimit := accessLimit, accessCount := 0)
        && forall i :: 0 <= i < |db.apiAccess| && i != ix[0] ==> r.db.apiAccess[i] == db.apiAccess[i]
  {
    KeySetIsKeyColumn(db.apiKeys, key);
    UniqueLookup(KeyColumn(db.apiKeys), key);
    match ScalarOneOrNone(IndicesOf(KeyColumn(db.apiKeys), key))
    case NoRow => Reply(Response(404, Detail(ApiKeyNotFound)), db)
    case MultipleRows => Reply(InternalServerError, db)
    case OneRow(_) =>
      match ScalarOneOrNone(IndicesOf(PairColumn(db.apiAccess), AccessPair(key, apiName)))
      case MultipleRows => Reply(InternalServerError, db)
      case NoRow =>
        var row := NewApiAccess(NextId(AccessIdColumn(db.apiAccess)), key, apiName, accessLimit);
        Reply(Response(200, Message(AccessLimitSet)), db.(apiAccess := db.apiAccess + [row]))
      case OneRow(i) =>
        var row := db.apiAccess[i].(accessLimit := accessLimit, accessCount := 0);
        Reply(Response(200, Message(AccessLimitSet)), db.(apiAccess := db.apiAccess[i := row]))
  }

  const CacheKeyPrefix: string := "api_key_"

  /** The cache entry name `get_api_key` uses for a key. */
  function CacheKey(key: string): string
  {
    CacheKeyPrefix + key
  }

  /** Distinct keys never share a cache entry. */
  lemma CacheKeyInjective(a: string, b: string)
    ensures CacheKey(a) == CacheKey(b) ==> a == b
  {
    assert CacheKey(a)[|CacheKeyPrefix|..] == a;
    assert CacheKey(b)[|CacheKeyPrefix|..] == b;
  }

  /**
    `get_api_key`: read through the cache.  A hit answers from the cache
    alone; a miss queries `api_keys` and caches the row only when one is
    found; an unknown key is answered 403 and nothing is cached.
   */
  function GetApiKey(cache: Cache.Cache<string, ApiKey>, db: Db, key: string): (r: Lookup)
    ensures Cache.Get(cache, CacheKey(key)).Some? ==>
      r == Lookup(Response(200, KeyRecord(Cache.Get(cache, CacheKey(key)).value)), cache)
    ensures Cache.Get(cache, CacheKey(key)).None? && key !in KeySet(db.apiKeys) ==>
      r == Lookup(Response(403, Detail(InvalidApiKey)), cache)
    ensures Cache.Get(cache, CacheKey(key)).None? && SchemaConstraints(db) && key in KeySet(db.apiKeys) ==>
      && r.response.status == 200
      && r.response.body.KeyRecord?
      && r.response.body.record in db.apiKeys
      && r.response.body.record.key == key
      && r.cache == Cache.Set(cache, CacheKey(key), r.response.body.record)
    ensures r.cache != cache ==> r.response.status == 200 && Cache.Get(cache, CacheKey(key)).None?
  {
    KeySetIsKeyColumn(db.apiKeys, key);
    UniqueLookup(KeyColumn(db.apiKeys), key);
    var cacheKey := CacheKey(key);
    match Cache.Get(cache, cacheKey)
    case Some(record) => Lookup(Response(200, KeyRecord(record)), cache)
    case None =>
      match ScalarOneOrNone(IndicesOf(KeyColumn(db.apiKeys), key))
      case NoRow => Lookup(Response(403, Detail(InvalidApiKey)), cache)
      case MultipleRows => Lookup(InternalServerError, cache)
      case OneRow(i) =>
        var record := db.apiKeys[i];
        Lookup(Response(200, KeyRecord(record)), Cache.Set(cache, cacheKey, record))
  }

  /**
    `check_api_access`: 403 when no grant exists for the pair, 403 when its
    counter has reached the limit, and otherwise one more use recorded on
    that grant.  It does not look the key itself up.
   */
  function CheckApiAccess(db: Db, apiKey: string, apiName: string): (r: Reply)
    ensures r.db.apiKeys == db.apiKeys
    ensures r.response.status != 200 ==> r.db == db
    ensures AccessPair(apiKey, apiName) !in PairColumn(db.apiAccess) ==>
      r == Reply(Response(403, Detail(AccessNotAllowed)), db)
    ensures var ix := IndicesOf(PairColumn(db.apiAccess), AccessPair(apiKey, apiName));
      |ix| == 1 ==>
        var a := db.apiAccess[ix[0]];
        if a.accessCount >= a.accessLimit then
          r == Reply(Response(403, Detail(QuotaExceeded)), db)
        else
          && r.response == Response(200, Null)
          && |r.db.apiAccess| == |db.apiAccess|
          && r.db.apiAccess[ix[0]] == a.(accessCount := a.accessCount + 1)
          && forall i :: 0 <= i < |db.apiAccess| && i != ix[0] ==> r.db.apiAccess[i] == db.apiAccess[i]
  {
    match ScalarOneOrNone(IndicesOf(PairColumn(db.apiAccess), AccessPair(apiKey, apiName)))
    case NoRow => Reply(Response(403, Detail(AccessNotAllowed)), db)
    case MultipleRows => Reply(InternalServerError, db)
    case OneRow(i) =>
      var a := db.apiAccess[i];
      if a.accessCount >= a.accessLimit then Reply(Response(403, Detail(QuotaExceeded)), db)
      else Reply(Response(200, Null), db.(apiAccess := db.apiAccess[i := a.(accessCount := a.accessCount + 1)]))
  }
}
