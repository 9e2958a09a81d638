/**
  The admission decision of `api_key_middleware` (app/api/main.py): which
  requests are gated, how the `X-API-Key` header is read, and what a gated
  request does to the tables before it reaches its route.  The route
  itself (`call_next`) is opaque: the model stops at `CallNext`.  The
  middleware never touches the lookup cache, so the cache is no input of
  this function.
 */
module Middleware {
  import opened Wrappers
  import opened Acl
  import opened Http

  /** A decision together with the tables after it. */
  datatype Decision = Decision(admission: Admission, db: Db)

  /**
    The decision for a request to `path` whose `X-API-Key` header is
    `header`.  Unlike `check_api_access`, a known key with no grant for the
    path is let through untouched.  The lookups use `scalar()`, so when
    several grants match, the one counted is the matching row with the lowest
    id, which is the first by position (`Acl.ScalarPicksLowestId`).
   */
  function ApiKeyMiddleware(db: Db, path: string, header: Option<string>): (d: Decision)
    ensures path !in RestrictedPaths ==> d == Decision(CallNext, db)
    ensures path in RestrictedPaths && !HasKey(header) ==>
      d == Decision(ShortCircuit(Response(400, Message(MissingApiKey))), db)
    ensures path in RestrictedPaths && HasKey(header) && header.value !in KeySet(db.apiKeys) ==>
      d == Decision(ShortCircuit(Response(401, Message(InvalidApiKey))), db)
    ensures
      && path in RestrictedPaths && HasKey(header) && header.value in KeySet(db.apiKeys)
      && AccessPair(header.value, path) !in PairColumn(db.apiAccess)
      ==> d == Decision(CallNext, db)
    ensures path in RestrictedPaths && HasKey(header) && header.value in KeySet(db.apiKeys) ==>
      var ix := IndicesOf(PairColumn(db.apiAccess), AccessPair(header.value, path));
      |ix| >= 1 ==>
        var a := db.apiAccess[ix[0]];
        if a.accessCount >= a.accessLimit then
          d == Decision(ShortCircuit(Response(403, Message(AccessLimitReached))), db)
        else
          d == Decision(CallNext, db.(apiAccess := db.apiAccess[ix[0] := a.(accessCount := a.accessCount + 1)]))
    ensures d.admission.ShortCircuit? ==> d.db == db
    ensures d.db.apiKeys == db.apiKeys
    ensures |d.db.apiAccess| == |db.apiAccess|
    ensures forall i :: 0 <= i < |db.apiAccess| && d.db.apiAccess[i] != db.apiAccess[i] ==>
      && d.admission == CallNext
      && header == Some(db.apiAccess[i].apiKey)
      && path == db.apiAccess[i].apiName
      && db.apiAccess[i].accessCount < db.apiAccess[i].accessLimit
      && d.db.apiAccess[i] == db.apiAccess[i].(accessCount := db.apiAccess[i].accessCount + 1)
  {
    if path !in RestrictedPaths then Decision(CallNext, db)
    else if !HasKey(header) then Decision(ShortCircuit(Response(400, Message(MissingApiKey))), db)
    else
      var key := header.value;
      KeySetIsKeyColumn(db.apiKeys, key);
      UniqueLookup(KeyColumn(db.apiKeys), key);
      UniqueLookup(PairColumn(db.apiAccess), AccessPair(key, path));
      match Scalar(IndicesOf(KeyColumn(db.apiKeys), key))
      case None => Decision(ShortCircuit(Response(401, Message(InvalidApiKey))), db)
      case Some(_) =>
        match Scalar(IndicesOf(PairColumn(db.apiAccess), AccessPair(key, path)))
        case None => Decision(CallNext, db)
        case Some(i) =>
          var a := db.apiAccess[i];
          if a.accessCount >= a.accessLimit then
            Decision(ShortCircuit(Response(403, Message(AccessLimitReached))), db)
          else
            Decision(CallNext, db.(apiAccess := db.apiAccess[i := a.(accessCount := a.accessCount + 1)]))
  }
}
