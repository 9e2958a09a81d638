/**
  The admission-control state machine at the level the handlers are meant
  to be read: a set of issued keys and one quota (limit, count) per
  (key, api name) pair.  Each transition returns the response and the new
  state.  `Refinement` proves that the row-level handlers behave exactly
  like these transitions on every valid database.
 */
module QuotaStore {
  import opened Wrappers
  import opened Http
  import opened Acl

  datatype Quota = Quota(limit: int, count: int)

  datatype Store = Store(keys: set<string>, grants: map<AccessPair, Quota>)

  /** A response together with the state after the request. */
  datatype Outcome = Outcome(response: Response, store: Store)

  /** An admission decision together with the state after it. */
  datatype Gate = Gate(admission: Admission, store: Store)

  /** A counter is never negative and never passes a non-negative limit; under a negative limit it stays 0. */
  predicate InRange(q: Quota)
  {
    0 <= q.count && (q.count <= q.limit || q.count == 0)
  }

  /** Every grant belongs to an issued key and keeps its counter in range. */
  predicate Consistent(s: Store)
  {
    forall p :: p in s.grants ==> p.apiKey in s.keys && InRange(s.grants[p])
  }

  /** Issuing `key`: it joins the issued keys; a key already issued is refused and nothing changes. */
  function Issue(s: Store, key: string): (o: Outcome)
    ensures key in s.keys ==> o == Outcome(InternalServerError, s)
    ensures key !in s.keys ==>
      && o.response == Response(200, IssuedKey(key))
      && o.store.keys == s.keys + {key}
      && o.store.grants == s.grants
    ensures Consistent(s) ==> Consistent(o.store)
  {
    if key in s.keys then Outcome(InternalServerError, s)
    else Outcome(Response(200, IssuedKey(key)), s.(keys := s.keys + {key}))
  }

  /**
    Granting `limit` calls of `apiName` to `key`: refused with 404 for an
    unknown key; otherwise the pair's quota becomes (limit, 0), and no
    other pair's quota changes.
   */
  function SetGrant(s: Store, key: string, apiName: string, limit: int): (o: Outcome)
    ensures key !in s.keys ==> o == Outcome(Response(404, Detail(ApiKeyNotFound)), s)
    ensures key in s.keys ==>
      && o.response == Response(200, Message(AccessLimitSet))
      && AccessPair(key, apiName) in o.store.grants
      && o.store.grants[AccessPair(key, apiName)] == Quota(limit, 0)
    ensures o.store.keys == s.keys
    ensures forall p :: p != AccessPair(key, apiName) ==>
      && (p in o.store.grants <==> p in s.grants)
      && (p in s.grants ==> o.store.grants[p] == s.grants[p])
    ensures Consistent(s) ==> Consistent(o.store)
  {
    if key !in s.keys then Outcome(Response(404, Detail(ApiKeyNotFound)), s)
    else
      Outcome(Response(200, Message(AccessLimitSet)),
              s.(grants := s.grants[AccessPair(key, apiName) := Quota(limit, 0)]))
  }

  /**
    Checking and consuming one call of `apiName` under `key`: allowed
    exactly when a grant exists and its counter is below the limit, in
    which case that counter, and nothing else, goes up by one.  Every
    denial leaves the state as it was.
   */
  function Check(s: Store, key: string, apiName: string): (o: Outcome)
    ensures var p := AccessPair(key, apiName);
      o.response.status == 200 <==> p in s.grants && s.grants[p].count < s.grants[p].limit
    ensures AccessPair(key, apiName) !in s.grants ==> o == Outcome(Response(403, Detail(AccessNotAllowed)), s)
    ensures o.response.status != 200 ==> o.store == s
    ensures var p := AccessPair(key, apiName);
      o.response.status == 200 ==>
        && o.store.keys == s.keys
        && o.store.grants.Keys == s.grants.Keys
        && o.store.grants[p] == Quota(s.grants[p].limit, s.grants[p].count + 1)
        && forall p' :: p' in s.grants && p' != p ==> o.store.grants[p'] == s.grants[p']
    ensures Consistent(s) ==> Consistent(o.store)
  {
    var p := AccessPair(key, apiName);
    if p !in s.grants then Outcome(Response(403, Detail(AccessNotAllowed)), s)
    else
      var q := s.grants[p];
      if q.count >= q.limit then Outcome(Response(403, Detail(QuotaExceeded)), s)
      else Outcome(Response(200, Null), s.(grants := s.grants[p := q.(count := q.count + 1)]))
  }

  /**
    The middleware's decision: ungated paths and known keys without a
    grant pass untouched; otherwise a request with a known key consumes
    exactly as `Check` does, answering 403 with its own message on an
    exhausted quota.
   */
  function Admit(s: Store, path: string, header: Option<string>): (g: Gate)
    ensures path !in RestrictedPaths ==> g == Gate(CallNext, s)
    ensures path in RestrictedPaths && !HasKey(header) ==>
      g == Gate(ShortCircuit(Response(400, Message(MissingApiKey))), s)
    ensures path in RestrictedPaths && HasKey(header) && header.value !in s.keys ==>
      g == Gate(ShortCircuit(Response(401, Message(InvalidApiKey))), s)
    ensures path in RestrictedPaths && HasKey(header) && header.value in s.keys ==>
      var c := Check(s, header.value, path);
      if AccessPair(header.value, path) !in s.grants then g == Gate(CallNext, s)
      else
        && g.store == c.store
        && (g.admission == CallNext <==> c.response.status == 200)
        && (g.admission != CallNext ==> g.admission == ShortCircuit(Response(403, Message(AccessLimitReached))))
    ensures Consistent(s) ==> Consistent(g.store)
  {
    if path !in RestrictedPaths then Gate(CallNext, s)
    else if !HasKey(header) then Gate(ShortCircuit(Response(400, Message(MissingApiKey))), s)
    else
      var key := header.value;
      var p := AccessPair(key, path);
      if key !in s.keys then Gate(ShortCircuit(Response(401, Message(InvalidApiKey))), s)
      else if p !in s.grants then Gate(CallNext, s)
      else
        var q := s.grants[p];
        if q.count >= q.limit then Gate(ShortCircuit(Response(403, Message(AccessLimitReached))), s)
        else Gate(CallNext, s.(grants := s.grants[p := q.(count := q.count + 1)]))
  }

  /** One check of a granted pair: 200 and one more use below the limit, 403 "API quota exceeded" at or past it. */
  lemma CheckStep(s: Store, key: string, apiName: string)
    requires AccessPair(key, apiName) in s.grants
    ensures var p := AccessPair(key, apiName);
      var q := s.grants[p];
      var o := Check(s, key, apiName);
      && o.response == (if q.count < q.limit then Response(200, Null) else Response(403, Detail(QuotaExceeded)))
      && o.store == s.(grants := s.grants[p := Quota(q.limit, if q.count < q.limit then q.count + 1 else q.count)])
  {
  }

  /** One gated request with a granted key: it passes and counts one use when the counter is below the limit, else gets 403. */
  lemma AdmitStep(s: Store, path: string, key: string)
    requires path in RestrictedPaths
    requires key != "" && key in s.keys
    requires AccessPair(key, path) in s.grants
    ensures var p := AccessPair(key, path);
      var q := s.grants[p];
      var g := Admit(s, path, Some(key));
      && g.admission == (if q.count < q.limit then CallNext else ShortCircuit(Response(403, Message(AccessLimitReached))))
      && g.store == s.(grants := s.grants[p := Quota(q.limit, if q.count < q.limit then q.count + 1 else q.count)])
  {
  }
}
