/**
  The gateway's response cache (internal/gateway/handlers.go): its key, and every interleaving of loads,
  stores and deletions. A load reads under the lock; when what it read has expired it deletes the key in a
  second critical section, and others may run in between.
*/
module ResponseCache {
  import opened Options

  /** A response and the seconds it may be used for, from when it was created. */
  datatype Entry = Entry(createdAt: int, ttl: int, response: string)

  predicate Expired(e: Entry, now: int)
  {
    e.createdAt + e.ttl < now
  }

  // ----- the key

  datatype Request = Request(apiKeyID: string, endpoint: string, stream: bool, body: string)

  function FormatBool(b: bool): string
  {
    if b then "true" else "false"
  }

  /** `responseCacheKey`; `model` reads the model from a body, `hash` is the hexadecimal SHA-256. */
  function CacheKey(r: Request, model: string -> string, hash: string -> string): string
  {
    JoinFields(r.apiKeyID, model(r.body), r.endpoint, FormatBool(r.stream), hash(r.body))
  }

  function JoinFields(apiKeyID: string, model: string, endpoint: string, stream: string, hash: string): string
  {
    apiKeyID + ":" + model + ":" + endpoint + ":" + stream + ":" + hash
  }

  lemma LastFieldIs(a: string, x: string, b: string, y: string)
    requires a + ":" + x == b + ":" + y && ':' !in x && ':' !in y
    ensures a == b && x == y
  {
    var s := a + ":" + x;
    assert s[|a|] == ':' && s[|b|] == ':';
    assert forall i :: |a| < i < |s| ==> s[i] == x[i - |a| - 1] && s[i] != ':';
    assert forall i :: |b| < i < |s| ==> s[i] == y[i - |b| - 1] && s[i] != ':';
    assert |a| == |b|;
    assert s[..|a|] == a && s[..|b|] == b;
    assert s[|a| + 1..] == x && s[|b| + 1..] == y;
  }

  lemma SameTail(a: string, b: string, tail: string)
    requires a + tail == b + tail
    ensures a == b
  {
    assert (a + tail)[..|a|] == a && (b + tail)[..|b|] == b;
  }

  /** The hash has no collisions and, being hexadecimal, no colons. */
  ghost predicate GoodHash(hash: string -> string)
  {
    && (forall b :: ':' !in hash(b))
    && (forall b, c :: hash(b) == hash(c) ==> b == c)
  }

  /** Two requests share a cached response exactly when API key, endpoint, stream flag and body are the same,
      even if key ids and model names contain colons. */
  lemma KeysSeparateRequests(r: Request, q: Request, model: string -> string, hash: string -> string)
    requires GoodHash(hash) && ':' !in r.endpoint && ':' !in q.endpoint
    ensures CacheKey(r, model, hash) == CacheKey(q, model, hash) <==> r == q
  {
    if CacheKey(r, model, hash) == CacheKey(q, model, hash) {
      var rFront, qFront := r.apiKeyID + ":" + model(r.body), q.apiKeyID + ":" + model(q.body);
      LastFieldIs(rFront + ":" + r.endpoint + ":" + FormatBool(r.stream), hash(r.body),
                  qFront + ":" + q.endpoint + ":" + FormatBool(q.stream), hash(q.body));
      LastFieldIs(rFront + ":" + r.endpoint, FormatBool(r.stream), qFront + ":" + q.endpoint, FormatBool(q.stream));
      LastFieldIs(rFront, r.endpoint, qFront, q.endpoint);
      assert r.apiKeyID + (":" + model(r.body)) == rFront && q.apiKeyID + (":" + model(q.body)) == qFront;
      SameTail(r.apiKeyID, q.apiKeyID, ":" + model(r.body));
      assert FormatBool(r.stream)[0] == FormatBool(q.stream)[0];
    }
  }

  /** It takes the body for that: the fields before the endpoint alone do not tell the key id from the model. */
  lemma FieldsAloneCollide(endpoint: string, stream: string, hash: string)
    ensures JoinFields("key:a", "b", endpoint, stream, hash) == JoinFields("key", "a:b", endpoint, stream, hash)
  {
    assert "key:a" + ":" + "b" == "key" + ":" + "a:b";
  }

  // ----- the cache as an object

  class Cache {
    var entries: map<string, Entry>

    constructor ()
      ensures entries == map[]
    {
      entries := map[];
    }

    /** The first critical section of `loadResponseCache`. */
    method Read(key: string, now: int) returns (hit: Option<Entry>, expired: bool)
      ensures hit == Lookup(entries, key, now)
      ensures hit == if key in entries && now <= entries[key].createdAt + entries[key].ttl
                     then Some(entries[key]) else None
      ensures expired == (key in entries && Expired(entries[key], now))
    {
      if key !in entries {
        return None, false;
      }
      if Expired(entries[key], now) {
        return None, true;
      }
      return Some(entries[key]), false;
    }

    /** `loadResponseCache` with nobody in between. */
    method Load(key: string, now: int) returns (hit: Option<Entry>)
      modifies this
      ensures hit == Lookup(old(entries), key, now)
      ensures hit == if key in old(entries) && now <= old(entries)[key].createdAt + old(entries)[key].ttl
                     then Some(old(entries)[key]) else None
      ensures entries ==
              if key in old(entries) && Expired(old(entries)[key], now) then old(entries) - {key} else old(entries)
    {
      var expired;
      hit, expired := Read(key, now);
      if expired {
        Delete(key);
      }
    }

    method Store(key: string, entry: Entry)
      modifies this
      ensures entries == old(entries)[key := entry]
    {
      entries := entries[key := entry];
    }

    method Delete(key: string)
      modifies this
      ensures entries == old(entries) - {key}
    {
      entries := entries - {key};
    }
  }

  function Lookup(entries: map<string, Entry>, key: string, now: int): Option<Entry>
  {
    if key in entries && !Expired(entries[key], now) then Some(entries[key]) else None
  }

  // ----- interleavings

  type Caller = nat

  datatype Action =
    | DoRead(who: Caller, key: string, now: int)
    | DoExpire(who: Caller, key: string)
    | DoStore(key: string, entry: Entry)
    | DoDelete(key: string)

  /** An entry with the number of the step that stored it. */
  datatype Stored = Stored(entry: Entry, at: nat)

  /** A caller between its two critical sections: what it found expired, and when. */
  datatype Pending = Pending(key: string, found: Stored, now: int, readAt: nat)

  datatype State = State(cache: map<string, Stored>, pending: map<Caller, Pending>)

  const INIT := State(map[], map[])

  predicate Enabled(s: State, a: Action)
  {
    match a
    case DoRead(who, _, _) => who !in s.pending
    case DoExpire(who, key) => who in s.pending && s.pending[who].key == key
    case _ => true
  }

  /** Step number `n`. */
  function Step(s: State, a: Action, n: nat): State
  {
    match a
    case DoRead(who, key, now) =>
      if key in s.cache && Expired(s.cache[key].entry, now) then
        s.(pending := s.pending[who := Pending(key, s.cache[key], now, n)])
      else s
    case DoExpire(who, key) => State(s.cache - {key}, s.pending - {who})
    case DoStore(key, entry) => s.(cache := s.cache[key := Stored(entry, n)])
    case DoDelete(key) => s.(cache := s.cache - {key})
  }

  function Run(actions: seq<Action>): State
  {
    if actions == [] then INIT else Step(Run(actions[..|actions| - 1]), actions[|actions| - 1], |actions| - 1)
  }

  /** Every step was possible when it was taken. */
  ghost predicate IsRun(actions: seq<Action>)
  {
    forall k :: 0 <= k < |actions| ==> Enabled(Run(actions[..k]), actions[k])
  }

  lemma RunSnoc(actions: seq<Action>, k: nat)
    requires IsRun(actions) && k < |actions|
    ensures Enabled(Run(actions[..k]), actions[k])
    ensures Run(actions[..k + 1]) == Step(Run(actions[..k]), actions[k], k)
  {
    assert actions[..k + 1][..k] == actions[..k];
  }

  /** What a load returns that reads after these steps. */
  function ReadResult(actions: seq<Action>, key: string, now: int): Option<Entry>
  {
    var cache := Run(actions).cache;
    if key in cache && !Expired(cache[key].entry, now) then Some(cache[key].entry) else None
  }

  // ----- what the history says

  predicate Stores(a: Action, key: string)
  {
    a.DoStore? && a.key == key
  }

  /** A deletion, or the second half of a load that found the key expired. */
  predicate Removes(a: Action, key: string)
  {
    (a.DoDelete? || a.DoExpire?) && a.key == key
  }

  /** Step `i` stored the key, and in the steps before `n` nobody has stored or removed it since. */
  ghost predicate IsLatest(actions: seq<Action>, n: nat, i: nat, key: string)
    requires n <= |actions|
  {
    i < n && Stores(actions[i], key) && forall j :: i < j < n ==> !Stores(actions[j], key) && !Removes(actions[j], key)
  }

  lemma LatestStep(actions: seq<Action>, n: nat, i: nat, key: string)
    requires 0 < n <= |actions|
    ensures IsLatest(actions, n, i, key) <==>
            if i == n - 1 then Stores(actions[i], key)
            else IsLatest(actions, n - 1, i, key) && !Stores(actions[n - 1], key) && !Removes(actions[n - 1], key)
  {
  }

  ghost predicate HoldsLatest(actions: seq<Action>, n: nat, key: string, cache: map<string, Stored>)
    requires n <= |actions|
  {
    if key in cache then IsLatest(actions, n, cache[key].at, key) && actions[cache[key].at].entry == cache[key].entry
    else forall i: nat :: !IsLatest(actions, n, i, key)
  }

  lemma HoldsLatestStep(actions: seq<Action>, n: nat, key: string,
                        before: map<string, Stored>, after: map<string, Stored>)
    requires 0 < n <= |actions| && HoldsLatest(actions, n - 1, key, before)
    requires var a := actions[n - 1];
             if Stores(a, key) then key in after && after[key] == Stored(a.entry, n - 1)
             else if Removes(a, key) then key !in after
             else (key in after <==> key in before) && (key in after ==> after[key] == before[key])
    ensures HoldsLatest(actions, n, key, after)
  {
    if key in after {
      LatestStep(actions, n, after[key].at, key);
    } else {
      forall i: nat ensures !IsLatest(actions, n, i, key) { LatestStep(actions, n, i, key); }
    }
  }

  /** The cache holds a key exactly when it was stored and not removed since, and holds the latest store. */
  lemma {:induction false} CacheIsLatest(actions: seq<Action>, n: nat, key: string)
    requires IsRun(actions) && n <= |actions|
    ensures HoldsLatest(actions, n, key, Run(actions[..n]).cache)
  {
    if n > 0 {
      CacheIsLatest(actions, n - 1, key);
      RunSnoc(actions, n - 1);
      HoldsLatestStep(actions, n, key, Run(actions[..n - 1]).cache, Run(actions[..n]).cache);
    }
  }

  lemma LatestIsUnique(actions: seq<Action>, n: nat, i: nat, j: nat, key: string)
    requires n <= |actions| && IsLatest(actions, n, i, key) && IsLatest(actions, n, j, key)
    ensures i == j
  {
  }

  /** A load is a hit exactly when some step stored the key, nobody stored or removed it since, and what was
      stored has not outlived its time; the hit is what that step stored. */
  lemma HitIsLatestStore(actions: seq<Action>, key: string, now: int, e: Entry)
    requires IsRun(actions)
    ensures ReadResult(actions, key, now) == Some(e) <==>
            exists i: nat :: IsLatest(actions, |actions|, i, key) && actions[i].entry == e && now <= e.createdAt + e.ttl
  {
    var n := |actions|;
    assert actions[..n] == actions;
    CacheIsLatest(actions, n, key);
    var cache := Run(actions).cache;
    if key in cache {
      forall i: nat | IsLatest(actions, n, i, key) ensures i == cache[key].at {
        LatestIsUnique(actions, n, i, cache[key].at, key);
      }
    }
  }

  /** A caller between its critical sections did read the key, and what the cache then held had expired. */
  ghost predicate Explained(actions: seq<Action>, who: Caller, p: Pending)
  {
    && p.readAt < |actions| && actions[p.readAt] == DoRead(who, p.key, p.now)
    && p.key in Run(actions[..p.readAt]).cache && Run(actions[..p.readAt]).cache[p.key] == p.found
    && Expired(p.found.entry, p.now)
  }

  lemma {:induction false} PendingIsExplained(actions: seq<Action>, n: nat, who: Caller)
    requires IsRun(actions) && n <= |actions| && who in Run(actions[..n]).pending
    ensures Explained(actions, who, Run(actions[..n]).pending[who]) && Run(actions[..n]).pending[who].readAt < n
  {
    RunSnoc(actions, n - 1);
    if who in Run(actions[..n - 1]).pending { PendingIsExplained(actions, n - 1, who); }
  }

  /** Of two caches that hold a key, the later holds another entry exactly if it was stored in between. */
  lemma StoredSince(actions: seq<Action>, m: nat, key: string, before: map<string, Stored>, after: map<string, Stored>)
    requires m < |actions| && HoldsLatest(actions, m, key, before) && HoldsLatest(actions, |actions|, key, after)
    requires key in before && !Stores(actions[m], key)
    ensures key in after ==> (after[key] != before[key] <==> m < after[key].at)
  {
    if key in after && after[key].at <= m {
      LatestIsUnique(actions, m, after[key].at, before[key].at, key);
    }
  }

  /** Removing what was found expired can remove something else: what the cache holds under the key is then
      another entry exactly when the key has been stored again since the read. */
  lemma ExpiryRemoves(actions: seq<Action>, who: Caller)
    requires IsRun(actions) && who in Run(actions).pending
    ensures var p := Run(actions).pending[who];
            var cache := Run(actions).cache;
            p.key in cache ==> (cache[p.key] != p.found <==> p.readAt < cache[p.key].at)
    ensures Expired(Run(actions).pending[who].found.entry, Run(actions).pending[who].now)
  {
    var n := |actions|;
    assert actions[..n] == actions;
    var p := Run(actions).pending[who];
    var cache := Run(actions).cache;
    PendingIsExplained(actions, n, who);
    CacheIsLatest(actions, n, p.key);
    CacheIsLatest(actions, p.readAt, p.key);
    StoredSince(actions, p.readAt, p.key, Run(actions[..p.readAt]).cache, cache);
  }

  /** So a fresh entry can be lost: a load finds an expired entry, the response is stored anew, and the load
      then deletes it. */
  lemma FreshEntryCanBeLost(key: string, response: string) returns (actions: seq<Action>)
    ensures IsRun(actions) && |actions| == 4
    ensures ReadResult(actions[..3], key, 101) == Some(Entry(100, 300, response))
    ensures actions[3] == DoExpire(0, key) && ReadResult(actions, key, 101) == None
  {
    actions := [DoStore(key, Entry(0, 50, response)), DoRead(0, key, 99),
                DoStore(key, Entry(100, 300, response)), DoExpire(0, key)];
    assert actions[..0] == [];
    assert forall k :: 0 <= k < 4 ==> actions[..k + 1][..k] == actions[..k];
    assert Run(actions[..1]) == State(map[key := Stored(Entry(0, 50, response), 0)], map[]);
    assert Run(actions[..2]).pending == map[0 := Pending(key, Stored(Entry(0, 50, response), 0), 99, 1)];
    assert Run(actions[..3]).cache[key] == Stored(Entry(100, 300, response), 2);
    assert actions[..4] == actions;
  }
}
