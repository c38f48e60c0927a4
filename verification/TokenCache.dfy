/** Token reviews: who a token belongs to and whether it may pass, cached for a while. */
module TokenCache {
  import opened Records

  /** The cache key: a hash, taken to be injective. */
  datatype Key = Sha256(token: string)

  datatype Cached = Cached(user: string, expires: int)

  datatype ReviewError = Unauthenticated | NoUsername | ApiMissing | CallFailed | Forbidden

  /** 30 seconds, in nanoseconds. */
  const TTL := 30_000_000_000

  const SWEEP_ABOVE := 1024

  function Lookup(c: map<Key, Cached>, k: Key, now: int): Option<string> {
    if k in c && now < c[k].expires then Some(c[k].user) else None
  }

  function Swept(c: map<Key, Cached>, now: int): map<Key, Cached> {
    map k | k in c && now <= c[k].expires :: c[k]
  }

  function Stored(c: map<Key, Cached>, k: Key, user: string, now: int, ttl: int): map<Key, Cached> {
    (if |c| > SWEEP_ABOVE then Swept(c, now) else c)[k := Cached(user, now + ttl)]
  }

  /** What the API server said, and when. */
  datatype Fact = Named(token: string, user: string, at: int) | Allowed(token: string, at: int)

  /** Since the given moment the API server named the token's user and allowed the token. */
  predicate Vouched(facts: set<Fact>, token: string, user: string, since: int) {
    NamedSince(facts, token, user, since) && AllowedSince(facts, token, since)
  }

  predicate NamedSince(facts: set<Fact>, token: string, user: string, since: int) {
    exists f <- facts :: f.Named? && f.token == token && f.user == user && since <= f.at
  }

  predicate AllowedSince(facts: set<Fact>, token: string, since: int) {
    exists f <- facts :: f.Allowed? && f.token == token && since <= f.at
  }

  /** No entry but those of allowed tokens: failures and denials are never cached. */
  ghost predicate CacheOk(c: map<Key, Cached>, facts: set<Fact>, ttl: int, clock: int) {
    forall k :: k in c ==> c[k].expires - ttl <= clock && Vouched(facts, k.token, c[k].user, c[k].expires - ttl)
  }

  lemma StoredOk(c: map<Key, Cached>, facts: set<Fact>, ttl: int, clock: int, k: Key, user: string, now: int)
    requires CacheOk(c, facts, ttl, clock) && now <= clock && Vouched(facts, k.token, user, now)
    ensures CacheOk(Stored(c, k, user, now, ttl), facts, ttl, clock)
  {
  }

  lemma LaterOk(c: map<Key, Cached>, facts: set<Fact>, ttl: int, clock: int, more: set<Fact>, later: int)
    requires CacheOk(c, facts, ttl, clock) && facts <= more && clock <= later
    ensures CacheOk(c, more, ttl, later)
  {
  }

  /** What a store call takes out has expired, so no lookup from then on can tell. */
  lemma SweepIsInvisible(c: map<Key, Cached>, k: Key, user: string, now: int, ttl: int, o: Key, later: int)
    requires now <= later && o != k
    ensures Lookup(Stored(c, k, user, now, ttl), o, later) == Lookup(c, o, later)
    ensures o in c ==> (o !in Stored(c, k, user, now, ttl) <==> c[o].expires < now && |c| > 1024)
    ensures o in Stored(c, k, user, now, ttl) ==> o in c && Stored(c, k, user, now, ttl)[o] == c[o]
  {
  }

  /** The API server's answer to one request. */
  datatype Answer = Reply(user: string, allowed: bool) | NotFound | Refused(error: ReviewError)

  /** What an API server in good order says: it knows users by their tokens, lets some of them pass,
      and serves some versions of the review API, 0 being v1 and 1 v1beta1. */
  datatype Server = Server(users: map<string, string>, permitted: set<string>, versions: set<nat>)

  class Reviewer {
    const ttl: int
    /** The API server, when it is in good order. */
    const server: Option<Server>
    var cache: map<Key, Cached>
    var clock: int
    /** Everything the API server ever said, to this call and to the others. */
    var facts: set<Fact>
    /** How many requests this call sent. */
    ghost var asked: nat

    constructor (server: Option<Server>)
      ensures Valid() && cache == map[] && ttl == 30_000_000_000 && this.server == server
    {
      var start: int := *;
      ttl, cache, clock, facts, asked := TTL, map[], start, {}, 0;
      this.server := server;
    }

    ghost predicate Valid()
      reads this
    {
      ttl > 0 && CacheOk(cache, facts, ttl, clock)
    }

    /** Time moved on and more was said. */
    twostate predicate Later()
      reads this
    {
      old(clock) <= clock && old(facts) <= facts
    }

    method Say(more: set<Fact>, d: nat)
      requires Valid()
      modifies this`clock, this`facts
      ensures Valid() && clock == old(clock) + d && facts == old(facts) + more
    {
      LaterOk(cache, facts, ttl, clock, facts + more, clock + d);
      clock, facts := clock + d, facts + more;
    }

    /** Other calls of Review go on: the API answers them, and they store what they may. */
    method Interfere()
      requires Valid()
      modifies this`cache, this`clock, this`facts
      ensures Valid() && Later()
    {
      var n: nat := *;
      while n > 0
        invariant Valid() && Later()
      {
        n := n - 1;
        var d: nat, token: string, user: string, now: int := *, *, *, *;
        var named: bool, allowed: bool := *, *;
        Say(if named then {Named(token, user, clock + d)} else if allowed then {Allowed(token, clock + d)} else {}, d);
        if now <= clock && Vouched(facts, token, user, now) {
          Fill(Sha256(token), user, now);
        }
      }
    }

    method Sweep(now: int)
      modifies this`cache
      ensures cache == Swept(old(cache), now)
    {
      var todo := cache.Keys;
      while todo != {}
        invariant todo <= cache.Keys <= old(cache).Keys
        invariant forall k :: k in cache ==> cache[k] == old(cache)[k]
        invariant forall k :: k in old(cache) && k !in todo ==> (k in cache <==> now <= old(cache)[k].expires)
      {
        var k :| k in todo;
        if now > cache[k].expires {
          cache := cache - {k};
        }
        todo := todo - {k};
      }
    }

    /** The last critical section of Review: sweep a big cache, then store. */
    method Fill(key: Key, user: string, now: int)
      requires Valid() && now <= clock && Vouched(facts, key.token, user, now)
      modifies this`cache
      ensures Valid() && cache == Stored(old(cache), key, user, now, ttl)
    {
      StoredOk(cache, facts, ttl, clock, key, user, now);
      hide CacheOk, Vouched;
      if |cache| > SWEEP_ABOVE {
        Sweep(now);
      }
      cache := cache[key := Cached(user, now + ttl)];
    }

    /** One request for the token: whatever the API server likes to answer, some time later. */
    method Post(token: string, naming: bool, version: nat) returns (a: Answer)
      requires Valid()
      modifies this
      ensures Valid() && Later() && asked == old(asked) + 1
      ensures a.Reply? && naming ==> NamedSince(facts, token, a.user, old(clock))
      ensures a.Reply? && !naming && a.allowed ==> AllowedSince(facts, token, old(clock))
      ensures server.Some? ==> Faithful(server.value, token, naming, version, a)
    {
      Interfere();
      asked := asked + 1;
      var user: string, allowed: bool, works: bool, missing: bool := *, *, *, *;
      if server.Some? {
        var s := server.value;
        if token !in s.users {
          return Refused(Unauthenticated);
        }
        if naming && version !in s.versions {
          return NotFound;
        }
        user, allowed, works := s.users[token], token in s.permitted, true;
      }
      if works {
        Say(if naming then {Named(token, user, clock)} else if allowed then {Allowed(token, clock)} else {}, 0);
        if naming {
          assert Named(token, user, clock) in facts;
        } else if allowed {
          assert Allowed(token, clock) in facts;
        }
        a := Reply(user, allowed);
      } else {
        a := if missing then NotFound else Refused(CallFailed);
      }
    }

    /** The user the API server names, asking the newer version of the API first. */
    method WhoAmI(token: string) returns (user: string, error: Option<ReviewError>)
      requires Valid()
      modifies this
      ensures Valid() && Later() && old(asked) < asked <= old(asked) + 2
      ensures error.None? ==> user != "" && NamedSince(facts, token, user, old(clock))
      ensures server.Some? ==>
                var s := server.value;
                && error == (if token !in s.users then Some(Unauthenticated)
                             else if 0 !in s.versions && 1 !in s.versions then Some(ApiMissing)
                             else if s.users[token] == "" then Some(NoUsername) else None)
                && (error.None? ==> user == s.users[token])
                && asked == old(asked) + if token in s.users && 0 !in s.versions then 2 else 1
    {
      for version := 0 to 2
        invariant Valid() && Later() && asked == old(asked) + version
        invariant server.Some? && version > 0 ==> token in server.value.users && forall v :: 0 <= v < version ==>
              v !in server.value.versions
      {
        ghost var before := clock;
        var a := Post(token, true, version);
        if a.Refused? {
          return "", Some(a.error);
        }
        if a.Reply? {
          if a.user == "" {
            return "", Some(NoUsername);
          }
          NamedEarlier(facts, token, a.user, before, old(clock));
          return a.user, None;
        }
      }
      return "", Some(ApiMissing);
    }

    method MayPass(token: string) returns (allowed: bool, error: Option<ReviewError>)
      requires Valid()
      modifies this
      ensures Valid() && Later() && asked == old(asked) + 1
      ensures error.None? && allowed ==> AllowedSince(facts, token, old(clock))
      ensures server.Some? && token in server.value.users ==>
                error.None? && (allowed <==> token in server.value.permitted)
    {
      var a := Post(token, false, 0);
      if a.Reply? {
        return a.allowed, None;
      }
      return false, Some(if a.NotFound? then ApiMissing else a.error);
    }

    /** The token's user, if the token is valid and allowed. since bounds how old that knowledge is. */
    method Review(token: string) returns (user: string, error: Option<ReviewError>, ghost since: int)
      requires Valid()
      modifies this
      ensures Valid() && Later()
      ensures error.None? ==> since > old(clock) - ttl && Vouched(facts, token, user, since)
      ensures var hit := Lookup(old(cache), Sha256(token), old(clock));
              if hit.Some?
              then user == hit.value && error.None? && asked == old(asked) && cache == old(cache)
              else asked > old(asked) && (error.None? ==>
                since == old(clock) && Sha256(token) in cache && cache[Sha256(token)] == Cached(user, old(clock) + ttl))
      ensures server.Some? && Lookup(old(cache), Sha256(token), old(clock)).None? ==>
                var s := server.value;
                && error == (if token !in s.users then Some(Unauthenticated)
                             else if 0 !in s.versions && 1 !in s.versions then Some(ApiMissing)
                             else if s.users[token] == "" then Some(NoUsername)
                             else if token !in s.permitted then Some(Forbidden) else None)
                && (error.None? ==> user == s.users[token])
    {
      var key, now := Sha256(token), clock;
      if key in cache && now < cache[key].expires {
        return cache[key].user, None, cache[key].expires - ttl;
      }
      since := now;
      user, error := WhoAmI(token);
      if error.Some? {
        return;
      }
      ghost var named := facts;
      var allowed: bool;
      ghost var asking := clock;
      allowed, error := MayPass(token);
      if error.Some? {
        return;
      }
      if !allowed {
        return user, Some(Forbidden), now;
      }
      NamedStill(named, facts, token, user, now);
      AllowedEarlier(facts, token, asking, now);
      Interfere();
      Fill(key, user, now);
    }
  }

  /** The answer of a server in good order. */
  predicate Faithful(s: Server, token: string, naming: bool, version: nat, a: Answer) {
    if token !in s.users then a == Refused(Unauthenticated)
    else if naming && version !in s.versions then a == NotFound
    else a == Reply(s.users[token], token in s.permitted)
  }

  lemma NamedEarlier(facts: set<Fact>, token: string, user: string, since: int, before: int)
    requires NamedSince(facts, token, user, since) && before <= since
    ensures NamedSince(facts, token, user, before)
  {
  }

  lemma NamedStill(facts: set<Fact>, more: set<Fact>, token: string, user: string, since: int)
    requires NamedSince(facts, token, user, since) && facts <= more
    ensures NamedSince(more, token, user, since)
  {
  }

  lemma AllowedEarlier(facts: set<Fact>, token: string, since: int, before: int)
    requires AllowedSince(facts, token, since) && before <= since
    ensures AllowedSince(facts, token, before)
  {
  }
}
