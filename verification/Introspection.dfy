/** Opaque-token introspection: the active-result cache, the answer contract of
    one provider, and the trial over all providers (internal/auth/introspection.go,
    internal/auth/identitystore.go:650-695; section 2.2 of RFC 7662). */
module Introspection {
  import opened Wrappers
  import opened LoginSync

  // Times are nanoseconds, exp is seconds.
  const SECOND := 1_000_000_000
  const TTL_CAP := 60 * SECOND

  datatype TokenInfo = TokenInfo(active: bool, subject: string, issuer: string, exp: int, raw: map<string, Json>)

  datatype Entry = Entry(result: TokenInfo, expiresAt: int)
  type Cache = map<string, Entry>

  function Expiry(res: TokenInfo, now: int): int {
    if res.exp > 0 && res.exp * SECOND < now + TTL_CAP then res.exp * SECOND else now + TTL_CAP
  }

  /** Whether cachePut stores an answer at all. */
  predicate Cacheable(res: TokenInfo, now: int) {
    res.active && Expiry(res, now) > now
  }

  function Put(cache: Cache, key: string, res: TokenInfo, now: int): Cache {
    if Cacheable(res, now) then cache[key := Entry(res, Expiry(res, now))] else cache
  }

  function Hit(cache: Cache, key: string, now: int): Option<TokenInfo> {
    if key in cache && cache[key].expiresAt > now then Some(cache[key].result) else None
  }

  /** A look-up deletes the entry it finds expired. */
  function Evict(cache: Cache, key: string, now: int): Cache {
    if key in cache && cache[key].expiresAt <= now then cache - {key} else cache
  }

  /** The exchange with the provider: no response, or a status and, when it was
      read and decoded, a body. */
  datatype Reply = NoResponse | Response(status: int, body: Option<TokenInfo>)

  /** None is a non-decisive failure. */
  function Interpret(reply: Reply): Option<TokenInfo> {
    if reply.NoResponse? || reply.status >= 500 then None
    else if reply.status >= 400 then Some(TokenInfo(false, "", "", 0, map[]))
    else if reply.status != 200 then None
    else reply.body
  }

  // ---------------------------------------------------------------- runs of the cache

  /** The atomic cache operations of any number of requests, in the order in which
      they take the lock. A Store carries the time at which the provider gave the
      answer. */
  datatype Event = Store(key: string, res: TokenInfo, answered: int, at: int) | Lookup(key: string, at: int)

  function After(events: List<Event>): Cache {
    match events
    case Nil => map[]
    case Cons(Store(key, res, _, at), before) => Put(After(before), key, res, at)
    case Cons(Lookup(key, at), before) => Evict(After(before), key, at)
  }

  /** No clock reading so far is later than now. This is all that a clock that never
      goes back gives: a put reads it before it takes the lock, so that operations
      need not happen in the order of their readings. */
  predicate NoneAfter(events: List<Event>, now: int) {
    match events
    case Nil => true
    case Cons(e, before) => e.at <= now && NoneAfter(before, now)
  }

  /** The reference: the latest cacheable answer for the key, however old. */
  function Latest(events: List<Event>, key: string): Option<(TokenInfo, int)> {
    match events
    case Nil => None
    case Cons(Store(k, res, _, at), before) =>
      if k == key && Cacheable(res, at) then Some((res, at)) else Latest(before, key)
    case Cons(Lookup(_, _), before) => Latest(before, key)
  }

  function Remembered(events: List<Event>, key: string, now: int): Option<TokenInfo> {
    match Latest(events, key)
    case None => None
    case Some((res, at)) => if Expiry(res, at) > now then Some(res) else None
  }

  /** An entry is the latest cacheable answer; a missing one has expired. */
  lemma {:induction false} CacheTracksLatest(events: List<Event>, key: string, now: int)
    requires NoneAfter(events, now)
    ensures var c := After(events);
            match Latest(events, key)
            case None => key !in c
            case Some((res, at)) => if key in c then c[key] == Entry(res, Expiry(res, at)) else Expiry(res, at) <= now
  {
    if events.Cons? {
      CacheTracksLatest(events.tail, key, now);
    }
  }

  /** The cache with its evictions answers exactly like the log without them. */
  lemma CacheRefinesLog(events: List<Event>, key: string, now: int)
    requires NoneAfter(events, now)
    ensures Hit(After(events), key, now) == Remembered(events, key, now)
  {
    CacheTracksLatest(events, key, now);
  }

  lemma {:induction false} LatestIsStored(events: List<Event>, key: string, now: int) returns (e: Event)
    requires NoneAfter(events, now) && Latest(events, key).Some?
    ensures e.Store? && e in Elements(events) && e.key == key && e.at <= now
    ensures Latest(events, key) == Some((e.res, e.at)) && Cacheable(e.res, e.at)
  {
    if events.head.Store? && events.head.key == key && Cacheable(events.head.res, events.head.at) {
      e := events.head;
    } else {
      e := LatestIsStored(events.tail, key, now);
    }
  }

  /** How long an answer is given out again: an active one for exactly 60 seconds, or
      until its own expiry if that comes first; any other never. */
  lemma GivenOutUntil(events: List<Event>, key: string, res: TokenInfo, answered: int, at: int, now: int)
    requires at <= now
    ensures var before, after := After(events), After(Cons(Store(key, res, answered, at), events));
            && (res.active && (res.exp > 0 ==> at < res.exp * 1_000_000_000) ==>
                  (Hit(after, key, now) == Some(res) <==>
                     now < at + 60_000_000_000 && (res.exp > 0 ==> now < res.exp * 1_000_000_000))
                  && (Hit(after, key, now) == Some(res) || Hit(after, key, now).None?))
            && (!res.active || (res.exp > 0 && res.exp * 1_000_000_000 <= at) ==> after == before)
            && (forall other :: other != key ==> Hit(after, other, now) == Hit(before, other, now))
  {
  }

  /** What a hit promises: the answer was active, was stored less than the cap ago, and
      has not reached the token's own expiry. */
  ghost predicate Fresh(events: List<Event>, key: string, now: int, res: TokenInfo) {
    && res.active && (res.exp > 0 ==> now < res.exp * 1_000_000_000)
    && exists e :: e in Elements(events) && e.Store? && e.key == key && e.res == res && e.at <= now < e.at + 60_000_000_000
  }

  /** A hit is an answer that was active, was stored less than the cap ago, and has
      not reached the token's own expiry. */
  lemma HitIsFresh(events: List<Event>, key: string, now: int, res: TokenInfo)
    requires NoneAfter(events, now) && Hit(After(events), key, now) == Some(res)
    ensures Fresh(events, key, now, res)
  {
    CacheRefinesLog(events, key, now);
    var e := LatestIsStored(events, key, now);
  }

  /** Cached and live answers disagree for less than the cap plus the time an
      answer takes to arrive: if every stored answer repeats what the provider said
      when it answered, a hit means that the provider said active that recently. */
  lemma StalenessBounded(events: List<Event>, key: string, now: int, live: (string, int) -> bool, delay: nat)
    requires NoneAfter(events, now) && Hit(After(events), key, now).Some?
    requires forall e :: e in Elements(events) && e.Store? ==>
               e.answered <= e.at <= e.answered + delay && (e.res.active ==> live(e.key, e.answered))
    ensures exists t :: now - TTL_CAP - delay < t <= now && live(key, t)
  {
    CacheRefinesLog(events, key, now);
    var e := LatestIsStored(events, key, now);
    assert live(key, e.answered);
  }

  // ---------------------------------------------------------------- the provider

  class Introspector {
    const hash: string -> string  // the hex digest that keys the cache
    var cache: Cache
    ghost var log: List<Event>    // the cache operations so far, the latest first

    /** The cache is what its operations made it. */
    ghost predicate Valid()
      reads this
    {
      cache == After(log)
    }

    constructor (hash: string -> string)
      ensures this.hash == hash && cache == map[] && log == Nil && Valid()
    {
      this.hash, cache, log := hash, map[], Nil;
    }

    method CacheGet(token: string, now: int) returns (r: Option<TokenInfo>)
      requires Valid()
      modifies this
      ensures Valid() && log == Cons(Lookup(hash(token), now), old(log))
      ensures r == Hit(old(cache), hash(token), now) && cache == Evict(old(cache), hash(token), now)
      ensures r.Some? && NoneAfter(old(log), now) ==> Fresh(old(log), hash(token), now, r.value)
    {
      var key := hash(token);
      if Hit(cache, key, now).Some? && NoneAfter(log, now) {
        HitIsFresh(log, key, now, Hit(cache, key, now).value);
      }
      log := Cons(Lookup(key, now), log);
      if key !in cache {
        return None;
      }
      if !(cache[key].expiresAt > now) {
        cache := cache - {key};
        return None;
      }
      return Some(cache[key].result);
    }

    method CachePut(token: string, res: TokenInfo, ghost answered: int, now: int)
      requires Valid()
      modifies this
      ensures Valid() && log == Cons(Store(hash(token), res, answered, now), old(log))
      ensures cache == Put(old(cache), hash(token), res, now)
    {
      log := Cons(Store(hash(token), res, answered, now), log);
      if !res.active {
        return;
      }
      var expiresAt := now + TTL_CAP;
      if res.exp > 0 {
        var tokenExp := res.exp * SECOND;
        if tokenExp < expiresAt {
          expiresAt := tokenExp;
        }
      }
      if !(expiresAt > now) {
        return;
      }
      cache := cache[hash(token) := Entry(res, expiresAt)];
    }

    /** One introspection: a hit needs no exchange and is fresh; otherwise the reply
        decides, and only a decoded 200 answer is offered to the cache. The times are
        those of the look-up, of the provider's answer and of the put. */
    method Introspect(token: string, getAt: int, reply: Reply, ghost answered: int, putAt: int) returns (r: Option<TokenInfo>)
      requires Valid()
      modifies this
      ensures Valid()
      ensures Hit(old(cache), hash(token), getAt).Some? ==>
                && r == Hit(old(cache), hash(token), getAt) && cache == old(cache)
                && log == Cons(Lookup(hash(token), getAt), old(log))
                && (NoneAfter(old(log), getAt) ==> Fresh(old(log), hash(token), getAt, r.value))
      ensures Hit(old(cache), hash(token), getAt).None? ==>
                && (reply.NoResponse? ==> r.None?)
                && (reply.Response? && reply.status >= 500 ==> r.None?)
                && (reply.Response? && 400 <= reply.status < 500 ==> r == Some(TokenInfo(false, "", "", 0, map[])))
                && (reply.Response? && reply.status < 400 && reply.status != 200 ==> r.None?)
                && (reply.Response? && reply.status == 200 ==> r == reply.body)
      ensures Hit(old(cache), hash(token), getAt).None? ==>
                && r == Interpret(reply)
                && cache == (if r.Some? then Put(Evict(old(cache), hash(token), getAt), hash(token), r.value, putAt)
                             else Evict(old(cache), hash(token), getAt))
                && log == (if r.Some? && reply.status == 200
                           then Cons(Store(hash(token), r.value, answered, putAt), Cons(Lookup(hash(token), getAt), old(log)))
                           else Cons(Lookup(hash(token), getAt), old(log)))
    {
      var cached := CacheGet(token, getAt);
      if cached.Some? {
        return cached;
      }
      match reply {
        case NoResponse =>
          return None;
        case Response(status, body) =>
          if status >= 500 {
            return None;
          }
          if status >= 400 {
            return Some(TokenInfo(false, "", "", 0, map[]));
          }
          if status != 200 || body.None? {
            return None;
          }
          CachePut(token, body.value, answered, putAt);
          return body;
      }
    }
  }

  // ---------------------------------------------------------------- the trial over providers

  /** What asking one provider comes to. */
  datatype Answer = RateLimited | CallFailed | Decided(info: TokenInfo)

  datatype Trial = Accept(claims: Claims) | Retry | Refuse

  predicate AudienceContains(raw: map<string, Json>, want: string) {
    "aud" in raw && MatchClaimValue(raw["aud"], want)
  }

  predicate Wins(a: Answer, resource: string) {
    a.Decided? && a.info.active && (resource == "" || AudienceContains(a.info.raw, resource))
  }

  function UsableName(raw: map<string, Json>, claim: string): string {
    if claim in raw && raw[claim].Str? then raw[claim].s else ""
  }

  function NameFromClaims(raw: map<string, Json>): string {
    if UsableName(raw, "name") != "" then UsableName(raw, "name") else UsableName(raw, "preferred_username")
  }

  function ClaimsOf(info: TokenInfo): Claims {
    Claims(info.issuer, info.subject, NameFromClaims(info.raw), "", info.raw)
  }

  /** A string claim that is there and not empty. */
  predicate HasName(raw: map<string, Json>, claim: string, name: string) {
    claim in raw && raw[claim] == Str(name) && name != ""
  }

  /** The claims of an accepted answer: its issuer and subject, no email, and for a name
      the claim "name", or else "preferred_username", or else nothing. */
  ghost predicate ClaimsFit(claims: Claims, info: TokenInfo) {
    && claims.issuer == info.issuer && claims.subject == info.subject && claims.email == "" && claims.raw == info.raw
    && (forall n :: HasName(info.raw, "name", n) ==> claims.name == n)
    && ((forall n :: !HasName(info.raw, "name", n)) ==>
          && (forall n :: HasName(info.raw, "preferred_username", n) ==> claims.name == n)
          && ((forall n :: !HasName(info.raw, "preferred_username", n)) ==> claims.name == ""))
  }

  lemma ClaimsOfFit(info: TokenInfo)
    ensures ClaimsFit(ClaimsOf(info), info)
  {
    forall claim ensures UsableName(info.raw, claim) != "" <==> HasName(info.raw, claim, UsableName(info.raw, claim)) {
    }
  }

  /** An audience is one string, or a list that holds the resource. */
  lemma AudienceExact(raw: map<string, Json>, want: string)
    requires want != ""
    ensures AudienceContains(raw, want) <==>
            "aud" in raw && (raw["aud"] == Str(want) || (raw["aud"].Strings? && want in raw["aud"].elems))
  {
  }

  /** The first active answer for this resource wins, in configuration order, and
      nobody after it is asked. Without one the outcome is transient exactly when
      some provider failed or was rate-limited and none gave a decisive answer. */
  method ResolveIntrospection(answers: seq<Answer>, resource: string) returns (r: Trial, asked: nat)
    ensures asked <= |answers| && forall i :: 0 <= i < asked - 1 ==> !Wins(answers[i], resource)
    ensures r.Accept? <==> exists i :: 0 <= i < |answers| && Wins(answers[i], resource)
    ensures r.Accept? ==> asked > 0 && Wins(answers[asked - 1], resource) && ClaimsFit(r.claims, answers[asked - 1].info)
    ensures !r.Accept? ==> asked == |answers|
    ensures r.Retry? <==> answers != [] && forall i :: 0 <= i < |answers| ==> !answers[i].Decided?
  {
    var sawDecisive, anyErrored := false, false;
    for i := 0 to |answers|
      invariant sawDecisive <==> exists k :: 0 <= k < i && answers[k].Decided?
      invariant anyErrored <==> exists k :: 0 <= k < i && !answers[k].Decided?
      invariant forall k :: 0 <= k < i ==> !Wins(answers[k], resource)
    {
      match answers[i] {
        case RateLimited =>
          anyErrored := true;
        case CallFailed =>
          anyErrored := true;
        case Decided(info) =>
          sawDecisive := true;
          if info.active && !(resource != "" && !AudienceContains(info.raw, resource)) {
            assert Wins(answers[i], resource);
            ClaimsOfFit(info);
            return Accept(ClaimsOf(info)), i + 1;
          }
      }
    }
    asked := |answers|;
    assert answers != [] && !sawDecisive ==> !answers[0].Decided?;
    if !sawDecisive && anyErrored {
      r := Retry;
    } else {
      r := Refuse;
    }
  }
}
