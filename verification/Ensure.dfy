/** bootstrap.Ensure as the method it is: a sequence of backend calls between
    which other writers may change the tables in any way that deletes and revokes
    nothing. */
module Ensure {
  import opened Wrappers
  import opened Base64
  import opened Credentials
  import opened Users
  import opened Bootstrap

  const MAX_PREFIX_RETRIES := 3

  /** What happens to one backend call: an error before or after its effect. */
  datatype Fault = Works | Fails | LosesReply

  datatype Lookup = Found(user: User) | NotFound | LookupError
  datatype CreateReply = CreatedUser(id: Id) | BootstrapExists | CreateError

  /** Everything random or external in one Ensure call. */
  datatype World = World(
    check: Fault, create: Fault, reread: Fault, list: Fault, mint: Fault,
    id: Id, random: Option<seq<Byte>>, salt: Option<seq<Byte>>, prefixes: seq<string>, keyId: Id)

  ghost predicate ProperWorld(w: World) {
    && (w.random.Some? ==> |w.random.value| == RANDOM_LEN)
    && (w.salt.Some? ==> |w.salt.value| == MINT_SALT_LEN)
    && |w.prefixes| == MAX_PREFIX_RETRIES
    && forall p :: p in w.prefixes ==> |p| == PREFIX_LEN && !Text.Contains(p, '_')
  }

  /** No call fails and randomness is available. */
  ghost predicate AllWork(w: World) {
    && w.check == w.create == w.reread == w.list == w.mint == Works
    && w.random.Some? && w.salt.Some?
  }

  /** The store with one caller's view of the protocol: every backend call of that caller
      is recorded as a step of the machine in module Bootstrap. */
  class AuthStore {
    const kdf: Kdf
    var db: Db
    ghost const start: State
    ghost var actions: List<Action>  // since start, the latest first
    ghost var state: State

    /** The recorded steps are a run, and the tables are those of its end. */
    ghost predicate Recorded()
      reads this
    {
      Mints(kdf) && After(kdf, start, actions) == Some(state) && Inv(kdf, state)
    }

    ghost predicate Valid()
      reads this
    {
      Recorded() && state.db == db
    }

    /** c stands at this point of the protocol. */
    ghost predicate At(c: Caller, pc: Pc)
      reads this
    {
      c in state.callers && state.callers[c] == pc
    }

    constructor (kdf: Kdf, db: Db)
      requires Mints(kdf) && Consistent(db)
      ensures Valid() && this.kdf == kdf && this.db == db && state == Start(db)
    {
      this.kdf, this.db, actions := kdf, db, Nil;
      start, state := Start(db), Start(db);
    }

    /** Takes one step of the protocol; the caller then brings the tables along. */
    ghost method Record(a: Action)
      requires Recorded() && Enabled(kdf, state, a)
      modifies `actions, `state
      ensures Recorded() && state == Apply(kdf, old(state), a) && actions == Cons(a, old(actions))
      ensures Evolves(old(state).db, state.db)
    {
      StepKeeps(kdf, state, a);
      StepEvolves(kdf, state, a);
      state, actions := Apply(kdf, state, a), Cons(a, actions);
    }

    /** The backend call that c is about to make fails without an effect. */
    ghost method Fail(c: Caller)
      requires Valid() && Enabled(kdf, state, CallFails(c))
      modifies `actions, `state
      ensures Valid() && At(c, Failed) && Elements(old(actions)) <= Elements(actions)
    {
      Record(CallFails(c));
    }

    /** Other callers and writers run here, in any number of steps: the store may come
        back changed in every way that leaves this caller where it is. */
    method Others(ghost c: Caller)
      requires Valid()
      modifies this
      ensures Valid() && Evolves(old(db), db) && Elements(old(actions)) <= Elements(actions)
      ensures c in state.callers <==> c in old(state).callers
      ensures c in state.callers ==> state.callers[c] == old(state).callers[c]
    {
    }

    method GetBootstrap(ghost c: Caller, fault: Fault) returns (r: Lookup)
      requires Valid() && c in state.callers && (state.callers[c].Checking? || state.callers[c].Rereading?)
      modifies this
      ensures Valid() && Evolves(old(db), db) && Elements(old(actions)) <= Elements(actions)
      ensures r.Found? ==> IsBootstrap(db, r.user.id) && At(c, Listing(r.user.id))
      ensures r.NotFound? ==> NoBootstrap(db)
      ensures r.NotFound? && old(state).callers[c].Checking? ==> At(c, Creating(old(state).callers[c].role))
      ensures r.NotFound? && old(state).callers[c].Rereading? ==> At(c, Failed)
      ensures r.LookupError? <==> fault != Works
      ensures r.LookupError? ==> At(c, Failed)
    {
      Others(c);
      if fault != Works {
        Fail(c);
        return LookupError;
      }
      if NoBootstrap(db) {
        Record(FindNone(c));
        return NotFound;
      }
      var id :| id in db.users && IsBootstrap(db, id);
      Record(FindBootstrap(c, id));
      r := Found(db.users[id]);
    }

    /** One insert; the unique index turns a second bootstrap row into an error. */
    method CreateHuman(ghost c: Caller, role: string, id: Id, fault: Fault) returns (r: CreateReply)
      requires Valid() && At(c, Creating(role))
      modifies this
      ensures Valid() && Evolves(old(db), db) && Elements(old(actions)) <= Elements(actions)
      ensures r.CreatedUser? ==>
                r.id == id && At(c, Minting(id)) && id in db.users && db.users[id] == User(id, "admin", "", role, true, false)
      ensures r.BootstrapExists? ==> !NoBootstrap(db) && At(c, Rereading)
      ensures r.CreateError? ==> At(c, Failed)
      ensures r.CreateError? && fault == Works ==> id in db.users && !IsBootstrap(db, id)
    {
      Others(c);
      if fault == Fails {
        Fail(c);
        return CreateError;
      }
      if !NoBootstrap(db) {
        Record(CreateConflicts(c));
        return BootstrapExists;
      }
      if id in db.users {
        Fail(c);
        return CreateError;
      }
      Record(CreateUser(c, id, fault == Works));
      db := db.(users := db.users[id := User(id, "admin", "", role, true, false)]);
      r := if fault == LosesReply then CreateError else CreatedUser(id);
    }

    /** Whether the user has a key that is not revoked. */
    method ListAPIKeys(ghost c: Caller, id: Id, fault: Fault) returns (r: Option<bool>)
      requires Valid() && At(c, Listing(id))
      modifies this
      ensures Valid() && Evolves(old(db), db) && Elements(old(actions)) <= Elements(actions)
      ensures r.Some? ==> (r.value <==> HasKey(db, id))
      ensures r == Some(true) ==> At(c, Returning(Result(false, "", id)))
      ensures r == Some(false) ==> At(c, Minting(id))
      ensures r.None? <==> fault != Works
      ensures r.None? ==> At(c, Failed)
    {
      Others(c);
      if fault != Works {
        Fail(c);
        return None;
      }
      Record(ListKeys(c));
      r := Some(HasKey(db, id));
    }

    /** Every generated prefix collides with a stored key. */
    predicate PrefixesTaken(prefixes: seq<string>)
      reads this
    {
      forall p :: p in prefixes ==> p in db.keys
    }

    /** The attempts at a prefix: the first that violates no unique index. */
    method FirstFree(prefixes: seq<string>) returns (r: Option<string>)
      requires |prefixes| == MAX_PREFIX_RETRIES
      ensures r.None? <==> PrefixesTaken(prefixes)
      ensures r.Some? ==> exists k :: 0 <= k < |prefixes| && prefixes[k] == r.value && r.value !in db.keys
                                      && forall j :: 0 <= j < k ==> prefixes[j] in db.keys
    {
      for attempt := 0 to MAX_PREFIX_RETRIES
        invariant forall k :: 0 <= k < attempt ==> prefixes[k] in db.keys
      {
        if prefixes[attempt] !in db.keys {
          return Some(prefixes[attempt]);
        }
      }
      r := None;
    }

    /** The insert of a key under a free prefix. */
    method InsertAPIKey(ghost c: Caller, id: Id, phc: string, prefix: string, keyId: Id, ghost answered: bool,
                        ghost random: seq<Byte>, ghost salt: seq<Byte>, ghost secret: string)
      requires Valid() && At(c, Minting(id)) && FreshPrefix(db, prefix) && id in db.users && !db.users[id].deleted
      requires |random| == RANDOM_LEN && GenerateApiKeySecret(kdf, random, salt) == Some((secret, phc))
      modifies this
      ensures Valid() && Evolves(old(db), db) && Elements(old(actions)) <= Elements(actions)
      ensures db == InsertKey(old(db), prefix, Key(keyId, id, phc, "", false, None))
      ensures if answered then At(c, Returning(Result(true, FormatToken(prefix, secret), id))) else At(c, Failed)
    {
      Record(MintKey(c, random, salt, prefix, keyId, answered));
      db := InsertKey(db, prefix, Key(keyId, id, phc, "", false, None));
    }

    /** Inserts a key under the first generated prefix that is free. */
    method CreateAPIKey(ghost c: Caller, id: Id, phc: string, prefixes: seq<string>, keyId: Id, fault: Fault,
                        ghost random: seq<Byte>, ghost salt: seq<Byte>, ghost secret: string)
      returns (r: Option<string>)
      requires Valid() && At(c, Minting(id)) && |prefixes| == MAX_PREFIX_RETRIES
      requires forall p :: p in prefixes ==> |p| == PREFIX_LEN && !Text.Contains(p, '_')
      requires |random| == RANDOM_LEN && GenerateApiKeySecret(kdf, random, salt) == Some((secret, phc))
      modifies this
      ensures Valid() && Evolves(old(db), db) && Elements(old(actions)) <= Elements(actions)
      ensures r.Some? ==> r.value in prefixes && r.value in db.keys && r.value !in old(db).keys
                          && db.keys[r.value] == Key(keyId, id, phc, "", false, None)
      ensures r.Some? ==> At(c, Returning(Result(true, FormatToken(r.value, secret), id)))
      ensures r.None? ==> At(c, Failed)
      ensures r.None? && fault == Works && IsBootstrap(old(db), id) ==> PrefixesTaken(prefixes)
    {
      Others(c);
      var prefix := FirstFree(prefixes);
      if fault == Fails || id !in db.users || db.users[id].deleted || prefix.None? {
        Fail(c);
        return None;
      }
      InsertAPIKey(c, id, phc, prefix.value, keyId, fault == Works, random, salt, secret);
      r := if fault == LosesReply then None else prefix;
    }

    method MintBootstrapKey(ghost c: Caller, id: Id, w: World) returns (token: Option<string>)
      requires Valid() && At(c, Minting(id)) && ProperWorld(w)
      modifies this
      ensures Valid() && Evolves(old(db), db) && Elements(old(actions)) <= Elements(actions)
      ensures token.None? ==> At(c, Failed)
      ensures token.None? && AllWork(w) && IsBootstrap(old(db), id) ==> PrefixesTaken(w.prefixes)
      ensures token.Some? ==> At(c, Returning(Result(true, token.value, id)))
      ensures token.Some? ==> exists prefix ::
                prefix in db.keys && prefix !in old(db).keys && Opens(kdf, db, prefix, Result(true, token.value, id))
    {
      var minted := MintApiKeySecret(kdf, w.random, w.salt);
      if minted.RandomFailed? {
        Fail(c);
        return None;
      }
      var Minted(secret, phc) := minted;
      var prefix := CreateAPIKey(c, id, phc, w.prefixes, w.keyId, w.mint, w.random.value, w.salt.value, secret);
      if prefix.None? {
        return None;
      }
      assert WellFormedParts(prefix.value, secret);
      assert Opens(kdf, db, prefix.value, Result(true, FormatToken(prefix.value, secret), id));
      token := Some(FormatToken(prefix.value, secret));
    }

    /** What a successful call leaves behind. */
    ghost predicate Achieved(before: Db, r: Result)
      reads this
    {
      && IsBootstrap(db, r.userId) && HasKey(db, r.userId)
      && if r.created
         then exists prefix :: prefix in db.keys && prefix !in before.keys && Opens(kdf, db, prefix, r)
         else r.token == ""
    }

    /** Where the protocol stands when the call ends. */
    ghost predicate Ended(c: Caller, r: Option<Result>)
      reads this
    {
      match r
      case None => At(c, Failed)
      case Some(result) => At(c, Returning(result))
    }

    method RecoverIfKeyless(ghost c: Caller, id: Id, w: World) returns (r: Option<Result>)
      requires Valid() && At(c, Listing(id)) && ProperWorld(w) && IsBootstrap(db, id)
      modifies this
      ensures Valid() && Evolves(old(db), db) && Elements(old(actions)) <= Elements(actions) && Ended(c, r)
      ensures r.Some? ==> Achieved(old(db), r.value) && r.value.userId == id
      ensures r.None? && AllWork(w) ==> PrefixesTaken(w.prefixes)
    {
      var listed := ListAPIKeys(c, id, w.list);
      if listed.None? {
        return None;
      }
      if listed.value {
        return Some(Result(false, "", id));
      }
      r := Mint(c, id, w);
    }

    method Mint(ghost c: Caller, id: Id, w: World) returns (r: Option<Result>)
      requires Valid() && At(c, Minting(id)) && ProperWorld(w) && IsBootstrap(db, id)
      modifies this
      ensures Valid() && Evolves(old(db), db) && Elements(old(actions)) <= Elements(actions) && Ended(c, r)
      ensures r.Some? ==> Achieved(old(db), r.value) && r.value.userId == id && r.value.created
      ensures r.None? && AllWork(w) ==> PrefixesTaken(w.prefixes)
    {
      var token := MintBootstrapKey(c, id, w);
      if token.None? {
        return None;
      }
      r := Some(Result(true, token.value, id));
    }

    /** The calls of Ensure for a caller that has arrived. */
    method FindOrCreate(ghost c: Caller, role: string, w: World) returns (r: Option<Result>)
      requires Valid() && At(c, Checking(role)) && ProperWorld(w)
      modifies this
      ensures Valid() && Evolves(old(db), db) && Elements(old(actions)) <= Elements(actions)
      ensures Ended(c, r)
      ensures r.Some? ==> Achieved(old(db), r.value)
      ensures r.None? && AllWork(w) ==> (w.id in db.users && !IsBootstrap(db, w.id)) || PrefixesTaken(w.prefixes)
    {
      var existing := GetBootstrap(c, w.check);
      match existing {
      case Found(user) =>
        r := RecoverIfKeyless(c, user.id, w);
      case LookupError =>
        return None;
      case NotFound =>
        var created := CreateHuman(c, role, w.id, w.create);
        match created
        case CreateError =>
          return None;
        case BootstrapExists =>
          var winner := GetBootstrap(c, w.reread);
          if !winner.Found? {
            return None;
          }
          r := RecoverIfKeyless(c, winner.user.id, w);
        case CreatedUser(id) =>
          r := Mint(c, id, w);
      }
    }

    /** However the others interfere and whichever calls fail: the calls made are those of
        the protocol for a caller that arrived with this role, so that all its theorems
        apply. Success means one bootstrap user, found or created, with a key; a token is
        returned exactly for a key of this call, and it resolves to that user. Without
        failures only a collision of the generated id or of all generated prefixes
        prevents success. */
    method Ensure(ghost c: Caller, role: string, w: World) returns (r: Option<Result>)
      requires Valid() && c !in state.callers && ProperWorld(w)
      modifies this
      ensures Valid() && Evolves(old(db), db)
      ensures Elements(old(actions)) + {Arrive(c, role)} <= Elements(actions)
      ensures if r.Some? then At(c, Finished(r.value)) else At(c, Failed)
      ensures r.Some? ==> Achieved(old(db), r.value)
      ensures r.None? && AllWork(w) ==> (w.id in db.users && !IsBootstrap(db, w.id)) || PrefixesTaken(w.prefixes)
      ensures r.Some? && r.value.created ==> forall now :: ResolvesToOwner(kdf, db, now, r.value)
    {
      Record(Arrive(c, role));
      var wanted := role;
      if wanted == "" {
        wanted := "admin";
      }
      r := FindOrCreate(c, wanted, w);
      if r.Some? {
        Record(Return(c));
        if r.value.created {
          Resolves(r.value);
        }
      }
    }

    lemma Resolves(r: Result)
      requires Consistent(db) && IsBootstrap(db, r.userId)
      requires exists prefix :: prefix in db.keys && Opens(kdf, db, prefix, r)
      ensures forall now :: ResolvesToOwner(kdf, db, now, r)
    {
      var prefix :| prefix in db.keys && Opens(kdf, db, prefix, r);
      forall now ensures ResolvesToOwner(kdf, db, now, r) {
        OpensResolves(kdf, db, prefix, now, r);
      }
    }
  }
}
