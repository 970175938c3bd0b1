/** The identity tables as the callers' comments describe them, and resolution
    of API keys over them (internal/storage/users.go, internal/auth/identitystore.go). */
module Users {
  import opened Wrappers
  import opened Credentials

  type Id = string

  datatype User = User(id: Id, displayName: string, email: string, role: string, bootstrap: bool, deleted: bool)
  datatype Key = Key(id: Id, userId: Id, phcHash: string, roleDowngrade: string, revoked: bool, expiresAt: Option<int>)

  /** Users by id, keys by prefix (unique in storage), bindings by issuer and subject. */
  datatype Db = Db(users: map<Id, User>, keys: map<string, Key>, bindings: map<(string, string), Id>)

  const READER := "reader"
  const WRITER := "writer"
  const ADMIN := "admin"

  /** Position among the built-in roles; None for custom ones. */
  function Rank(role: string): Option<nat> {
    if role == READER then Some(1)
    else if role == WRITER then Some(2)
    else if role == ADMIN then Some(3)
    else None
  }

  predicate RoleLessThan(a: string, b: string) {
    Rank(a).Some? && Rank(b).Some? && Rank(a).value < Rank(b).value
  }

  function ClampedRole(owner: string, downgrade: string): string {
    if downgrade == "" then owner
    else if Rank(owner).None? || Rank(downgrade).None? then READER
    else if RoleLessThan(downgrade, owner) then downgrade
    else owner
  }

  /** A cap never escalates: of two built-ins the lower one results, without a cap the
      owner's role, and incomparable pairs fall to reader. */
  lemma ClampNeverEscalates(owner: string, downgrade: string)
    ensures var r := ClampedRole(owner, downgrade);
            && (Rank(owner).Some? ==> r == owner || RoleLessThan(r, owner))
            && (downgrade != "" ==> Rank(r).Some?)
            && (Rank(owner).Some? && Rank(downgrade).Some? ==>
                  (r == owner || r == downgrade) && (r == downgrade || RoleLessThan(r, downgrade)))
            && (downgrade == "" ==> r == owner)
            && (downgrade != "" && (Rank(owner).None? || Rank(downgrade).None?) ==> r == READER)
  {
  }

  predicate IsBootstrap(db: Db, id: Id) {
    id in db.users && db.users[id].bootstrap && !db.users[id].deleted
  }

  predicate KeyOf(db: Db, prefix: string, id: Id) {
    prefix in db.keys && db.keys[prefix].userId == id && !db.keys[prefix].revoked
  }

  /** ListAPIKeys for this user is not empty: revoked keys are left out, expired
      ones are not. */
  predicate HasKey(db: Db, id: Id) {
    exists prefix :: prefix in db.keys && KeyOf(db, prefix, id)
  }

  /** What the schema guarantees: the partial unique index on bootstrap rows, ids
      as keys, and keys of existing users. */
  ghost predicate Consistent(db: Db) {
    && (forall a, b :: IsBootstrap(db, a) && IsBootstrap(db, b) ==> a == b)
    && (forall id :: id in db.users ==> db.users[id].id == id)
    && (forall p :: p in db.keys ==> db.keys[p].userId in db.users)
  }

  predicate NoBootstrap(db: Db) {
    forall id :: id in db.users ==> !IsBootstrap(db, id)
  }

  function InsertUser(db: Db, user: User): Db {
    db.(users := db.users[user.id := user])
  }

  function InsertKey(db: Db, prefix: string, key: Key): Db {
    db.(keys := db.keys[prefix := key])
  }

  function UpdateRole(db: Db, id: Id, role: string): Db
    requires id in db.users
  {
    db.(users := db.users[id := db.users[id].(role := role)])
  }

  /** How the tables may change while nothing is deleted or revoked. */
  ghost predicate Evolves(d: Db, e: Db) {
    && (Consistent(d) ==> Consistent(e))
    && (forall p :: p in d.keys ==> p in e.keys && e.keys[p] == d.keys[p])
    && (forall id :: id in d.users ==>
          id in e.users && e.users[id].bootstrap == d.users[id].bootstrap && e.users[id].deleted == d.users[id].deleted)
  }

  lemma InsertUserEvolves(db: Db, user: User)
    requires user.id !in db.users && (user.bootstrap ==> NoBootstrap(db))
    ensures Evolves(db, InsertUser(db, user))
  {
    var e := InsertUser(db, user);
    assert forall id :: IsBootstrap(e, id) ==> id == user.id || IsBootstrap(db, id);
  }

  lemma InsertKeyEvolves(db: Db, prefix: string, key: Key)
    requires prefix !in db.keys && key.userId in db.users
    ensures Evolves(db, InsertKey(db, prefix, key))
  {
    assert forall id :: IsBootstrap(InsertKey(db, prefix, key), id) ==> IsBootstrap(db, id);
  }

  lemma UpdateRoleEvolves(db: Db, id: Id, role: string)
    requires id in db.users
    ensures Evolves(db, UpdateRole(db, id, role))
  {
    assert forall x :: IsBootstrap(UpdateRole(db, id, role), x) ==> IsBootstrap(db, x);
  }

  // ---------------------------------------------------------------- API-key resolution

  datatype Identity = Identity(
    userId: Id, subject: string, displayName: string, email: string,
    role: string, effectiveRole: string, source: string, issuer: string)

  datatype AuthError = Unauthenticated | Transient
  datatype Resolved = Authenticated(identity: Identity) | Denied(error: AuthError) | Panicked

  /** Which of the two look-ups fail with something other than not-found. */
  datatype LookupFaults = LookupFaults(key: bool, user: bool)

  function ResolveApiKey(kdf: Kdf, db: Db, now: int, faults: LookupFaults, token: string): Resolved {
    match ParseApiKey(token)
    case None => Denied(Unauthenticated)
    case Some((prefix, secret)) =>
      if faults.key then Denied(Transient)
      else if prefix !in db.keys then Denied(Unauthenticated)
      else
        var key := db.keys[prefix];
        match VerifySecret(kdf, key.phcHash, secret)
        case Panics => Panicked
        case Rejected => Denied(Unauthenticated)
        case Accepted =>
          if key.revoked || (key.expiresAt.Some? && key.expiresAt.value <= now) then Denied(Unauthenticated)
          else if faults.user then Denied(Transient)
          else if key.userId !in db.users || db.users[key.userId].deleted then Denied(Unauthenticated)
          else
            var user := db.users[key.userId];
            Authenticated(Identity(user.id, "apikey:" + key.id, user.displayName, user.email,
                                   user.role, ClampedRole(user.role, key.roleDowngrade), "apikey", ""))
  }

  /** a is the lower one of two built-in roles. */
  predicate Below(a: string, b: string) {
    (a == "reader" && b in {"writer", "admin"}) || (a == "writer" && b == "admin")
  }

  predicate BuiltIn(role: string) {
    role in {"reader", "writer", "admin"}
  }

  /** The effective role of a key with this cap, of an owner with this role. */
  predicate Effective(owner: string, cap: string, role: string) {
    if cap == "" then role == owner
    else if BuiltIn(owner) && BuiltIn(cap) then role == if Below(cap, owner) then cap else owner
    else role == "reader"
  }

  predicate Expired(key: Key, now: int) {
    key.expiresAt.Some? && key.expiresAt.value <= now
  }

  /** The answer for a well-formed token: which fault or state of the tables decides, and
      whom an authenticated token stands for. */
  ghost predicate Resolution(kdf: Kdf, db: Db, now: int, faults: LookupFaults, prefix: string, secret: string, answer: Resolved) {
    if faults.key then answer == Denied(Transient)
    else if prefix !in db.keys then answer == Denied(Unauthenticated)
    else
      var key := db.keys[prefix];
      var verdict := VerifySecret(kdf, key.phcHash, secret);
      if verdict == Panics then answer == Panicked
      else if verdict == Rejected || key.revoked || Expired(key, now) then answer == Denied(Unauthenticated)
      else if faults.user then answer == Denied(Transient)
      else if key.userId !in db.users || db.users[key.userId].deleted then answer == Denied(Unauthenticated)
      else
        var owner := db.users[key.userId];
        && answer.Authenticated?
        && answer.identity.userId == owner.id && answer.identity.displayName == owner.displayName
        && answer.identity.email == owner.email && answer.identity.role == owner.role
        && Effective(owner.role, key.roleDowngrade, answer.identity.effectiveRole)
        && answer.identity.subject == "apikey:" + key.id && answer.identity.source == "apikey" && answer.identity.issuer == ""
  }

  lemma ClampIsEffective(owner: string, cap: string)
    ensures Effective(owner, cap, ClampedRole(owner, cap))
  {
  }

  /** Without faults a token authenticates exactly when its prefix names a live key of a
      live user and the secret verifies. With or without faults the answer to a
      well-formed token is the one that its key and owner call for, and any other
      token is refused. */
  lemma ResolveExact(kdf: Kdf, db: Db, now: int, token: string, faults: LookupFaults)
    requires Consistent(db)
    ensures ResolveApiKey(kdf, db, now, LookupFaults(false, false), token).Authenticated? <==>
            exists prefix, secret ::
              && WellFormedParts(prefix, secret) && token == FormatToken(prefix, secret) && prefix in db.keys
              && var key := db.keys[prefix];
                 && VerifySecret(kdf, key.phcHash, secret) == Accepted && !key.revoked
                 && (key.expiresAt.Some? ==> now < key.expiresAt.value)
                 && !db.users[key.userId].deleted
    ensures forall prefix, secret :: WellFormedParts(prefix, secret) && token == FormatToken(prefix, secret) ==>
              Resolution(kdf, db, now, faults, prefix, secret, ResolveApiKey(kdf, db, now, faults, token))
    ensures (forall prefix, secret :: WellFormedParts(prefix, secret) ==> token != FormatToken(prefix, secret)) ==>
              ResolveApiKey(kdf, db, now, faults, token) == Denied(Unauthenticated)
  {
    if ParseApiKey(token).Some? {
      FormatParsed(token);
    }
    forall prefix, secret | WellFormedParts(prefix, secret) && token == FormatToken(prefix, secret)
      ensures ParseApiKey(token) == Some((prefix, secret))
      ensures Resolution(kdf, db, now, faults, prefix, secret, ResolveApiKey(kdf, db, now, faults, token))
    {
      ParseFormatted(prefix, secret);
      ResolutionOf(kdf, db, now, faults, prefix, secret);
    }
  }

  lemma ResolutionOf(kdf: Kdf, db: Db, now: int, faults: LookupFaults, prefix: string, secret: string)
    requires ParseApiKey(FormatToken(prefix, secret)) == Some((prefix, secret))
    ensures Resolution(kdf, db, now, faults, prefix, secret, ResolveApiKey(kdf, db, now, faults, FormatToken(prefix, secret)))
  {
    if prefix in db.keys && db.keys[prefix].userId in db.users {
      ClampIsEffective(db.users[db.keys[prefix].userId].role, db.keys[prefix].roleDowngrade);
    }
  }

  /** The order of the built-in roles, which promotions and caps go by. */
  lemma RoleOrder(a: string, b: string)
    ensures RoleLessThan(a, b) <==> Below(a, b)
    ensures Rank(a).Some? <==> BuiltIn(a)
  {
  }
}
