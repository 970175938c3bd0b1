/** bootstrap.Ensure (internal/bootstrap/bootstrap.go) as a protocol: any number
    of callers, interleaved call by call, each of which may fail or crash between
    two calls, next to other writers of the same tables. */
module Bootstrap {
  import opened Wrappers
  import opened Base64
  import opened Credentials
  import opened Users

  type Caller = nat

  datatype Result = Result(created: bool, token: string, userId: Id)

  /** Where a caller is: about to make the named backend call, or past the last. */
  datatype Pc =
    | Checking(role: string)
    | Creating(role: string)
    | Rereading
    | Listing(userId: Id)
    | Minting(userId: Id)
    | Returning(result: Result)
    | Finished(result: Result)
    | Failed
    | Crashed

  /** issued remembers the prefix of the key each caller created. */
  datatype State = State(db: Db, callers: map<Caller, Pc>, issued: map<Caller, string>)

  datatype Action =
    | Arrive(c: Caller, role: string)
    | FindBootstrap(c: Caller, id: Id)
    | FindNone(c: Caller)
    | CreateUser(c: Caller, id: Id, answered: bool)
    | CreateConflicts(c: Caller)
    | ListKeys(c: Caller)
    | MintKey(c: Caller, random: seq<Byte>, salt: seq<Byte>, prefix: string, keyId: Id, answered: bool)
    | Return(c: Caller)
    | CallFails(c: Caller)
    | Crash(c: Caller)
    | OtherUser(user: User)
    | OtherKey(prefix: string, key: Key)
    | SetRole(id: Id, role: string)

  const RANDOM_LEN := 16

  function RoleOrDefault(role: string): string {
    if role == "" then ADMIN else role
  }

  function BootstrapUser(id: Id, role: string): User {
    User(id, "admin", "", role, true, false)
  }

  predicate FreshPrefix(db: Db, prefix: string) {
    prefix !in db.keys && |prefix| == PREFIX_LEN && !Text.Contains(prefix, '_')
  }

  /** When a step can happen. answered tells whether the reply of a committed
      write reached the caller. */
  predicate Enabled(kdf: Kdf, s: State, a: Action) {
    match a
    case Arrive(c, _) => c !in s.callers
    case FindBootstrap(c, id) =>
      c in s.callers && (s.callers[c].Checking? || s.callers[c].Rereading?) && IsBootstrap(s.db, id)
    case FindNone(c) =>
      && c in s.callers && (s.callers[c].Checking? || s.callers[c].Rereading?)
      && NoBootstrap(s.db)
    case CreateUser(c, id, _) =>
      && c in s.callers && s.callers[c].Creating? && id !in s.db.users
      && NoBootstrap(s.db)
    case CreateConflicts(c) =>
      && c in s.callers && s.callers[c].Creating?
      && !NoBootstrap(s.db)
    case ListKeys(c) => c in s.callers && s.callers[c].Listing?
    case MintKey(c, random, salt, prefix, _, _) =>
      && c in s.callers && s.callers[c].Minting? && FreshPrefix(s.db, prefix)
      && |random| == RANDOM_LEN && GenerateApiKeySecret(kdf, random, salt).Some?
      && s.callers[c].userId in s.db.users && !s.db.users[s.callers[c].userId].deleted
    case Return(c) => c in s.callers && s.callers[c].Returning?
    case CallFails(c) =>
      && c in s.callers
      && (s.callers[c].Checking? || s.callers[c].Creating? || s.callers[c].Rereading?
          || s.callers[c].Listing? || s.callers[c].Minting?)
    case Crash(c) => c in s.callers && !s.callers[c].Finished? && !s.callers[c].Failed?
    case OtherUser(user) => user.id !in s.db.users && !user.bootstrap
    case OtherKey(prefix, key) => prefix !in s.db.keys && key.userId in s.db.users
    case SetRole(id, _) => id in s.db.users
  }

  function Goto(s: State, c: Caller, pc: Pc): State {
    s.(callers := s.callers[c := pc])
  }

  function Apply(kdf: Kdf, s: State, a: Action): State
    requires Enabled(kdf, s, a)
  {
    match a
    case Arrive(c, role) => Goto(s, c, Checking(RoleOrDefault(role)))
    case FindBootstrap(c, id) => Goto(s, c, Listing(id))
    case FindNone(c) => Goto(s, c, if s.callers[c].Checking? then Creating(s.callers[c].role) else Failed)
    case CreateUser(c, id, answered) =>
      var role := s.callers[c].role;
      Goto(s.(db := InsertUser(s.db, BootstrapUser(id, role))), c,
           if answered then Minting(id) else Failed)
    case CreateConflicts(c) => Goto(s, c, Rereading)
    case ListKeys(c) =>
      var id := s.callers[c].userId;
      Goto(s, c, if HasKey(s.db, id) then Returning(Result(false, "", id)) else Minting(id))
    case MintKey(c, random, salt, prefix, keyId, answered) =>
      var id := s.callers[c].userId;
      var (secret, phc) := GenerateApiKeySecret(kdf, random, salt).value;
      Goto(s.(db := InsertKey(s.db, prefix, Key(keyId, id, phc, "", false, None)),
              issued := s.issued[c := prefix]),
           c, if answered then Returning(Result(true, FormatToken(prefix, secret), id)) else Failed)
    case Return(c) => Goto(s, c, Finished(s.callers[c].result))
    case CallFails(c) => Goto(s, c, Failed)
    case Crash(c) => Goto(s, c, Crashed)
    case OtherUser(user) => s.(db := InsertUser(s.db, user))
    case OtherKey(prefix, key) => s.(db := InsertKey(s.db, prefix, key))
    case SetRole(id, role) => s.(db := UpdateRole(s.db, id, role))
  }

  // ---------------------------------------------------------------- invariant

  /** The token of r opens the key stored under prefix, without cap or expiry. */
  ghost predicate Opens(kdf: Kdf, db: Db, prefix: string, r: Result) {
    && KeyOf(db, prefix, r.userId)
    && db.keys[prefix].roleDowngrade == "" && db.keys[prefix].expiresAt.None?
    && exists secret ::
         && WellFormedParts(prefix, secret) && r.token == FormatToken(prefix, secret)
         && VerifySecret(kdf, db.keys[prefix].phcHash, secret) == Accepted
  }

  ghost predicate ResultHolds(kdf: Kdf, s: State, c: Caller, r: Result) {
    && IsBootstrap(s.db, r.userId) && HasKey(s.db, r.userId)
    && if r.created then c in s.issued && Opens(kdf, s.db, s.issued[c], r)
       else c !in s.issued && r.token == ""
  }

  ghost predicate CallerHolds(kdf: Kdf, s: State, c: Caller)
    requires c in s.callers
  {
    match s.callers[c]
    case Listing(id) => IsBootstrap(s.db, id) && c !in s.issued
    case Minting(id) => IsBootstrap(s.db, id) && c !in s.issued
    case Returning(r) => ResultHolds(kdf, s, c, r)
    case Finished(r) => ResultHolds(kdf, s, c, r)
    case Failed => true
    case Crashed => true
    case _ => c !in s.issued
  }

  /** Keys are issued to one caller each. */
  ghost predicate IssuedApart(s: State) {
    && (forall c :: c in s.issued ==> c in s.callers && s.issued[c] in s.db.keys)
    && (forall c, d :: c in s.issued && d in s.issued && s.issued[c] == s.issued[d] ==> c == d)
  }

  ghost predicate Inv(kdf: Kdf, s: State) {
    && Consistent(s.db) && IssuedApart(s)
    && forall c :: c in s.callers ==> CallerHolds(kdf, s, c)
  }

  /** Only the acting caller moves. */
  predicate Acts(a: Action, c: Caller) {
    match a
    case OtherUser(_) => false
    case OtherKey(_, _) => false
    case SetRole(_, _) => false
    case _ => a.c == c
  }

  lemma StepEvolves(kdf: Kdf, s: State, a: Action)
    requires Consistent(s.db) && Enabled(kdf, s, a)
    ensures Evolves(s.db, Apply(kdf, s, a).db)
  {
    match a
    case CreateUser(c, id, _) =>
      InsertUserEvolves(s.db, BootstrapUser(id, s.callers[c].role));
    case OtherUser(user) =>
      InsertUserEvolves(s.db, user);
    case MintKey(c, random, salt, prefix, keyId, _) =>
      InsertKeyEvolves(s.db, prefix, Apply(kdf, s, a).db.keys[prefix]);
    case OtherKey(prefix, key) =>
      InsertKeyEvolves(s.db, prefix, key);
    case SetRole(id, role) =>
      UpdateRoleEvolves(s.db, id, role);
    case _ =>
  }

  lemma HasKeyStable(d: Db, e: Db, id: Id)
    requires Evolves(d, e) && HasKey(d, id)
    ensures HasKey(e, id)
  {
    var p :| p in d.keys && KeyOf(d, p, id);
    assert p in e.keys && KeyOf(e, p, id);
  }

  /** What a caller relies on survives the steps of all others. */
  lemma OthersKeep(kdf: Kdf, s: State, a: Action, c: Caller)
    requires Inv(kdf, s) && Enabled(kdf, s, a) && c in s.callers && !Acts(a, c)
    ensures var t := Apply(kdf, s, a); c in t.callers && CallerHolds(kdf, t, c)
  {
    StepEvolves(kdf, s, a);
    var t := Apply(kdf, s, a);
    assert t.callers[c] == s.callers[c];
    if s.callers[c].Returning? || s.callers[c].Finished? {
      HasKeyStable(s.db, t.db, s.callers[c].result.userId);
    }
  }

  lemma ActorKeeps(kdf: Kdf, s: State, a: Action, c: Caller)
    requires Mints(kdf) && Inv(kdf, s) && Enabled(kdf, s, a) && Acts(a, c)
    ensures var t := Apply(kdf, s, a); c in t.callers && CallerHolds(kdf, t, c)
  {
    if a.MintKey? {
      MintedOpens(kdf, s, a);
    } else if !a.Arrive? {
      assert CallerHolds(kdf, s, c);
    }
  }

  /** The key a caller creates is opened by the token it is about to return. */
  lemma MintedOpens(kdf: Kdf, s: State, a: Action)
    requires Mints(kdf) && Inv(kdf, s) && Enabled(kdf, s, a) && a.MintKey?
    ensures CallerHolds(kdf, Apply(kdf, s, a), a.c)
  {
    var t := Apply(kdf, s, a);
    assert CallerHolds(kdf, s, a.c);
    var id := s.callers[a.c].userId;
    var (secret, phc) := GenerateApiKeySecret(kdf, a.random, a.salt).value;
    MintedSecretVerifies(kdf, a.random, a.salt, secret);
    HexShape(a.random);
    assert KeyOf(t.db, a.prefix, id);
    assert WellFormedParts(a.prefix, secret);
  }

  lemma StepKeeps(kdf: Kdf, s: State, a: Action)
    requires Mints(kdf) && Inv(kdf, s) && Enabled(kdf, s, a)
    ensures Inv(kdf, Apply(kdf, s, a))
  {
    var t := Apply(kdf, s, a);
    StepEvolves(kdf, s, a);
    forall c | c in t.callers ensures CallerHolds(kdf, t, c) {
      if Acts(a, c) {
        ActorKeeps(kdf, s, a, c);
      } else {
        OthersKeep(kdf, s, a, c);
      }
    }
    IssuedStaysApart(kdf, s, a);
  }

  lemma IssuedStaysApart(kdf: Kdf, s: State, a: Action)
    requires Inv(kdf, s) && Enabled(kdf, s, a)
    ensures IssuedApart(Apply(kdf, s, a))
  {
    if a.MintKey? {
      assert CallerHolds(kdf, s, a.c);
    } else {
      assert Apply(kdf, s, a).issued == s.issued;
    }
  }

  // ---------------------------------------------------------------- every run

  /** The state after some actions, the latest first; None when one of them could
      not happen. */
  ghost function After(kdf: Kdf, start: State, actions: List<Action>): Option<State> {
    match actions
    case Nil => Some(start)
    case Cons(a, before) =>
      match After(kdf, start, before)
      case None => None
      case Some(s) => if Enabled(kdf, s, a) then Some(Apply(kdf, s, a)) else None
  }

  function Start(db: Db): State {
    State(db, map[], map[])
  }

  lemma {:induction false} RunKeeps(kdf: Kdf, start: State, actions: List<Action>)
    requires Mints(kdf) && Inv(kdf, start) && After(kdf, start, actions).Some?
    ensures Inv(kdf, After(kdf, start, actions).value)
    ensures Evolves(start.db, After(kdf, start, actions).value.db)
  {
    if actions.Cons? {
      RunKeeps(kdf, start, actions.tail);
      var s := After(kdf, start, actions.tail).value;
      StepKeeps(kdf, s, actions.head);
      StepEvolves(kdf, s, actions.head);
    }
  }

  ghost predicate Returned(s: State, c: Caller, r: Result) {
    c in s.callers && s.callers[c] == Finished(r)
  }

  /** In every interleaving with failures and crashes there is at most one
      bootstrap user; all callers that return agree on it and leave it with a
      key; a no-op result means a key that someone else made; and two returned
      tokens are different and open different stored keys. */
  lemma CallersConverge(kdf: Kdf, db: Db, actions: List<Action>, s: State)
    requires Mints(kdf) && Consistent(db) && After(kdf, Start(db), actions) == Some(s)
    ensures forall a, b :: IsBootstrap(s.db, a) && IsBootstrap(s.db, b) ==> a == b
    ensures forall c, r :: Returned(s, c, r) ==> IsBootstrap(s.db, r.userId) && HasKey(s.db, r.userId)
    ensures forall c, r, d, q :: Returned(s, c, r) && Returned(s, d, q) ==> r.userId == q.userId
    ensures forall c, r :: Returned(s, c, r) ==> (r.created <==> c in s.issued) && (!r.created ==> r.token == "")
    ensures forall c, r :: Returned(s, c, r) && r.created ==>
              s.issued[c] !in db.keys && Opens(kdf, s.db, s.issued[c], r)
    ensures forall c, r, d, q :: Returned(s, c, r) && Returned(s, d, q) && r.created && q.created && c != d ==>
              r.token != q.token && s.issued[c] != s.issued[d]
  {
    RunKeeps(kdf, Start(db), actions);
    IssuedAreNew(kdf, db, actions, s);
    forall c, r | Returned(s, c, r) ensures ResultHolds(kdf, s, c, r) {
      assert CallerHolds(kdf, s, c);
    }
    forall c, r, d, q | Returned(s, c, r) && Returned(s, d, q) && r.created && q.created && c != d
      ensures r.token != q.token
    {
      OpensParses(kdf, s.db, s.issued[c], r);
      OpensParses(kdf, s.db, s.issued[d], q);
    }
  }

  lemma OpensParses(kdf: Kdf, db: Db, prefix: string, r: Result)
    requires Opens(kdf, db, prefix, r)
    ensures ParseApiKey(r.token).Some? && ParseApiKey(r.token).value.0 == prefix
    ensures VerifySecret(kdf, db.keys[prefix].phcHash, ParseApiKey(r.token).value.1) == Accepted
  {
    var secret :| WellFormedParts(prefix, secret) && r.token == FormatToken(prefix, secret) &&
                  VerifySecret(kdf, db.keys[prefix].phcHash, secret) == Accepted;
    ParseFormatted(prefix, secret);
  }

  lemma StepIssuesNew(kdf: Kdf, s: State, a: Action, first: Db)
    requires Enabled(kdf, s, a) && Evolves(first, s.db)
    requires forall c :: c in s.issued ==> s.issued[c] !in first.keys
    ensures forall c :: c in Apply(kdf, s, a).issued ==> Apply(kdf, s, a).issued[c] !in first.keys
  {
    if !a.MintKey? {
      assert Apply(kdf, s, a).issued == s.issued;
    }
  }

  lemma {:induction false} IssuedAreNew(kdf: Kdf, db: Db, actions: List<Action>, s: State)
    requires Mints(kdf) && Consistent(db) && After(kdf, Start(db), actions) == Some(s)
    ensures forall c :: c in s.issued ==> s.issued[c] !in db.keys
  {
    if actions.Cons? {
      var before := After(kdf, Start(db), actions.tail).value;
      IssuedAreNew(kdf, db, actions.tail, before);
      RunKeeps(kdf, Start(db), actions.tail);
      StepIssuesNew(kdf, before, actions.head, db);
    }
  }

  ghost predicate ResolvesToOwner(kdf: Kdf, db: Db, now: int, r: Result) {
    var answer := ResolveApiKey(kdf, db, now, LookupFaults(false, false), r.token);
    && answer.Authenticated? && answer.identity.userId == r.userId && r.userId in db.users
    && answer.identity.role == db.users[r.userId].role == answer.identity.effectiveRole
  }

  lemma OpensResolves(kdf: Kdf, db: Db, prefix: string, now: int, r: Result)
    requires Consistent(db) && Opens(kdf, db, prefix, r) && IsBootstrap(db, r.userId)
    ensures ParseApiKey(r.token).Some? && ResolvesToOwner(kdf, db, now, r)
  {
    OpensParses(kdf, db, prefix, r);
  }

  /** Every returned token resolves, now and later: it goes to the API-key resolver
      and authenticates as the bootstrap user with the role stored for it. */
  lemma TokensResolve(kdf: Kdf, db: Db, actions: List<Action>, s: State, c: Caller, r: Result,
                      now: int, introspectors: bool)
    requires Mints(kdf) && Consistent(db) && After(kdf, Start(db), actions) == Some(s)
    requires Returned(s, c, r) && r.created
    ensures Dispatch(r.token, introspectors) == ToApiKey
    ensures ResolvesToOwner(kdf, s.db, now, r)
  {
    RunKeeps(kdf, Start(db), actions);
    assert CallerHolds(kdf, s, c);
    OpensResolves(kdf, s.db, s.issued[c], now, r);
    FormatParsed(r.token);
    StaticCredentialsStayLocal(r.token, introspectors);
  }

  /** Appends one action to a run. */
  lemma Extend(kdf: Kdf, start: State, actions: List<Action>, s: State, a: Action)
    requires After(kdf, start, actions) == Some(s) && Enabled(kdf, s, a)
    ensures After(kdf, start, Cons(a, actions)) == Some(Apply(kdf, s, a))
  {
  }

  lemma MintAndReturn(kdf: Kdf, start: State, history: List<Action>, s: State, c: Caller,
                      random: seq<Byte>, salt: seq<Byte>, prefix: string, keyId: Id)
    returns (actions: List<Action>, t: State, r: Result)
    requires Mints(kdf) && After(kdf, start, history) == Some(s)
    requires c in s.callers && s.callers[c].Minting? && IsBootstrap(s.db, s.callers[c].userId)
    requires FreshPrefix(s.db, prefix) && |random| == RANDOM_LEN
    ensures After(kdf, start, actions) == Some(t) && r.created && t.callers == s.callers[c := Finished(r)]
    ensures r.userId == s.callers[c].userId
    ensures t.db.users == s.db.users && t.db.keys.Keys == s.db.keys.Keys + {prefix}
  {
    t := MintWorks(kdf, s, c, random, salt, prefix, keyId);
    var mint := MintKey(c, random, salt, prefix, keyId, true);
    Extend(kdf, start, history, s, mint);
    r := t.callers[c].result;
    Extend(kdf, start, Cons(mint, history), t, Return(c));
    actions, t := Cons(Return(c), Cons(mint, history)), Apply(kdf, t, Return(c));
  }

  lemma MintWorks(kdf: Kdf, s: State, c: Caller, random: seq<Byte>, salt: seq<Byte>, prefix: string, keyId: Id)
    returns (t: State)
    requires Mints(kdf) && c in s.callers && s.callers[c].Minting? && IsBootstrap(s.db, s.callers[c].userId)
    requires FreshPrefix(s.db, prefix) && |random| == RANDOM_LEN
    ensures Enabled(kdf, s, MintKey(c, random, salt, prefix, keyId, true))
    ensures t == Apply(kdf, s, MintKey(c, random, salt, prefix, keyId, true))
    ensures c in t.callers && t.callers[c].Returning? && t.callers[c].result.created && t.callers == s.callers[c := t.callers[c]]
    ensures t.callers[c].result.userId == s.callers[c].userId
    ensures t.db.users == s.db.users && t.db.keys.Keys == s.db.keys.Keys + {prefix}
  {
    MintedSecretVerifies(kdf, random, salt, "");
    t := Apply(kdf, s, MintKey(c, random, salt, prefix, keyId, true));
  }

  /** A caller alone, up to having found or created the user. */
  lemma SoloLists(kdf: Kdf, start: State, history: List<Action>, s: State, c: Caller, role: string, id: Id)
    returns (actions: List<Action>, t: State)
    requires After(kdf, start, history) == Some(s) && c !in s.callers && id !in s.db.users
    ensures After(kdf, start, actions) == Some(t) && c in t.callers && t.callers == s.callers[c := t.callers[c]]
    ensures t.db.keys == s.db.keys
    ensures NoBootstrap(s.db) ==> t.callers[c] == Minting(id) && t.db.users.Keys == s.db.users.Keys + {id} && IsBootstrap(t.db, id)
    ensures !NoBootstrap(s.db) ==> t.db == s.db && t.callers[c].Listing? && IsBootstrap(s.db, t.callers[c].userId)
  {
    Extend(kdf, start, history, s, Arrive(c, role));
    actions, t := Cons(Arrive(c, role), history), Apply(kdf, s, Arrive(c, role));
    if NoBootstrap(s.db) {
      actions, t := SoloCreates(kdf, start, actions, t, c, id);
    } else {
      var b :| b in s.db.users && IsBootstrap(s.db, b);
      Extend(kdf, start, actions, t, FindBootstrap(c, b));
      actions, t := Cons(FindBootstrap(c, b), actions), Apply(kdf, t, FindBootstrap(c, b));
    }
  }

  lemma SoloCreates(kdf: Kdf, start: State, history: List<Action>, s: State, c: Caller, id: Id)
    returns (actions: List<Action>, t: State)
    requires After(kdf, start, history) == Some(s) && c in s.callers && s.callers[c].Checking?
    requires NoBootstrap(s.db) && id !in s.db.users
    ensures After(kdf, start, actions) == Some(t) && t.callers == s.callers[c := Minting(id)] && t.db.keys == s.db.keys
    ensures t.db.users.Keys == s.db.users.Keys + {id} && IsBootstrap(t.db, id)
  {
    Extend(kdf, start, history, s, FindNone(c));
    actions, t := Cons(FindNone(c), history), Apply(kdf, s, FindNone(c));
    var create := CreateUser(c, id, true);
    Extend(kdf, start, actions, t, create);
    actions, t := Cons(create, actions), Apply(kdf, t, create);
  }

  lemma RunConsistent(kdf: Kdf, start: State, history: List<Action>, s: State)
    requires Mints(kdf) && Inv(kdf, start) && After(kdf, start, history) == Some(s)
    ensures Consistent(s.db)
  {
    RunKeeps(kdf, start, history);
  }

  /** There is a bootstrap user with a key. */
  ghost predicate KeyedBootstrap(db: Db) {
    exists b :: IsBootstrap(db, b) && HasKey(db, b)
  }

  lemma OneBootstrap(db: Db, id: Id)
    requires Consistent(db) && IsBootstrap(db, id)
    ensures KeyedBootstrap(db) <==> HasKey(db, id)
  {
  }

  /** After any history, an Ensure whose calls all work finishes, and it returns a
      token exactly when no bootstrap user had a key before. */
  lemma SoloFinishes(kdf: Kdf, start: State, history: List<Action>, s: State, c: Caller, role: string,
                     id: Id, random: seq<Byte>, salt: seq<Byte>, prefix: string, keyId: Id)
    returns (actions: List<Action>, t: State, r: Result)
    requires Mints(kdf) && Inv(kdf, start) && After(kdf, start, history) == Some(s)
    requires c !in s.callers && id !in s.db.users && FreshPrefix(s.db, prefix) && |random| == RANDOM_LEN
    ensures After(kdf, start, actions) == Some(t) && t.callers == s.callers[c := Finished(r)]
    ensures t.db.keys.Keys <= s.db.keys.Keys + {prefix}
    ensures r.created <==> !KeyedBootstrap(s.db)
  {
    RunConsistent(kdf, start, history, s);
    actions, t := SoloLists(kdf, start, history, s, c, role, id);
    if NoBootstrap(s.db) {
      actions, t, r := MintAndReturn(kdf, start, actions, t, c, random, salt, prefix, keyId);
    } else {
      OneBootstrap(s.db, t.callers[c].userId);
      actions, t, r := SoloRecovers(kdf, start, actions, t, c, random, salt, prefix, keyId);
    }
  }

  /** recoverIfKeyless without failures: a no-op exactly when there is a key. */
  lemma SoloRecovers(kdf: Kdf, start: State, history: List<Action>, s: State, c: Caller,
                     random: seq<Byte>, salt: seq<Byte>, prefix: string, keyId: Id)
    returns (actions: List<Action>, t: State, r: Result)
    requires Mints(kdf) && After(kdf, start, history) == Some(s)
    requires c in s.callers && s.callers[c].Listing? && IsBootstrap(s.db, s.callers[c].userId)
    requires FreshPrefix(s.db, prefix) && |random| == RANDOM_LEN
    ensures After(kdf, start, actions) == Some(t) && t.callers == s.callers[c := Finished(r)]
    ensures t.db.keys.Keys <= s.db.keys.Keys + {prefix}
    ensures r.userId == s.callers[c].userId && (r.created <==> !HasKey(s.db, r.userId))
  {
    var id := s.callers[c].userId;
    Extend(kdf, start, history, s, ListKeys(c));
    actions, t := Cons(ListKeys(c), history), Apply(kdf, s, ListKeys(c));
    if HasKey(s.db, id) {
      r := t.callers[c].result;
      Extend(kdf, start, actions, t, Return(c));
      actions, t := Cons(Return(c), actions), Apply(kdf, t, Return(c));
    } else {
      actions, t, r := MintAndReturn(kdf, start, actions, t, c, random, salt, prefix, keyId);
    }
  }

  /** c came with this role, or with none where it is admin. */
  ghost predicate AskedBy(actions: List<Action>, c: Caller, role: string) {
    exists asked :: Arrive(c, asked) in Elements(actions) && role == if asked == "" then "admin" else asked
  }

  /** role is what the creator of the row asked for, or what an operator set on it. */
  ghost predicate RoleAskedFor(actions: List<Action>, id: Id, role: string) {
    || SetRole(id, role) in Elements(actions)
    || exists c, answered :: CreateUser(c, id, answered) in Elements(actions) && AskedBy(actions, c, role)
  }

  ghost predicate SystemUsers(first: Db, actions: List<Action>, s: State) {
    && (forall id :: IsBootstrap(s.db, id) && id !in first.users ==>
          s.db.users[id].displayName == "admin" && s.db.users[id].email == "" &&
          RoleAskedFor(actions, id, s.db.users[id].role))
    && (forall c :: c in s.callers && (s.callers[c].Checking? || s.callers[c].Creating?) ==>
          AskedBy(actions, c, s.callers[c].role))
  }

  lemma AskedStays(actions: List<Action>, a: Action)
    ensures forall c, role :: AskedBy(actions, c, role) ==> AskedBy(Cons(a, actions), c, role)
    ensures forall id, role :: RoleAskedFor(actions, id, role) ==> RoleAskedFor(Cons(a, actions), id, role)
  {
    assert forall b :: b in Elements(actions) ==> b in Elements(Cons(a, actions));
  }

  lemma StepKeepsSystemUsers(kdf: Kdf, first: Db, actions: List<Action>, s: State, a: Action)
    requires Enabled(kdf, s, a) && SystemUsers(first, actions, s) && Evolves(first, s.db)
    ensures SystemUsers(first, Cons(a, actions), Apply(kdf, s, a))
  {
    var t := Apply(kdf, s, a);
    AskedStays(actions, a);
    assert a in Elements(Cons(a, actions));
    forall id | IsBootstrap(t.db, id) && id !in first.users
      ensures t.db.users[id].displayName == "admin" && t.db.users[id].email == ""
      ensures RoleAskedFor(Cons(a, actions), id, t.db.users[id].role)
    {
      if a.CreateUser? && a.id == id {
        assert AskedBy(actions, a.c, s.callers[a.c].role);
      } else {
        assert IsBootstrap(s.db, id);
      }
    }
    ArrivalsAsked(kdf, first, actions, s, a);
  }

  lemma ArrivalsAsked(kdf: Kdf, first: Db, actions: List<Action>, s: State, a: Action)
    requires Enabled(kdf, s, a) && SystemUsers(first, actions, s)
    ensures var t := Apply(kdf, s, a);
            forall c :: c in t.callers && (t.callers[c].Checking? || t.callers[c].Creating?) ==>
              AskedBy(Cons(a, actions), c, t.callers[c].role)
  {
    var t := Apply(kdf, s, a);
    AskedStays(actions, a);
    forall c | c in t.callers && (t.callers[c].Checking? || t.callers[c].Creating?)
      ensures AskedBy(Cons(a, actions), c, t.callers[c].role)
    {
      if a.Arrive? && a.c == c {
        assert Arrive(c, a.role) in Elements(Cons(a, actions));
      } else {
        assert AskedBy(actions, c, s.callers[c].role);
      }
    }
  }

  /** A bootstrap user that a run created is a system identity: named admin, with
      no email, and with the role that its creator asked for or an operator set. */
  lemma {:induction false} CreatedUserIsSystem(kdf: Kdf, db: Db, actions: List<Action>, s: State)
    requires Mints(kdf) && Consistent(db) && After(kdf, Start(db), actions) == Some(s)
    ensures SystemUsers(db, actions, s)
  {
    if actions.Cons? {
      var before := After(kdf, Start(db), actions.tail).value;
      CreatedUserIsSystem(kdf, db, actions.tail, before);
      RunKeeps(kdf, Start(db), actions.tail);
      StepKeepsSystemUsers(kdf, db, actions.tail, before, actions.head);
    }
  }

  /** The row as it is inserted has the role that this very caller came with. */
  lemma CreatorsRow(kdf: Kdf, db: Db, actions: List<Action>, s: State, c: Caller, id: Id, answered: bool)
    requires Mints(kdf) && Consistent(db) && After(kdf, Start(db), Cons(CreateUser(c, id, answered), actions)) == Some(s)
    ensures id in s.db.users && AskedBy(actions, c, s.db.users[id].role)
    ensures s.db.users[id] == User(id, "admin", "", s.db.users[id].role, true, false)
  {
    CreatedUserIsSystem(kdf, db, actions, After(kdf, Start(db), actions).value);
  }

  /** The loser of the creation race reads the winner again. */
  lemma LoserLists(kdf: Kdf, start: State, history: List<Action>, s: State, c: Caller, b: Id)
    returns (actions: List<Action>, t: State)
    requires After(kdf, start, history) == Some(s) && IsBootstrap(s.db, b)
    requires c in s.callers && s.callers[c].Creating?
    ensures After(kdf, start, actions) == Some(t) && t == Goto(s, c, Listing(b))
  {
    var conflict, find := CreateConflicts(c), FindBootstrap(c, b);
    Extend(kdf, start, history, s, conflict);
    var middle := Apply(kdf, s, conflict);
    Extend(kdf, start, Cons(conflict, history), middle, find);
    actions, t := Cons(find, Cons(conflict, history)), Apply(kdf, middle, find);
    assert s.callers[c := Rereading][c := Listing(b)] == s.callers[c := Listing(b)];
  }

  /** Left alone it then recovers the winner exactly if that one is keyless. */
  lemma LoserFinishes(kdf: Kdf, start: State, history: List<Action>, s: State, c: Caller, b: Id,
                      random: seq<Byte>, salt: seq<Byte>, prefix: string, keyId: Id)
    returns (actions: List<Action>, t: State, r: Result)
    requires Mints(kdf) && After(kdf, start, history) == Some(s) && IsBootstrap(s.db, b)
    requires c in s.callers && s.callers[c].Creating?
    requires FreshPrefix(s.db, prefix) && |random| == RANDOM_LEN
    ensures After(kdf, start, actions) == Some(t) && c in t.callers && t.callers[c] == Finished(r)
    ensures r.userId == b && (r.created <==> !HasKey(s.db, b))
  {
    actions, t := LoserLists(kdf, start, history, s, c, b);
    actions, t, r := SoloRecovers(kdf, start, actions, t, c, random, salt, prefix, keyId);
  }

  // ---------------------------------------------------------------- when a further key is issued

  /** Some caller is about to create a key. */
  ghost predicate SomeoneMints(s: State) {
    exists c :: c in s.callers && s.callers[c].Minting?
  }

  ghost predicate PrefixFree(db: Db) {
    exists prefix :: FreshPrefix(db, prefix)
  }

  ghost predicate CanIssue(s: State) {
    PrefixFree(s.db) && (SomeoneMints(s) || !KeyedBootstrap(s.db))
  }

  /** Some continuation has a caller create a key. */
  ghost predicate IssuesMore(kdf: Kdf, s: State) {
    exists actions, t, c :: After(kdf, s, actions) == Some(t) && c in t.issued && c !in s.issued
  }

  /** Some continuation returns the token of such a key. */
  ghost predicate ReturnsMore(kdf: Kdf, s: State) {
    exists actions, t, c, r :: After(kdf, s, actions) == Some(t) && Returned(t, c, r) && r.created && c !in s.issued
  }

  lemma EvolvesKeepsTaken(d: Db, e: Db)
    requires Evolves(d, e) && !PrefixFree(d)
    ensures !PrefixFree(e)
  {
    forall prefix ensures !FreshPrefix(e, prefix) {
      assert !FreshPrefix(d, prefix);
    }
  }

  lemma EvolvesKeepsKeyed(d: Db, e: Db)
    requires Evolves(d, e) && KeyedBootstrap(d)
    ensures KeyedBootstrap(e)
  {
    var b :| IsBootstrap(d, b) && HasKey(d, b);
    HasKeyStable(d, e, b);
    assert IsBootstrap(e, b);
  }

  /** Where there is a keyed bootstrap user nobody starts to mint. */
  lemma NobodyStartsToMint(kdf: Kdf, s: State, a: Action)
    requires Inv(kdf, s) && Enabled(kdf, s, a) && KeyedBootstrap(s.db) && !SomeoneMints(s)
    ensures !SomeoneMints(Apply(kdf, s, a)) && !a.MintKey?
  {
    var t := Apply(kdf, s, a);
    forall c | c in t.callers ensures !t.callers[c].Minting? {
      if Acts(a, c) && a.ListKeys? {
        assert CallerHolds(kdf, s, c);
        OneBootstrap(s.db, s.callers[c].userId);
      }
    }
  }

  lemma MintNeedsPrefix(kdf: Kdf, s: State, a: Action)
    requires Enabled(kdf, s, a) && a.MintKey?
    ensures PrefixFree(s.db)
  {
    assert FreshPrefix(s.db, a.prefix);
  }

  lemma StepStaysQuiet(kdf: Kdf, s: State, a: Action)
    requires Mints(kdf) && Inv(kdf, s) && Enabled(kdf, s, a) && !CanIssue(s)
    ensures !CanIssue(Apply(kdf, s, a)) && Apply(kdf, s, a).issued == s.issued
  {
    var t := Apply(kdf, s, a);
    StepEvolves(kdf, s, a);
    if !PrefixFree(s.db) {
      EvolvesKeepsTaken(s.db, t.db);
      if a.MintKey? {
        MintNeedsPrefix(kdf, s, a);
      }
    } else {
      NobodyStartsToMint(kdf, s, a);
      EvolvesKeepsKeyed(s.db, t.db);
    }
  }

  lemma {:induction false} RunStaysQuiet(kdf: Kdf, s: State, actions: List<Action>, t: State)
    requires Mints(kdf) && Inv(kdf, s) && !CanIssue(s) && After(kdf, s, actions) == Some(t)
    ensures !CanIssue(t) && t.issued == s.issued
  {
    if actions.Cons? {
      var before := After(kdf, s, actions.tail).value;
      RunStaysQuiet(kdf, s, actions.tail, before);
      RunKeeps(kdf, s, actions.tail);
      StepStaysQuiet(kdf, before, actions.head);
    }
  }

  lemma NewCaller(callers: map<Caller, Pc>) returns (c: Caller)
    ensures c !in callers
  {
    c := Above(callers.Keys);
  }

  lemma {:induction false} Above(taken: set<nat>) returns (n: nat)
    ensures forall k :: k in taken ==> k < n
  {
    if taken == {} {
      n := 0;
    } else {
      var k :| k in taken;
      var m := Above(taken - {k});
      n := if m > k then m else k + 1;
      forall x | x in taken ensures x < n {
        assert x == k || x in taken - {k};
      }
    }
  }

  /** There is always an id that is not taken: one longer than all of them. */
  lemma {:induction false} LongerThan(taken: set<Id>) returns (id: Id)
    ensures forall k :: k in taken ==> |k| < |id|
  {
    if taken == {} {
      id := "";
    } else {
      var k :| k in taken;
      var rest := LongerThan(taken - {k});
      id := rest + k + "x";
    }
  }

  lemma SomeRandom(kdf: Kdf) returns (random: seq<Byte>, salt: seq<Byte>)
    requires Mints(kdf)
    ensures |random| == RANDOM_LEN && GenerateApiKeySecret(kdf, random, salt).Some?
  {
    random, salt := seq(RANDOM_LEN, _ => 0), [];
    MintedSecretVerifies(kdf, random, salt, "");
  }

  /** Whoever stands before the creation of a key can get it and return its token. */
  lemma MinterReturns(kdf: Kdf, s: State, c: Caller)
    requires Mints(kdf) && Inv(kdf, s) && PrefixFree(s.db) && c in s.callers && s.callers[c].Minting?
    ensures ReturnsMore(kdf, s)
  {
    var prefix :| FreshPrefix(s.db, prefix);
    var random, salt := SomeRandom(kdf);
    assert CallerHolds(kdf, s, c);
    var actions, t, r := MintAndReturn(kdf, s, Nil, s, c, random, salt, prefix, "");
    assert Returned(t, c, r);
  }

  /** A new caller finds no keyed user and returns a token. */
  lemma NewcomerReturns(kdf: Kdf, s: State)
    requires Mints(kdf) && Inv(kdf, s) && PrefixFree(s.db) && !KeyedBootstrap(s.db)
    ensures ReturnsMore(kdf, s)
  {
    var prefix :| FreshPrefix(s.db, prefix);
    var random, salt := SomeRandom(kdf);
    var c := NewCaller(s.callers);
    var id := LongerThan(s.db.users.Keys);
    assert id !in s.db.users;
    var actions, t, r := SoloFinishes(kdf, s, Nil, s, c, "", id, random, salt, prefix, "");
    assert Returned(t, c, r);
    assert c !in s.issued;
  }

  lemma ReturningMeansIssuing(kdf: Kdf, s: State)
    requires Mints(kdf) && Inv(kdf, s) && ReturnsMore(kdf, s)
    ensures IssuesMore(kdf, s)
  {
    var actions, t, c, r :| After(kdf, s, actions) == Some(t) && Returned(t, c, r) && r.created && c !in s.issued;
    RunKeeps(kdf, s, actions);
    assert CallerHolds(kdf, t, c);
  }

  /** Exactly when a further key can be issued, and when a further token can be
      returned: a prefix is free, and a caller is already minting or there is no
      bootstrap user with a key. */
  lemma FurtherKeyExactly(kdf: Kdf, s: State)
    requires Mints(kdf) && Inv(kdf, s)
    ensures IssuesMore(kdf, s) <==> CanIssue(s)
    ensures ReturnsMore(kdf, s) <==> CanIssue(s)
  {
    if CanIssue(s) {
      if SomeoneMints(s) {
        var c :| c in s.callers && s.callers[c].Minting?;
        MinterReturns(kdf, s, c);
      } else {
        NewcomerReturns(kdf, s);
      }
      ReturningMeansIssuing(kdf, s);
    } else {
      forall actions, t | After(kdf, s, actions) == Some(t) ensures t.issued == s.issued {
        RunStaysQuiet(kdf, s, actions, t);
      }
      if ReturnsMore(kdf, s) {
        ReturningMeansIssuing(kdf, s);
      }
    }
  }

  /** Once there is a keyed bootstrap user, all depends on the callers that are minting:
      a further token can be returned exactly when there is one and a prefix is free. */
  lemma SecondTokenExactly(kdf: Kdf, s: State)
    requires Mints(kdf) && Inv(kdf, s) && KeyedBootstrap(s.db)
    ensures ReturnsMore(kdf, s) <==> SomeoneMints(s) && PrefixFree(s.db)
  {
    FurtherKeyExactly(kdf, s);
  }

  /** A user that was just created has no key. */
  lemma NoKeysYet(before: Db, db: Db, id: Id)
    requires Consistent(before) && Consistent(db) && id !in before.users && IsBootstrap(db, id) && db.keys == before.keys
    ensures !KeyedBootstrap(db)
  {
    assert !HasKey(db, id);
  }

  lemma ReturnedKeyed(kdf: Kdf, s: State, c: Caller, r: Result)
    requires Inv(kdf, s) && Returned(s, c, r)
    ensures KeyedBootstrap(s.db)
  {
    assert CallerHolds(kdf, s, c);
    assert IsBootstrap(s.db, r.userId) && HasKey(s.db, r.userId);
  }

  /** The state in question is reachable: whoever looks between the creation of the user
      and of its key mints one and returns, while the creator is still minting. */
  lemma OvertakenMinter(kdf: Kdf, db: Db, id: Id, other: Id, random: seq<Byte>, salt: seq<Byte>, p: string, q: string)
    returns (actions: List<Action>, s: State, second: Result)
    requires Mints(kdf) && Consistent(db) && NoBootstrap(db) && id !in db.users
    requires FreshPrefix(db, p) && FreshPrefix(db, q) && p != q && |random| == RANDOM_LEN && other !in db.users && other != id
    ensures After(kdf, Start(db), actions) == Some(s) && Inv(kdf, s)
    ensures Returned(s, 1, second) && second.created && 0 in s.callers && s.callers[0] == Minting(id)
    ensures KeyedBootstrap(s.db) && FreshPrefix(s.db, p)
  {
    actions, s := SoloLists(kdf, Start(db), Nil, Start(db), 0, "", id);
    RunKeeps(kdf, Start(db), actions);
    NoKeysYet(db, s.db, id);
    actions, s, second := SoloFinishes(kdf, Start(db), actions, s, 1, "", other, random, salt, q, "k1");
    RunKeeps(kdf, Start(db), actions);
    ReturnedKeyed(kdf, s, 1, second);
  }

  /** Convergence is on the user, not on the key: from that state the creator returns a
      second token. */
  lemma TwoTokensPossible(kdf: Kdf, db: Db, id: Id, other: Id, random: seq<Byte>, salt: seq<Byte>, p: string, q: string)
    returns (actions: List<Action>, s: State, first: Result, second: Result)
    requires Mints(kdf) && Consistent(db) && NoBootstrap(db) && id !in db.users
    requires FreshPrefix(db, p) && FreshPrefix(db, q) && p != q && |random| == RANDOM_LEN && other !in db.users && other != id
    ensures After(kdf, Start(db), actions) == Some(s)
    ensures Returned(s, 0, first) && Returned(s, 1, second) && first.created && second.created
  {
    actions, s, second := OvertakenMinter(kdf, db, id, other, random, salt, p, q);
    assert CallerHolds(kdf, s, 0);
    actions, s, first := MintAndReturn(kdf, Start(db), actions, s, 0, random, salt, p, "k0");
  }
}
