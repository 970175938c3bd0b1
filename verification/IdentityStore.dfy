/** The login path as methods over the user table, and what every interleaving of
    logins keeps (internal/auth/identitystore.go, internal/auth/loginsync.go). */
module IdentityStore {
  import opened Wrappers
  import opened Text
  import opened Users
  import opened LoginSync

  /** The role checks of NewIdentityStore; false where it returns an error. */
  predicate Accepts(cfg: Config, known: set<string>) {
    (cfg.jitEnabled || cfg.loginSyncEnabled) && known != {} ==>
      && (cfg.jitDefaultRole != "" ==> cfg.jitDefaultRole in known)
      && forall issuer :: issuer in cfg.mappings ==>
           forall i :: 0 <= i < |cfg.mappings[issuer]| ==> cfg.mappings[issuer][i].role in known
  }

  method ValidateRoles(cfg: Config, known: set<string>) returns (ok: bool)
    ensures ok <==> Accepts(cfg, known)
  {
    if (cfg.jitEnabled || cfg.loginSyncEnabled) && |known| > 0 {
      if cfg.jitDefaultRole != "" && cfg.jitDefaultRole !in known {
        return false;
      }
      var issuers := cfg.mappings.Keys;
      while issuers != {}
        invariant issuers <= cfg.mappings.Keys
        invariant forall issuer :: issuer in cfg.mappings && issuer !in issuers ==>
                    forall i :: 0 <= i < |cfg.mappings[issuer]| ==> cfg.mappings[issuer][i].role in known
        decreases issuers
      {
        var issuer :| issuer in issuers;
        for i := 0 to |cfg.mappings[issuer]|
          invariant forall k :: 0 <= k < i ==> cfg.mappings[issuer][k].role in known
        {
          if cfg.mappings[issuer][i].role !in known {
            return false;
          }
        }
        issuers := issuers - {issuer};
      }
    }
    return true;
  }

  /** The built-in roles and the custom ones. */
  function KnownRolesFrom(custom: seq<string>): set<string> {
    {ADMIN, WRITER, READER} + (set name | name in custom && name != "")
  }

  /** A user row as loaded into memory, where login sync updates it. */
  class UserRecord {
    var row: User
    constructor (row: User)
      ensures this.row == row
    {
      this.row := row;
    }
  }

  /** The error and the loaded record, before and after, that a result stands for. */
  predicate Surfaces(result: Surfaced, err: Option<AuthError>, before: User, after: User) {
    match result
    case Surface(user) => err.None? && after == user
    case Deny(e) => err == Some(e) && after == before
  }

  class Store {
    const cfg: Config
    var db: Db
    var attempts: nat  // writes tried so far

    constructor (cfg: Config, db: Db)
      ensures this.cfg == cfg && this.db == db && attempts == 0
    {
      this.cfg, this.db, attempts := cfg, db, 0;
    }

    method WriteLogin(id: Id, name: string, email: string, role: string, fails: bool) returns (err: Option<WriteError>)
      modifies this
      ensures (err, db) == UpdateUserOnLogin(old(db), id, name, email, role, fails)
      ensures attempts == old(attempts) + 1
    {
      attempts := attempts + 1;
      if fails {
        return Some(WriteFailed);
      }
      if id !in db.users || db.users[id].deleted {
        return Some(NoActiveRow);
      }
      db := db.(users := db.users[id := db.users[id].(displayName := name, email := email, role := role)]);
      return None;
    }

    method WriteName(id: Id, name: string, fails: bool) returns (err: Option<WriteError>)
      modifies this
      ensures (err, db) == UpdateDisplayNameOnLogin(old(db), id, name, fails)
      ensures attempts == old(attempts) + 1
    {
      attempts := attempts + 1;
      if fails {
        return Some(WriteFailed);
      }
      if id !in db.users || db.users[id].deleted {
        return Some(NoActiveRow);
      }
      db := db.(users := db.users[id := db.users[id].(displayName := name)]);
      return None;
    }

    method ApplyLoginSync(claims: Claims, user: UserRecord, newName: string, nameChanged: bool, fails: bool)
      returns (err: Option<AuthError>)
      modifies this, user
      ensures var o := SyncLogin(cfg, claims, old(user.row), newName, nameChanged, old(db), fails);
              && db == o.db && attempts == old(attempts) + o.attempts
              && Surfaces(o.result, err, old(user.row), user.row)
    {
      if cfg.allowlist != {} && claims.email != "" {
        var domain := EmailDomain(claims.email);
        if domain == "" || domain !in cfg.allowlist {
          return Some(Unauthenticated);
        }
      }
      var (newRole, changed) :=
        ResolveLoginRole(cfg.MappingsOf(claims.issuer), claims.raw, user.row.role, cfg.jitDefaultRole);
      var newEmail := user.row.email;
      if claims.email != "" {
        newEmail := claims.email;
      }
      if newEmail == user.row.email && newRole == user.row.role && !nameChanged {
        return None;
      }
      var persistName := user.row.displayName;
      if nameChanged {
        persistName := newName;
      }
      err := Persist(user, persistName, newEmail, newRole, changed, fails);
    }

    /** Persists the three fields in one write and updates the record on success. */
    method Persist(user: UserRecord, name: string, newEmail: string, newRole: string, changed: bool, fails: bool)
      returns (err: Option<AuthError>)
      modifies this, user
      ensures var o := PersistLogin(old(user.row), name, newEmail, newRole, changed, old(db), fails);
              && db == o.db && attempts == old(attempts) + o.attempts
              && Surfaces(o.result, err, old(user.row), user.row)
    {
      var werr := WriteLogin(user.row.id, name, newEmail, newRole, fails);
      match werr {
        case None =>
          user.row := user.row.(displayName := name, email := newEmail, role := newRole);
          return None;
        case Some(NoActiveRow) =>
          return Some(Unauthenticated);
        case Some(WriteFailed) =>
          if !changed || IsPromotion(user.row.role, newRole) {
            return None;
          }
          return Some(Transient);
      }
    }

    /** One transaction: the user row, then its binding. When the binding is taken the row
        is rolled back and the winner's user is returned, as it is. */
    method JitCreateHuman(claims: Claims, user: User, fails: bool) returns (r: Surfaced)
      modifies this
      ensures var o := LoginSync.JitCreateHuman(old(db), claims, user, fails);
              && db == o.db && attempts == old(attempts) + o.attempts && r == o.result
    {
      attempts := attempts + 1;
      var key := (claims.issuer, claims.subject);
      if fails {
        return Deny(Transient);
      }
      var before := db;
      if key !in db.bindings && user.id in db.users {
        return Deny(Transient);
      }
      db := db.(users := db.users[user.id := user]);
      if key in db.bindings {
        db := before;
        var winner := db.bindings[key];
        if winner !in db.users {
          return Deny(Transient);
        }
        return Surface(db.users[winner]);
      }
      db := db.(bindings := db.bindings[key := user.id]);
      return Surface(user);
    }

    method JitResolve(claims: Claims, interactive: bool, w: World) returns (r: Surfaced)
      modifies this
      ensures var o := LoginSync.JitResolve(cfg, old(db), claims, interactive, w);
              && db == o.db && attempts == old(attempts) + o.attempts && r == o.result
    {
      if cfg.allowlist != {} {
        var domain := EmailDomain(claims.email);
        if domain == "" {
          return Deny(Unauthenticated);
        }
        if domain !in cfg.allowlist {
          return Deny(Unauthenticated);
        }
      }
      if !interactive {
        if !w.rateAllows {
          return Deny(Unauthenticated);
        }
      }
      var role := cfg.jitDefaultRole;
      if role == "" {
        role := READER;
      }
      if claims.issuer in cfg.mappings {
        var mapped := ApplyClaimsMapping(claims.raw, cfg.mappings[claims.issuer]);
        if mapped != "" {
          role := mapped;
        }
      }
      var seedName := claims.subject;
      if claims.name != "" {
        seedName := claims.name;
      }
      r := JitCreateHuman(claims, User(w.freshId, seedName, claims.email, role, false, false), w.jitFails);
    }

    method MaterializeIdentity(claims: Claims, interactive: bool, w: World) returns (r: Resolved)
      modifies this
      ensures var o := Login(cfg, old(db), claims, interactive, w);
              && db == o.db && attempts == old(attempts) + o.attempts
              && r == Answer(claims, o.result)
      ensures RowsNamed(old(db)) ==>
                LoginLaw(cfg, old(db), claims, interactive, w, r, db, attempts - old(attempts))
    {
      if RowsNamed(db) {
        LoginObeysLaw(cfg, db, claims, interactive, w);
      }
      if w.bindingFails {
        return Denied(Transient);
      }
      if (claims.issuer, claims.subject) !in db.bindings {
        if !cfg.jitEnabled {
          return Denied(Unauthenticated);
        }
        var created := JitResolve(claims, interactive, w);
        match created {
          case Surface(user) => return Authenticated(OidcIdentity(claims, user));
          case Deny(e) => return Denied(e);
        }
      }
      var id := db.bindings[(claims.issuer, claims.subject)];
      if w.userFails {
        return Denied(Transient);
      }
      if id !in db.users || db.users[id].deleted {
        return Denied(Unauthenticated);
      }
      var user := new UserRecord(db.users[id]);
      var err := Settle(claims, user, interactive, w.writeFails);
      if err.Some? {
        return Denied(err.value);
      }
      return Authenticated(OidcIdentity(claims, user.row));
    }

    /** The tail for a loaded user: reconcile the name, and sync or write it alone. */
    method Settle(claims: Claims, user: UserRecord, interactive: bool, fails: bool) returns (err: Option<AuthError>)
      modifies this, user
      ensures var o := LoginSync.Settle(cfg, old(db), claims, old(user.row), interactive, fails);
              && db == o.db && attempts == old(attempts) + o.attempts
              && Surfaces(o.result, err, old(user.row), user.row)
    {
      var (newName, nameChanged) := ReconcileDisplayName(user.row, claims);
      if cfg.loginSyncEnabled && interactive {
        err := ApplyLoginSync(claims, user, newName, nameChanged, fails);
        return;
      }
      if nameChanged {
        var werr := WriteName(user.row.id, newName, fails);
        if werr == Some(NoActiveRow) {
          return Some(Unauthenticated);
        }
        if werr.None? {
          user.row := user.row.(displayName := newName);
        }
      }
      return None;
    }
  }

  // ---------------------------------------------------------------- interleaved logins

  type Session = nat

  /** A login after its look-up: with the user it loaded, or without a binding. gone is a
      history: the users deleted since the look-up. */
  datatype Pending =
    | Loaded(claims: Claims, interactive: bool, gone: set<Id>, user: User)
    | Missed(claims: Claims, interactive: bool, gone: set<Id>)

  datatype Shown = Shown(user: User, gone: set<Id>)

  /** The tables, the logins that have looked up their user but not yet written, and the
      user that the latest action surfaced, if it was a login that went through. */
  datatype State = State(db: Db, pending: map<Session, Pending>, shown: Option<Shown>)

  datatype Action =
    | Load(s: Session, claims: Claims, interactive: bool)
    | Miss(s: Session, claims: Claims, interactive: bool)
    | Finish(s: Session, fails: bool)
    | Create(s: Session, w: World)
    | Abandon(s: Session)
    | AssignRole(id: Id, role: string)
    | SoftDelete(id: Id)

  predicate Bound(db: Db, claims: Claims) {
    (claims.issuer, claims.subject) in db.bindings
  }

  predicate Enabled(cfg: Config, known: set<string>, st: State, a: Action) {
    match a
    case Load(s, claims, _) =>
      && s !in st.pending && Bound(st.db, claims)
      && ActiveRow(st.db, st.db.bindings[(claims.issuer, claims.subject)])
    case Miss(s, claims, _) => s !in st.pending && !Bound(st.db, claims) && cfg.jitEnabled
    case Finish(s, _) => s in st.pending && st.pending[s].Loaded?
    case Create(s, _) => s in st.pending && st.pending[s].Missed? && cfg.jitEnabled
    case Abandon(s) => s in st.pending
    case AssignRole(id, role) => ActiveRow(st.db, id) && role in known
    case SoftDelete(id) => id in st.db.users
  }

  function ShownBy(result: Surfaced, gone: set<Id>): Option<Shown> {
    match result
    case Surface(user) => Some(Shown(user, gone))
    case Deny(_) => None
  }

  function Delete(db: Db, id: Id): Db
    requires id in db.users
  {
    db.(users := db.users[id := db.users[id].(deleted := true)])
  }

  /** Every pending login sees the deletion in its history. */
  function Noticed(pending: map<Session, Pending>, id: Id): map<Session, Pending> {
    map s | s in pending :: pending[s].(gone := pending[s].gone + {id})
  }

  function Apply(cfg: Config, known: set<string>, st: State, a: Action): State
    requires Enabled(cfg, known, st, a)
  {
    match a
    case Load(s, claims, interactive) =>
      var user := st.db.users[st.db.bindings[(claims.issuer, claims.subject)]];
      State(st.db, st.pending[s := Loaded(claims, interactive, {}, user)], None)
    case Miss(s, claims, interactive) =>
      State(st.db, st.pending[s := Missed(claims, interactive, {})], None)
    case Finish(s, fails) =>
      var p := st.pending[s];
      var o := Settle(cfg, st.db, p.claims, p.user, p.interactive, fails);
      State(o.db, st.pending - {s}, ShownBy(o.result, p.gone))
    case Create(s, w) =>
      var p := st.pending[s];
      var o := JitResolve(cfg, st.db, p.claims, p.interactive, w);
      State(o.db, st.pending - {s}, ShownBy(o.result, p.gone))
    case Abandon(s) => State(st.db, st.pending - {s}, None)
    case AssignRole(id, role) => State(UpdateRole(st.db, id, role), st.pending, None)
    case SoftDelete(id) => State(Delete(st.db, id), Noticed(st.pending, id), None)
  }

  ghost function After(cfg: Config, known: set<string>, start: State, actions: List<Action>): Option<State> {
    match actions
    case Nil => Some(start)
    case Cons(a, before) =>
      match After(cfg, known, start, before)
      case None => None
      case Some(st) => if Enabled(cfg, known, st, a) then Some(Apply(cfg, known, st, a)) else None
  }

  /** Tables as storage keeps them, before any login: rows under their ids, and bindings
      to rows, deleted or not. */
  ghost predicate Initial(st: State) {
    && RowsNamed(st.db) && st.pending == map[] && st.shown.None?
    && forall key :: key in st.db.bindings ==> st.db.bindings[key] in st.db.users
  }

  // ---------------------------------------------------------------- closure over the known roles

  ghost predicate StoredKnown(known: set<string>, db: Db) {
    forall id :: id in db.users ==> db.users[id].role in known
  }

  /** Stored and loaded roles are all known. */
  ghost predicate RolesKnown(known: set<string>, st: State) {
    && StoredKnown(known, st.db)
    && (forall s :: s in st.pending && st.pending[s].Loaded? ==> st.pending[s].user.role in known)
  }

  /** No run from initial tables with known roles stores an unknown one. */
  ghost predicate Closed(cfg: Config, known: set<string>) {
    forall start, actions :: Initial(start) && RolesKnown(known, start) && After(cfg, known, start, actions).Some? ==>
      RolesKnown(known, After(cfg, known, start, actions).value)
  }

  /** The domain of some address: not empty, lower case, without an at sign. */
  predicate Usable(domain: string) {
    domain != "" && !Contains(domain, '@') && Lower(domain) == domain
  }

  /** The allowlist lets someone in. */
  predicate AdmitsCreation(cfg: Config) {
    cfg.allowlist == {} || exists d :: d in cfg.allowlist && Usable(d)
  }

  /** Some login can be given the default role: just-in-time creation lets someone in, or
      login-sync has rules for an issuer. */
  predicate AssignsDefault(cfg: Config) {
    || (cfg.jitEnabled && AdmitsCreation(cfg))
    || (cfg.loginSyncEnabled && exists issuer :: issuer in cfg.mappings && cfg.mappings[issuer] != [])
  }

  predicate DefaultSafe(cfg: Config, known: set<string>) {
    DefaultRole(cfg) in known || !AssignsDefault(cfg)
  }

  lemma LowerTwice(s: string)
    ensures Lower(Lower(s)) == Lower(s)
  {
  }

  lemma DomainUsable(email: string)
    requires EmailDomain(email) != ""
    ensures Usable(EmailDomain(email))
  {
    var i := LastIndexByte(email, '@');
    var tail := email[i + 1..];
    LowerTwice(tail);
    forall k | 0 <= k < |tail| ensures Lower(tail)[k] != '@' {
      assert tail[k] == email[i + 1 + k];
    }
  }

  lemma UsableDomainOf(d: string)
    requires Usable(d)
    ensures EmailDomain("@" + d) == d
  {
    var email := "@" + d;
    assert email[0] == '@' && email[1..] == d;
    assert forall k :: 0 < k < |email| ==> email[k] == d[k - 1] != '@';
    assert LastIndexByte(email, '@') == 0;
  }

  /** Derived roles are known when the configuration was accepted and its default is
      known wherever it can be given. */
  lemma DerivedRoleKnown(cfg: Config, known: set<string>, claims: Claims, current: string)
    requires Accepts(cfg, known) && known != {} && DefaultSafe(cfg, known) && current in known
    ensures cfg.loginSyncEnabled ==>
              ResolveLoginRole(cfg.MappingsOf(claims.issuer), claims.raw, current, cfg.jitDefaultRole).0 in known
    ensures cfg.jitEnabled && AdmitsCreation(cfg) ==> JitRole(cfg, claims) in known
  {
    var rules := cfg.MappingsOf(claims.issuer);
    if cfg.jitEnabled || cfg.loginSyncEnabled {
      assert forall i :: 0 <= i < |rules| ==> rules[i].role in known;
    }
  }

  lemma PersistKeepsRoles(known: set<string>, user: User, name: string, email: string, role: string, changed: bool, db: Db, fails: bool)
    requires StoredKnown(known, db) && role in known
    ensures StoredKnown(known, PersistLogin(user, name, email, role, changed, db, fails).db)
  {
  }

  lemma SyncKeepsRoles(cfg: Config, known: set<string>, db: Db, claims: Claims, user: User, newName: string, nameChanged: bool, fails: bool)
    requires Accepts(cfg, known) && known != {} && DefaultSafe(cfg, known)
    requires StoredKnown(known, db) && user.role in known && cfg.loginSyncEnabled
    ensures StoredKnown(known, SyncLogin(cfg, claims, user, newName, nameChanged, db, fails).db)
  {
    DerivedRoleKnown(cfg, known, claims, user.role);
    var (newRole, changed) := ResolveLoginRole(cfg.MappingsOf(claims.issuer), claims.raw, user.role, cfg.jitDefaultRole);
    PersistKeepsRoles(known, user, if nameChanged then newName else user.displayName, NewEmail(claims, user),
                      newRole, changed, db, fails);
  }

  lemma SettleKeepsRoles(cfg: Config, known: set<string>, db: Db, p: Pending, fails: bool)
    requires Accepts(cfg, known) && known != {} && DefaultSafe(cfg, known)
    requires StoredKnown(known, db) && p.Loaded? && p.user.role in known
    ensures StoredKnown(known, Settle(cfg, db, p.claims, p.user, p.interactive, fails).db)
  {
    var (newName, nameChanged) := ReconcileDisplayName(p.user, p.claims);
    if cfg.loginSyncEnabled && p.interactive {
      SyncKeepsRoles(cfg, known, db, p.claims, p.user, newName, nameChanged, fails);
    }
  }

  lemma CreateKeepsRoles(cfg: Config, known: set<string>, db: Db, claims: Claims, interactive: bool, w: World)
    requires Accepts(cfg, known) && known != {} && DefaultSafe(cfg, known) && StoredKnown(known, db)
    requires cfg.jitEnabled
    ensures StoredKnown(known, JitResolve(cfg, db, claims, interactive, w).db)
  {
    if cfg.allowlist == {} || DomainAllowed(cfg, claims.email) {
      if cfg.allowlist != {} {
        DomainUsable(claims.email);
      }
      var some :| some in known;
      DerivedRoleKnown(cfg, known, claims, some);
    }
  }

  lemma StepKeepsRoles(cfg: Config, known: set<string>, st: State, a: Action)
    requires Accepts(cfg, known) && known != {} && DefaultSafe(cfg, known)
    requires RolesKnown(known, st) && Enabled(cfg, known, st, a)
    ensures RolesKnown(known, Apply(cfg, known, st, a))
  {
    match a
    case Finish(s, fails) =>
      SettleKeepsRoles(cfg, known, st.db, st.pending[s], fails);
    case Create(s, w) =>
      CreateKeepsRoles(cfg, known, st.db, st.pending[s].claims, st.pending[s].interactive, w);
    case _ =>
  }

  /** With an accepted configuration and a known default, logins never store a role
      outside the known ones, however their loads and writes interleave with each
      other, with creations and with operators. */
  lemma {:induction false} RolesStayKnown(cfg: Config, known: set<string>, start: State, actions: List<Action>)
    requires Accepts(cfg, known) && known != {} && DefaultSafe(cfg, known)
    requires RolesKnown(known, start) && After(cfg, known, start, actions).Some?
    ensures RolesKnown(known, After(cfg, known, start, actions).value)
  {
    if actions.Cons? {
      RolesStayKnown(cfg, known, start, actions.tail);
      StepKeepsRoles(cfg, known, After(cfg, known, start, actions.tail).value, actions.head);
    }
  }

  /** An address that the allowlist lets in. */
  lemma AdmittedEmail(cfg: Config) returns (email: string)
    requires AdmitsCreation(cfg)
    ensures cfg.allowlist == {} || DomainAllowed(cfg, email)
  {
    if cfg.allowlist == {} {
      email := "";
    } else {
      var d :| d in cfg.allowlist && Usable(d);
      UsableDomainOf(d);
      email := "@" + d;
    }
  }

  /** Claims that match no rule are given the default. */
  lemma UnmatchedGetDefault(cfg: Config, claims: Claims, current: string)
    requires claims.raw == map[]
    ensures JitRole(cfg, claims) == DefaultRole(cfg)
    ensures cfg.MappingsOf(claims.issuer) != [] ==>
              ResolveLoginRole(cfg.MappingsOf(claims.issuer), claims.raw, current, cfg.jitDefaultRole).0 == DefaultRole(cfg)
  {
    assert NoMatch(claims.raw, cfg.MappingsOf(claims.issuer));
  }

  lemma TwoStepsBreak(cfg: Config, known: set<string>, start: State, a: Action, b: Action)
    requires Initial(start) && RolesKnown(known, start)
    requires Enabled(cfg, known, start, a) && Enabled(cfg, known, Apply(cfg, known, start, a), b)
    requires !RolesKnown(known, Apply(cfg, known, Apply(cfg, known, start, a), b))
    ensures !Closed(cfg, known)
  {
    var middle := Apply(cfg, known, start, a);
    assert After(cfg, known, start, Cons(a, Nil)) == Some(middle);
    assert After(cfg, known, start, Cons(b, Cons(a, Nil))) == Some(Apply(cfg, known, middle, b));
  }

  /** A first login without a binding is given an unknown default, for every issuer,
      subject and id. */
  lemma CreationBreaks(cfg: Config, known: set<string>, issuer: string, subject: string, id: Id)
    requires cfg.jitEnabled && AdmitsCreation(cfg) && DefaultRole(cfg) !in known
    ensures !Closed(cfg, known)
  {
    var email := AdmittedEmail(cfg);
    var claims, w := Claims(issuer, subject, "", email, map[]), World(false, false, false, false, true, id);
    var start := State(Db(map[], map[], map[]), map[], None);
    var miss, create := Miss(0, claims, true), Create(0, w);
    UnmatchedGetDefault(cfg, claims, "");
    JitGates(cfg, start.db, claims, true, w);
    assert JitResolve(cfg, start.db, claims, true, w).db.users[id].role !in known;
    TwoStepsBreak(cfg, known, start, miss, create);
  }

  /** A login of a bound user with a known role whose claims match no rule is given an
      unknown default, for every subject and id. */
  lemma SyncBreaks(cfg: Config, known: set<string>, issuer: string, subject: string, id: Id)
    requires cfg.loginSyncEnabled && issuer in cfg.mappings && cfg.mappings[issuer] != []
    requires known != {} && DefaultRole(cfg) !in known
    ensures !Closed(cfg, known)
  {
    var role :| role in known;
    var user, claims := User(id, "name", "", role, false, false), Claims(issuer, subject, "", "", map[]);
    var start := State(Db(map[id := user], map[], map[(issuer, subject) := id]), map[], None);
    var load, finish := Load(0, claims, true), Finish(0, false);
    UnmatchedGetDefault(cfg, claims, role);
    SyncAllOrNothing(cfg, claims, user, user.displayName, false, start.db, false);
    assert Settle(cfg, start.db, claims, user, true, false).db.users[id].role == DefaultRole(cfg);
    TwoStepsBreak(cfg, known, start, load, finish);
  }

  /** Exactly which accepted configurations keep every run within the known roles:
      those whose default is known, or is never given. */
  lemma RolesClosedExactly(cfg: Config, known: set<string>)
    requires Accepts(cfg, known) && known != {}
    ensures Closed(cfg, known) <==> DefaultSafe(cfg, known)
  {
    if DefaultSafe(cfg, known) {
      forall start, actions | Initial(start) && RolesKnown(known, start) && After(cfg, known, start, actions).Some?
        ensures RolesKnown(known, After(cfg, known, start, actions).value)
      {
        RolesStayKnown(cfg, known, start, actions);
      }
    } else if cfg.jitEnabled && AdmitsCreation(cfg) {
      CreationBreaks(cfg, known, "issuer", "subject", "id");
    } else {
      var issuer :| issuer in cfg.mappings && cfg.mappings[issuer] != [];
      SyncBreaks(cfg, known, issuer, "subject", "id");
    }
  }

  /** A set with reader is always enough; where the default role is left empty and can
      be given, it is also needed. The sets that are built for the store have it. */
  lemma ReaderMustBeKnown(cfg: Config, known: set<string>, custom: seq<string>)
    requires Accepts(cfg, known) && known != {}
    ensures READER in known ==> Closed(cfg, known)
    ensures cfg.jitDefaultRole == "" && AssignsDefault(cfg) ==> (Closed(cfg, known) <==> READER in known)
    ensures READER in KnownRolesFrom(custom)
  {
    RolesClosedExactly(cfg, known);
  }

  // ---------------------------------------------------------------- who is surfaced

  /** A login goes through although the row it loaded is gone: nothing is to be written,
      or the write fails and its failure is tolerated. */
  predicate PassesWithoutRow(cfg: Config, claims: Claims, user: User, interactive: bool, fails: bool) {
    var (newName, nameChanged) := ReconcileDisplayName(user, claims);
    if cfg.loginSyncEnabled && interactive then
      var want := Target(cfg, claims, user, newName, nameChanged);
      && !AllowlistRefuses(cfg, claims)
      && (want == user || (fails && (want.role == user.role || RoleLessThan(user.role, want.role))))
    else
      !nameChanged || fails
  }

  /** Exactly when a loaded login surfaces an active user: when the row is still active;
      and exactly when it goes through without. */
  lemma FinishShowsActive(cfg: Config, db: Db, claims: Claims, user: User, interactive: bool, fails: bool)
    ensures var o := Settle(cfg, db, claims, user, interactive, fails);
            && (o.result.Surface? ==>
                  o.result.user.id == user.id && (ActiveRow(o.db, user.id) <==> ActiveRow(db, user.id)))
            && (!ActiveRow(db, user.id) ==>
                  (o.result.Surface? <==> PassesWithoutRow(cfg, claims, user, interactive, fails)))
  {
  }

  /** Bindings and rows stay, and rows keep their ids and marks. */
  ghost predicate MarksKept(d: Db, e: Db) {
    && e.bindings == d.bindings && e.users.Keys == d.users.Keys
    && forall id :: id in d.users ==> e.users[id].deleted == d.users[id].deleted && e.users[id].id == d.users[id].id
  }

  lemma SettleKeepsMarks(cfg: Config, db: Db, claims: Claims, user: User, interactive: bool, fails: bool)
    ensures MarksKept(db, Settle(cfg, db, claims, user, interactive, fails).db)
  {
    var (newName, nameChanged) := ReconcileDisplayName(user, claims);
    if cfg.loginSyncEnabled && interactive {
      SyncKeepsMarks(cfg, db, claims, user, newName, nameChanged, fails);
    }
  }

  lemma SyncKeepsMarks(cfg: Config, db: Db, claims: Claims, user: User, newName: string, nameChanged: bool, fails: bool)
    ensures MarksKept(db, SyncLogin(cfg, claims, user, newName, nameChanged, db, fails).db)
  {
    var (newRole, changed) := ResolveLoginRole(cfg.MappingsOf(claims.issuer), claims.raw, user.role, cfg.jitDefaultRole);
    PersistKeepsMarks(user, if nameChanged then newName else user.displayName, NewEmail(claims, user), newRole, changed, db, fails);
  }

  lemma PersistKeepsMarks(user: User, name: string, email: string, role: string, changed: bool, db: Db, fails: bool)
    ensures MarksKept(db, PersistLogin(user, name, email, role, changed, db, fails).db)
  {
  }

  ghost predicate IsDeleted(db: Db, id: Id) {
    id in db.users && db.users[id].deleted
  }

  /** id has a row, and is deleted exactly when the history says so. */
  ghost predicate GoneExactly(db: Db, gone: set<Id>, id: Id) {
    id in db.users && (IsDeleted(db, id) <==> id in gone)
  }

  /** What a pending login relies on: its history is true, and the user that it can
      surface is deleted only if that happened after its look-up. */
  ghost predicate PendingHolds(db: Db, p: Pending) {
    && (forall id :: id in p.gone ==> IsDeleted(db, id))
    && match p
       case Loaded(_, _, gone, user) => GoneExactly(db, gone, user.id)
       case Missed(claims, _, gone) => Bound(db, claims) ==> GoneExactly(db, gone, db.bindings[(claims.issuer, claims.subject)])
  }

  ghost predicate LoginsHold(st: State) {
    && RowsNamed(st.db)
    && (forall key :: key in st.db.bindings ==> st.db.bindings[key] in st.db.users)
    && (forall s :: s in st.pending ==> PendingHolds(st.db, st.pending[s]))
    && (st.shown.Some? ==> GoneExactly(st.db, st.shown.value.gone, st.shown.value.user.id))
  }

  /** Exactly when a creation surfaces an active user: unless it lost its race to one whose
      user was deleted after the look-up that found no binding. */
  lemma CreateShowsActive(cfg: Config, db: Db, p: Pending, w: World)
    requires RowsNamed(db) && p.Missed? && PendingHolds(db, p)
    ensures var o := JitResolve(cfg, db, p.claims, p.interactive, w);
            && (o.result.Surface? ==> GoneExactly(o.db, p.gone, o.result.user.id))
            && (o.result.Surface? && !ActiveRow(o.db, o.result.user.id) ==>
                  Bound(db, p.claims) && o.result.user.id == db.bindings[(p.claims.issuer, p.claims.subject)])
  {
  }

  /** A creation adds at most one row, active, and one binding, to it. */
  ghost predicate Grown(d: Db, e: Db) {
    && (forall id :: id in d.users ==> id in e.users && e.users[id] == d.users[id])
    && (forall id :: id in e.users && id !in d.users ==> e.users[id].id == id && !e.users[id].deleted)
    && (forall key :: key in d.bindings ==> key in e.bindings && e.bindings[key] == d.bindings[key])
    && (forall key :: key in e.bindings && key !in d.bindings ==> e.bindings[key] in e.users && e.bindings[key] !in d.users)
  }

  lemma CreateKeepsMarks(cfg: Config, db: Db, p: Pending, w: World)
    ensures Grown(db, JitResolve(cfg, db, p.claims, p.interactive, w).db)
  {
    var o := JitResolve(cfg, db, p.claims, p.interactive, w);
    if !Bound(db, p.claims) {
      JitGates(cfg, db, p.claims, p.interactive, w);
    } else {
      assert o.db == db;
    }
  }

  lemma OthersSurviveCreation(cfg: Config, db: Db, p: Pending, w: World, q: Pending)
    requires PendingHolds(db, q)
    ensures PendingHolds(JitResolve(cfg, db, p.claims, p.interactive, w).db, q)
  {
    CreateKeepsMarks(cfg, db, p, w);
  }

  /** What pending logins rely on survives every change that keeps the marks. */
  lemma MarkedPendingHolds(d: Db, e: Db, p: Pending)
    requires MarksKept(d, e) && PendingHolds(d, p)
    ensures PendingHolds(e, p)
  {
  }

  lemma MarkedTablesHold(d: Db, e: Db, pending: map<Session, Pending>, rest: map<Session, Pending>, shown: Option<Shown>)
    requires MarksKept(d, e) && LoginsHold(State(d, pending, None))
    requires forall s :: s in rest ==> s in pending && rest[s] == pending[s]
    requires shown.Some? ==> GoneExactly(d, shown.value.gone, shown.value.user.id)
    ensures LoginsHold(State(e, rest, shown))
  {
    forall s | s in rest ensures PendingHolds(e, rest[s]) {
      MarkedPendingHolds(d, e, pending[s]);
    }
  }

  lemma FinishHolds(cfg: Config, known: set<string>, st: State, a: Action)
    requires LoginsHold(st) && Enabled(cfg, known, st, a) && a.Finish?
    ensures LoginsHold(Apply(cfg, known, st, a))
  {
    var p, t := st.pending[a.s], Apply(cfg, known, st, a);
    SettleKeepsMarks(cfg, st.db, p.claims, p.user, p.interactive, a.fails);
    FinishShowsActive(cfg, st.db, p.claims, p.user, p.interactive, a.fails);
    assert PendingHolds(st.db, p);
    MarkedTablesHold(st.db, t.db, st.pending, t.pending, t.shown);
  }

  lemma CreateHolds(cfg: Config, known: set<string>, st: State, a: Action)
    requires LoginsHold(st) && Enabled(cfg, known, st, a) && a.Create?
    ensures LoginsHold(Apply(cfg, known, st, a))
  {
    var p, t := st.pending[a.s], Apply(cfg, known, st, a);
    CreateKeepsMarks(cfg, st.db, p, a.w);
    CreateShowsActive(cfg, st.db, p, a.w);
    forall s | s in t.pending ensures PendingHolds(t.db, t.pending[s]) {
      OthersSurviveCreation(cfg, st.db, p, a.w, st.pending[s]);
    }
  }

  lemma DeletionHolds(st: State, id: Id)
    requires LoginsHold(st) && id in st.db.users
    ensures LoginsHold(State(Delete(st.db, id), Noticed(st.pending, id), None))
  {
    var e := Delete(st.db, id);
    forall s | s in st.pending ensures PendingHolds(e, st.pending[s].(gone := st.pending[s].gone + {id})) {
      assert PendingHolds(st.db, st.pending[s]);
    }
  }

  lemma StepHolds(cfg: Config, known: set<string>, st: State, a: Action)
    requires LoginsHold(st) && Enabled(cfg, known, st, a)
    ensures LoginsHold(Apply(cfg, known, st, a))
  {
    match a
    case Load(_, _, _) =>
    case Miss(_, _, _) =>
    case Finish(_, _) => FinishHolds(cfg, known, st, a);
    case Create(_, _) => CreateHolds(cfg, known, st, a);
    case Abandon(s) => MarkedTablesHold(st.db, st.db, st.pending, st.pending - {s}, None);
    case AssignRole(id, role) => MarkedTablesHold(st.db, UpdateRole(st.db, id, role), st.pending, st.pending, None);
    case SoftDelete(id) => DeletionHolds(st, id);
  }

  lemma {:induction false} RunHolds(cfg: Config, known: set<string>, start: State, actions: List<Action>)
    requires Initial(start) && After(cfg, known, start, actions).Some?
    ensures LoginsHold(After(cfg, known, start, actions).value)
  {
    if actions.Cons? {
      RunHolds(cfg, known, start, actions.tail);
      StepHolds(cfg, known, After(cfg, known, start, actions.tail).value, actions.head);
    }
  }

  /** In every run from any tables, whatever deleted users they bind: a user that a login
      surfaces is active unless, and exactly unless, that user was deleted after the
      look-up of this very login. */
  lemma ShownUnlessDeleted(cfg: Config, known: set<string>, start: State, actions: List<Action>, st: State)
    requires Initial(start) && After(cfg, known, start, actions) == Some(st) && st.shown.Some?
    ensures ActiveRow(st.db, st.shown.value.user.id) <==> st.shown.value.user.id !in st.shown.value.gone
  {
    RunHolds(cfg, known, start, actions);
  }

  /** Such a login exists: every one that passes without its row, by a deletion between
      its look-up and its end. */
  lemma DeletedCanBeShown(cfg: Config, known: set<string>, claims: Claims, user: User, interactive: bool, fails: bool)
    returns (start: State, actions: List<Action>, st: State)
    requires !user.deleted && PassesWithoutRow(cfg, claims, user, interactive, fails)
    ensures Initial(start) && After(cfg, known, start, actions) == Some(st)
    ensures st.shown.Some? && st.shown.value.user.id == user.id && IsDeleted(st.db, user.id)
  {
    start := State(Db(map[user.id := user], map[], map[(claims.issuer, claims.subject) := user.id]), map[], None);
    var load, delete, finish := Load(0, claims, interactive), SoftDelete(user.id), Finish(0, fails);
    var loaded := Apply(cfg, known, start, load);
    var deleted := Apply(cfg, known, loaded, delete);
    assert deleted.pending[0] == Loaded(claims, interactive, {user.id}, user);
    FinishShowsActive(cfg, deleted.db, claims, user, interactive, fails);
    SettleKeepsMarks(cfg, deleted.db, claims, user, interactive, fails);
    st := Apply(cfg, known, deleted, finish);
    actions := Cons(finish, Cons(delete, Cons(load, Nil)));
    assert After(cfg, known, start, Cons(load, Nil)) == Some(loaded);
    assert After(cfg, known, start, Cons(delete, Cons(load, Nil))) == Some(deleted);
  }

  /** So does a creation that loses its race to one whose user is deleted before it ends. */
  lemma LostRaceCanShowDeleted(cfg: Config, known: set<string>, claims: Claims, interactive: bool, w: World)
    returns (start: State, actions: List<Action>, st: State)
    requires cfg.jitEnabled && JitResolve(cfg, Db(map[], map[], map[]), claims, interactive, w).result.Surface?
    ensures Initial(start) && After(cfg, known, start, actions) == Some(st)
    ensures st.shown.Some? && IsDeleted(st.db, st.shown.value.user.id)
  {
    start := State(Db(map[], map[], map[]), map[], None);
    var first, second := Miss(0, claims, interactive), Miss(1, claims, interactive);
    var missed := Apply(cfg, known, Apply(cfg, known, start, first), second);
    JitGates(cfg, start.db, claims, interactive, w);
    var won := Apply(cfg, known, missed, Create(1, w));
    var deleted := Apply(cfg, known, won, SoftDelete(w.freshId));
    assert deleted.pending[0] == Missed(claims, interactive, {w.freshId});
    assert deleted.db.bindings[(claims.issuer, claims.subject)] == w.freshId;
    st := Apply(cfg, known, deleted, Create(0, w));
    var before := Cons(second, Cons(first, Nil));
    assert After(cfg, known, start, Cons(first, Nil)) == Some(Apply(cfg, known, start, first));
    assert After(cfg, known, start, before) == Some(missed);
    assert After(cfg, known, start, Cons(Create(1, w), before)) == Some(won);
    assert After(cfg, known, start, Cons(SoftDelete(w.freshId), Cons(Create(1, w), before))) == Some(deleted);
    actions := Cons(Create(0, w), Cons(SoftDelete(w.freshId), Cons(Create(1, w), before)));
  }
}
