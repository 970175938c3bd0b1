/** OIDC identities: role derivation, display-name reconciliation, login
    synchronisation and just-in-time creation (internal/auth/loginsync.go,
    internal/auth/identitystore.go). */
module LoginSync {
  import opened Wrappers
  import opened Text
  import opened Users

  /** A raw JSON claim as the two decoding attempts of matchClaimValue see it;
      null decodes into a string without error and leaves it empty. */
  datatype Json = Str(s: string) | Strings(elems: seq<string>) | Null | OtherJson

  datatype Mapping = Mapping(claim: string, value: string, role: string)

  datatype Claims = Claims(issuer: string, subject: string, name: string, email: string, raw: map<string, Json>)

  datatype Config = Config(
    jitEnabled: bool, jitDefaultRole: string, mappings: map<string, seq<Mapping>>,
    allowlist: set<string>, loginSyncEnabled: bool)
  {
    function MappingsOf(issuer: string): seq<Mapping> {
      if issuer in mappings then mappings[issuer] else []
    }
  }

  predicate MatchClaimValue(raw: Json, target: string) {
    match raw
    case Str(s) => s == target
    case Null => target == ""
    case Strings(elems) => target in elems
    case OtherJson => false
  }

  predicate RuleMatches(raw: map<string, Json>, m: Mapping) {
    m.claim in raw && MatchClaimValue(raw[m.claim], m.value)
  }

  /** i is the first rule that the claims match. */
  predicate FirstMatch(raw: map<string, Json>, rules: seq<Mapping>, i: nat) {
    i < |rules| && RuleMatches(raw, rules[i]) && forall j :: 0 <= j < i ==> !RuleMatches(raw, rules[j])
  }

  predicate NoMatch(raw: map<string, Json>, rules: seq<Mapping>) {
    forall i :: 0 <= i < |rules| ==> !RuleMatches(raw, rules[i])
  }

  /** The role of the first rule that matches, or "". */
  function ApplyClaimsMapping(raw: map<string, Json>, rules: seq<Mapping>): (role: string)
    ensures forall i: nat :: FirstMatch(raw, rules, i) ==> role == rules[i].role
    ensures NoMatch(raw, rules) ==> role == ""
    ensures role != "" ==> exists i: nat :: FirstMatch(raw, rules, i)
  {
    if rules == [] then ""
    else if RuleMatches(raw, rules[0]) then
      assert FirstMatch(raw, rules, 0);
      rules[0].role
    else
      var role := ApplyClaimsMapping(raw, rules[1..]);
      assert forall i: nat :: FirstMatch(raw, rules[1..], i) ==> FirstMatch(raw, rules, i + 1);
      assert forall i: nat :: FirstMatch(raw, rules, i) ==> i > 0 && FirstMatch(raw, rules[1..], i - 1);
      role
  }

  function DefaultRole(cfg: Config): string {
    if cfg.jitDefaultRole == "" then READER else cfg.jitDefaultRole
  }

  /** No mappings leave the role alone; a match assigns its role; mappings without
      a match fall to the default. */
  function ResolveLoginRole(rules: seq<Mapping>, raw: map<string, Json>, current: string, default_: string): (string, bool) {
    if rules == [] then (current, false)
    else
      var matched := ApplyClaimsMapping(raw, rules);
      if matched != "" then (matched, matched != current)
      else
        var floor := if default_ == "" then READER else default_;
        (floor, floor != current)
  }

  /** The three rules apart: without mappings nobody is demoted; with mappings the
      role depends on the claims alone, as that of the first matching rule or, when
      that names no role or none matches, the default; and a change is reported exactly when there is one. */
  lemma LoginRoleExact(rules: seq<Mapping>, raw: map<string, Json>, current: string, default_: string)
    ensures var (role, changed) := ResolveLoginRole(rules, raw, current, default_);
            && (changed <==> role != current)
            && (rules == [] ==> role == current)
            && (rules != [] ==> forall other :: ResolveLoginRole(rules, raw, other, default_).0 == role)
            && (forall i: nat :: FirstMatch(raw, rules, i) && rules[i].role != "" ==> role == rules[i].role)
            && (rules != [] && (NoMatch(raw, rules) || exists i: nat :: FirstMatch(raw, rules, i) && rules[i].role == "") ==>
                  role == if default_ == "" then READER else default_)
            && (role == "" ==> rules == [] && current == "")
  {
  }

  predicate IsPromotion(current: string, next: string) {
    RoleLessThan(current, next)
  }

  function ReconcileDisplayName(user: User, claims: Claims): (string, bool) {
    if user.displayName == claims.subject && claims.name != "" && claims.name != user.displayName
    then (claims.name, true) else (user.displayName, false)
  }

  function Lower(s: string): string {
    seq(|s|, i requires 0 <= i < |s| => if 'A' <= s[i] <= 'Z' then s[i] - 'A' + 'a' else s[i])
  }

  function LastIndexByte(s: string, c: char): (i: int)
    ensures -1 <= i < |s| && (i >= 0 ==> s[i] == c)
    ensures forall k :: i < k < |s| ==> s[k] != c
  {
    if s == [] then -1
    else if s[|s| - 1] == c then |s| - 1
    else LastIndexByte(s[..|s| - 1], c)
  }

  function EmailDomain(email: string): string {
    var i := LastIndexByte(email, '@');
    if i < 0 || i == |email| - 1 then "" else Lower(email[i + 1..])
  }

  /** What follows the last at sign, in lower case; nothing without one. */
  lemma EmailDomainExact(local: string, domain: string)
    requires !Contains(domain, '@')
    ensures EmailDomain(local + ['@'] + domain) == Lower(domain)
    ensures EmailDomain(domain) == ""
  {
    var email := local + ['@'] + domain;
    var i := LastIndexByte(email, '@');
    assert email[|local|] == '@';
    assert forall k :: |local| < k < |email| ==> email[k] == domain[k - |local| - 1];
    assert i == |local| && email[i + 1..] == domain;
    assert LastIndexByte(domain, '@') == -1;
  }

  predicate DomainAllowed(cfg: Config, email: string) {
    EmailDomain(email) != "" && EmailDomain(email) in cfg.allowlist
  }

  // ---------------------------------------------------------------- writes

  datatype WriteError = NoActiveRow | WriteFailed

  predicate ActiveRow(db: Db, id: Id) {
    id in db.users && !db.users[id].deleted
  }

  /** One UPDATE guarded by deleted_at IS NULL: all three fields or nothing. */
  function UpdateUserOnLogin(db: Db, id: Id, name: string, email: string, role: string, fails: bool)
    : (Option<WriteError>, Db)
  {
    if fails then (Some(WriteFailed), db)
    else if !ActiveRow(db, id) then (Some(NoActiveRow), db)
    else (None, db.(users := db.users[id := db.users[id].(displayName := name, email := email, role := role)]))
  }

  function UpdateDisplayNameOnLogin(db: Db, id: Id, name: string, fails: bool): (Option<WriteError>, Db) {
    if fails then (Some(WriteFailed), db)
    else if !ActiveRow(db, id) then (Some(NoActiveRow), db)
    else (None, db.(users := db.users[id := db.users[id].(displayName := name)]))
  }

  // ---------------------------------------------------------------- login sync

  /** What a login leads to: the user to surface or an error, the tables after it,
      the number of writes tried, and whether a wanted write failed. */
  datatype Outcome = Outcome(result: Surfaced, db: Db, attempts: nat, missed: bool)
  datatype Surfaced = Surface(user: User) | Deny(error: AuthError)

  function NewEmail(claims: Claims, user: User): string {
    if claims.email != "" then claims.email else user.email
  }

  predicate AllowlistRefuses(cfg: Config, claims: Claims) {
    cfg.allowlist != {} && claims.email != "" && !DomainAllowed(cfg, claims.email)
  }

  /** The row the claims ask for. */
  function Target(cfg: Config, claims: Claims, user: User, newName: string, nameChanged: bool): User {
    user.(displayName := if nameChanged then newName else user.displayName,
          email := NewEmail(claims, user),
          role := ResolveLoginRole(cfg.MappingsOf(claims.issuer), claims.raw, user.role, cfg.jitDefaultRole).0)
  }

  /** The single write of applyLoginSync and the classification of its failure. */
  function PersistLogin(user: User, name: string, newEmail: string, newRole: string, changed: bool, db: Db, fails: bool): Outcome {
    var (err, next) := UpdateUserOnLogin(db, user.id, name, newEmail, newRole, fails);
    match err
    case Some(NoActiveRow) => Outcome(Deny(Unauthenticated), next, 1, true)
    case Some(WriteFailed) =>
      if !changed || IsPromotion(user.role, newRole) then Outcome(Surface(user), next, 1, true)
      else Outcome(Deny(Transient), next, 1, true)
    case None =>
      Outcome(Surface(user.(displayName := name, email := newEmail, role := newRole)), next, 1, false)
  }

  /** applyLoginSync on the loaded user; the tables may have moved on since. */
  function SyncLogin(cfg: Config, claims: Claims, user: User, newName: string, nameChanged: bool, db: Db, fails: bool): Outcome {
    if AllowlistRefuses(cfg, claims) then Outcome(Deny(Unauthenticated), db, 0, false)
    else
      var (newRole, changed) := ResolveLoginRole(cfg.MappingsOf(claims.issuer), claims.raw, user.role, cfg.jitDefaultRole);
      var newEmail := NewEmail(claims, user);
      if newEmail == user.email && newRole == user.role && !nameChanged then Outcome(Surface(user), db, 0, false)
      else
        PersistLogin(user, if nameChanged then newName else user.displayName, newEmail, newRole, changed, db, fails)
  }

  /** All or nothing: a denied or failed sync leaves every row as it was, and the
      caller sees the loaded user; a write sets exactly the three login fields of
      this row, and the caller sees what is stored. */
  lemma SyncAllOrNothing(cfg: Config, claims: Claims, user: User, newName: string, nameChanged: bool, db: Db, fails: bool)
    requires nameChanged ==> newName != user.displayName
    ensures var o := SyncLogin(cfg, claims, user, newName, nameChanged, db, fails);
            var want := Target(cfg, claims, user, newName, nameChanged);
            && (o.result.Deny? || o.missed || o.attempts == 0 ==> o.db == db)
            && (o.result.Surface? && (o.missed || o.attempts == 0) ==> o.result.user == user)
            && (o.attempts == 1 && !o.missed ==>
                  && o.result == Surface(want) && ActiveRow(db, user.id)
                  && o.db == db.(users := db.users[user.id :=
                       db.users[user.id].(displayName := want.displayName, email := want.email, role := want.role)])
                  && (db.users[user.id] == user ==> o.db.users[user.id] == want))
            && (o.attempts == 0 && o.result.Surface? ==> want == user)
  {
  }

  /** Exactly when a sync is denied, and with which error. */
  lemma SyncDenials(cfg: Config, claims: Claims, user: User, newName: string, nameChanged: bool, db: Db, fails: bool)
    requires nameChanged ==> newName != user.displayName
    ensures var o := SyncLogin(cfg, claims, user, newName, nameChanged, db, fails);
            var want := Target(cfg, claims, user, newName, nameChanged);
            && (o.result == Deny(Unauthenticated) <==>
                  AllowlistRefuses(cfg, claims) || (want != user && !fails && !ActiveRow(db, user.id)))
            && (o.result == Deny(Transient) <==>
                  !AllowlistRefuses(cfg, claims) && fails && want.role != user.role && !RoleLessThan(user.role, want.role))
  {
  }

  /** A surfaced role is the mapped one or a strictly lower built-in. */
  lemma SyncNeverEscalates(cfg: Config, claims: Claims, user: User, newName: string, nameChanged: bool, db: Db, fails: bool)
    ensures var o := SyncLogin(cfg, claims, user, newName, nameChanged, db, fails);
            var want := Target(cfg, claims, user, newName, nameChanged);
            o.result.Surface? ==> o.result.user.role == want.role || RoleLessThan(o.result.user.role, want.role)
  {
  }

  // ---------------------------------------------------------------- just-in-time creation and the whole login

  /** What the outside world answers during one login. */
  datatype World = World(bindingFails: bool, userFails: bool, writeFails: bool, jitFails: bool, rateAllows: bool, freshId: Id)

  function JitRole(cfg: Config, claims: Claims): string {
    var mapped := ApplyClaimsMapping(claims.raw, cfg.MappingsOf(claims.issuer));
    if mapped != "" then mapped else DefaultRole(cfg)
  }

  /** User and binding in one transaction; a lost race returns the winner's user. */
  function JitCreateHuman(db: Db, claims: Claims, user: User, fails: bool): Outcome {
    var key := (claims.issuer, claims.subject);
    if fails then Outcome(Deny(Transient), db, 1, true)
    else if key in db.bindings then
      if db.bindings[key] in db.users then Outcome(Surface(db.users[db.bindings[key]]), db, 1, false)
      else Outcome(Deny(Transient), db, 1, true)
    else if user.id in db.users then Outcome(Deny(Transient), db, 1, true)
    else Outcome(Surface(user), db.(users := db.users[user.id := user], bindings := db.bindings[key := user.id]), 1, false)
  }

  function JitResolve(cfg: Config, db: Db, claims: Claims, interactive: bool, w: World): Outcome {
    if cfg.allowlist != {} && !DomainAllowed(cfg, claims.email) then Outcome(Deny(Unauthenticated), db, 0, false)
    else if !interactive && !w.rateAllows then Outcome(Deny(Unauthenticated), db, 0, false)
    else
      var name := if claims.name != "" then claims.name else claims.subject;
      JitCreateHuman(db, claims, User(w.freshId, name, claims.email, JitRole(cfg, claims), false, false), w.jitFails)
  }

  /** The tail of a login for a loaded user: sync, or the name-only write. */
  function Settle(cfg: Config, db: Db, claims: Claims, user: User, interactive: bool, fails: bool): Outcome {
    var (newName, nameChanged) := ReconcileDisplayName(user, claims);
    if cfg.loginSyncEnabled && interactive then SyncLogin(cfg, claims, user, newName, nameChanged, db, fails)
    else if nameChanged then
      var (err, next) := UpdateDisplayNameOnLogin(db, user.id, newName, fails);
      match err
      case Some(NoActiveRow) => Outcome(Deny(Unauthenticated), next, 1, true)
      case Some(WriteFailed) => Outcome(Surface(user), next, 1, true)
      case None => Outcome(Surface(user.(displayName := newName)), next, 1, false)
    else Outcome(Surface(user), db, 0, false)
  }

  function Login(cfg: Config, db: Db, claims: Claims, interactive: bool, w: World): Outcome {
    var key := (claims.issuer, claims.subject);
    if w.bindingFails then Outcome(Deny(Transient), db, 0, false)
    else if key !in db.bindings then
      if cfg.jitEnabled then JitResolve(cfg, db, claims, interactive, w)
      else Outcome(Deny(Unauthenticated), db, 0, false)
    else if w.userFails then Outcome(Deny(Transient), db, 0, false)
    else if !ActiveRow(db, db.bindings[key]) then Outcome(Deny(Unauthenticated), db, 0, false)
    else Settle(cfg, db, claims, db.users[db.bindings[key]], interactive, w.writeFails)
  }

  function OidcIdentity(claims: Claims, user: User): Identity {
    Identity(user.id, "oidc:" + claims.subject, user.displayName, user.email, user.role, user.role, "oidc", claims.issuer)
  }

  ghost predicate RowsNamed(db: Db) {
    forall id :: id in db.users ==> db.users[id].id == id
  }

  /** After a successful login the same login again changes nothing, tries no write and
      surfaces the same user, unless a write that the first one wanted failed; then it
      is tried again. Either may be interactive or not, except that a syncing second
      login needs a first one that synced, or that created the user. */
  lemma LoginFixpoint(cfg: Config, db: Db, claims: Claims, first: bool, second: bool, w: World, again: World)
    requires RowsNamed(db) && Login(cfg, db, claims, first, w).result.Surface?
    requires !again.bindingFails && !again.userFails
    requires cfg.loginSyncEnabled && second && !first ==> (claims.issuer, claims.subject) !in db.bindings
    ensures var o := Login(cfg, db, claims, first, w);
            var o2 := Login(cfg, o.db, claims, second, again);
            && (!o.missed ==> o2 == Outcome(o.result, o.db, 0, false))
            && (o.missed ==> o.db == db && (first == second || !cfg.loginSyncEnabled ==> o2.attempts == 1))
  {
    var o := Login(cfg, db, claims, first, w);
    var key := (claims.issuer, claims.subject);
    if key !in db.bindings {
      assert o.db.bindings[key] == w.freshId;
    } else {
      SettleFixpoint(cfg, db, claims, db.users[db.bindings[key]], first, second, w.writeFails, again.writeFails);
    }
  }

  lemma SettleFixpoint(cfg: Config, db: Db, claims: Claims, user: User, first: bool, second: bool, fails: bool, again: bool)
    requires ActiveRow(db, user.id) && db.users[user.id] == user
    requires Settle(cfg, db, claims, user, first, fails).result.Surface?
    requires cfg.loginSyncEnabled && second ==> first
    ensures var o := Settle(cfg, db, claims, user, first, fails);
            && ActiveRow(o.db, user.id) && o.db.bindings == db.bindings
            && var o2 := Settle(cfg, o.db, claims, o.db.users[user.id], second, again);
               && (!o.missed ==> o2 == Outcome(o.result, o.db, 0, false))
               && (o.missed ==> o.db == db && (first == second || !cfg.loginSyncEnabled ==> o2.attempts == 1))
  {
    var o := Settle(cfg, db, claims, user, first, fails);
    SettleShowsStored(cfg, db, claims, user, first, fails);
    if !o.missed {
      NothingLeft(cfg, claims, user, db, first, fails, second, again);
    } else if cfg.loginSyncEnabled && first {
      var (newName, nameChanged) := ReconcileDisplayName(user, claims);
      SyncAllOrNothing(cfg, claims, user, newName, nameChanged, db, fails);
      SyncAllOrNothing(cfg, claims, user, newName, nameChanged, db, again);
    }
  }

  /** What a login wrote in full leaves nothing to reconcile or to sync. */
  lemma NothingLeft(cfg: Config, claims: Claims, user: User, db: Db, first: bool, fails: bool, second: bool, again: bool)
    requires ActiveRow(db, user.id) && db.users[user.id] == user
    requires var o := Settle(cfg, db, claims, user, first, fails); o.result.Surface? && !o.missed
    requires cfg.loginSyncEnabled && second ==> first
    ensures var o := Settle(cfg, db, claims, user, first, fails);
            Settle(cfg, o.db, claims, o.result.user, second, again) == Outcome(o.result, o.db, 0, false)
  {
    var (newName, nameChanged) := ReconcileDisplayName(user, claims);
    var o := Settle(cfg, db, claims, user, first, fails);
    if cfg.loginSyncEnabled && first {
      SyncAllOrNothing(cfg, claims, user, newName, nameChanged, db, fails);
      assert o.result.user == Target(cfg, claims, user, newName, nameChanged);
    }
    assert !ReconcileDisplayName(o.result.user, claims).1;
  }

  /** A refused or failed creation stores nothing; a user is only created after both
      gates, as one row and one binding, with the derived role and the best name. */
  lemma JitGates(cfg: Config, db: Db, claims: Claims, interactive: bool, w: World)
    requires (claims.issuer, claims.subject) !in db.bindings
    ensures var o := JitResolve(cfg, db, claims, interactive, w);
            var row := User(w.freshId, if claims.name == "" then claims.subject else claims.name, claims.email,
                            JitRole(cfg, claims), false, false);
            && (o.result.Deny? ==> o.db == db)
            && (o.result.Surface? <==>
                  && (cfg.allowlist == {} || DomainAllowed(cfg, claims.email))
                  && (interactive || w.rateAllows) && !w.jitFails && w.freshId !in db.users)
            && (o.result.Surface? ==>
                  && o.result.user == row
                  && o.db == Db(db.users[row.id := row], db.keys, db.bindings[(claims.issuer, claims.subject) := row.id]))
  {
  }

  /** Whole logins are all or nothing: a denied one stores nothing, a surfaced user is
      active and exactly what is stored, and no other row changes. */
  lemma LoginShowsStored(cfg: Config, db: Db, claims: Claims, interactive: bool, w: World)
    requires RowsNamed(db)
    ensures var o := Login(cfg, db, claims, interactive, w);
            && (o.result.Deny? ==> o.db == db)
            && (o.result.Surface? ==>
                  && ActiveRow(o.db, o.result.user.id) && o.db.users[o.result.user.id] == o.result.user
                  && forall id :: id != o.result.user.id ==>
                       (id in o.db.users <==> id in db.users) && (id in db.users ==> o.db.users[id] == db.users[id]))
  {
    var key := (claims.issuer, claims.subject);
    if key !in db.bindings {
      JitGates(cfg, db, claims, interactive, w);
    } else if ActiveRow(db, db.bindings[key]) {
      SettleShowsStored(cfg, db, claims, db.users[db.bindings[key]], interactive, w.writeFails);
    }
  }

  lemma SettleShowsStored(cfg: Config, db: Db, claims: Claims, user: User, interactive: bool, fails: bool)
    requires ActiveRow(db, user.id) && db.users[user.id] == user
    ensures var o := Settle(cfg, db, claims, user, interactive, fails);
            && (o.result.Deny? ==> o.db == db)
            && (o.result.Surface? ==> o.result.user.id == user.id && o.db == db.(users := db.users[user.id := o.result.user])
                                      && !o.result.user.deleted)
  {
    var (newName, nameChanged) := ReconcileDisplayName(user, claims);
    if cfg.loginSyncEnabled && interactive {
      SyncAllOrNothing(cfg, claims, user, newName, nameChanged, db, fails);
    }
    assert db.users[user.id := user] == db.users;
  }

  // ---------------------------------------------------------------- who gets in

  predicate Unbound(db: Db, claims: Claims) {
    (claims.issuer, claims.subject) !in db.bindings
  }

  /** Both gates of a creation. */
  predicate GatesPass(cfg: Config, claims: Claims, interactive: bool, w: World) {
    && (cfg.allowlist == {} || (EmailDomain(claims.email) != "" && EmailDomain(claims.email) in cfg.allowlist))
    && (interactive || w.rateAllows)
  }

  /** The email claim of a syncing login is outside the allowlist. */
  predicate EmailRefused(cfg: Config, claims: Claims) {
    && cfg.allowlist != {} && claims.email != ""
    && (EmailDomain(claims.email) == "" || EmailDomain(claims.email) !in cfg.allowlist)
  }

  /** The role that a syncing login wants, and whether losing it must deny the login. */
  predicate MustWrite(cfg: Config, claims: Claims, row: User) {
    var role := ResolveLoginRole(cfg.MappingsOf(claims.issuer), claims.raw, row.role, cfg.jitDefaultRole).0;
    role != row.role && !Below(row.role, role)
  }

  /** Whether a login gets in. */
  predicate Admitted(cfg: Config, db: Db, claims: Claims, interactive: bool, w: World) {
    && !w.bindingFails
    && if Unbound(db, claims) then
         cfg.jitEnabled && GatesPass(cfg, claims, interactive, w) && !w.jitFails && w.freshId !in db.users
       else
         var id := db.bindings[(claims.issuer, claims.subject)];
         && !w.userFails && id in db.users && !db.users[id].deleted
         && (cfg.loginSyncEnabled && interactive ==>
               !EmailRefused(cfg, claims) && !(w.writeFails && MustWrite(cfg, claims, db.users[id])))
  }

  /** Whether a login that does not get in may be tried again. */
  predicate Retryable(cfg: Config, db: Db, claims: Claims, interactive: bool, w: World) {
    || w.bindingFails
    || if Unbound(db, claims) then
         cfg.jitEnabled && GatesPass(cfg, claims, interactive, w) && (w.jitFails || w.freshId in db.users)
       else
         var id := db.bindings[(claims.issuer, claims.subject)];
         || w.userFails
         || (id in db.users && !db.users[id].deleted && cfg.loginSyncEnabled && interactive
             && !EmailRefused(cfg, claims) && w.writeFails && MustWrite(cfg, claims, db.users[id]))
  }

  /** The row that a login leaves, when its write works: a name that was only the subject
      is replaced by the claimed one, and a syncing login takes over email and role. */
  function LeftBy(cfg: Config, claims: Claims, row: User, syncs: bool): User {
    User(row.id,
         if row.displayName == claims.subject && claims.name != "" then claims.name else row.displayName,
         if syncs && claims.email != "" then claims.email else row.email,
         if syncs then ResolveLoginRole(cfg.MappingsOf(claims.issuer), claims.raw, row.role, cfg.jitDefaultRole).0 else row.role,
         row.bootstrap, row.deleted)
  }

  /** The row of a created user. */
  ghost predicate CreatedRow(cfg: Config, claims: Claims, id: Id, row: User) {
    && row == User(id, if claims.name == "" then claims.subject else claims.name, claims.email, row.role, false, false)
    && (forall i: nat :: FirstMatch(claims.raw, cfg.MappingsOf(claims.issuer), i) && cfg.MappingsOf(claims.issuer)[i].role != "" ==>
          row.role == cfg.MappingsOf(claims.issuer)[i].role)
    && (NoMatch(claims.raw, cfg.MappingsOf(claims.issuer))
        || (exists i: nat :: FirstMatch(claims.raw, cfg.MappingsOf(claims.issuer), i) && cfg.MappingsOf(claims.issuer)[i].role == "") ==>
          row.role == if cfg.jitDefaultRole == "" then "reader" else cfg.jitDefaultRole)
  }

  /** What a login comes to: the tables before and after, the answer and the number of
      writes tried. */
  ghost predicate LoginLaw(cfg: Config, db: Db, claims: Claims, interactive: bool, w: World, r: Resolved, after: Db, tries: nat) {
    var key := (claims.issuer, claims.subject);
    && (r.Authenticated? <==> Admitted(cfg, db, claims, interactive, w))
    && (r == Denied(Transient) <==> Retryable(cfg, db, claims, interactive, w))
    && r != Panicked
    && (!r.Authenticated? ==> after == db)
    && (Unbound(db, claims) && !cfg.jitEnabled ==> after == db && tries == 0)
    && (r.Authenticated? ==>
          && key in after.bindings && after.bindings[key] in after.users
          && IdentityFits(r.identity, claims, after.users[after.bindings[key]]))
    && (r.Authenticated? && Unbound(db, claims) ==>
          && tries == 1 && w.freshId in after.users && CreatedRow(cfg, claims, w.freshId, after.users[w.freshId])
          && after == Db(db.users[w.freshId := after.users[w.freshId]], db.keys, db.bindings[key := w.freshId]))
    && (r.Authenticated? && !Unbound(db, claims) ==>
          var id := db.bindings[key];
          var left := LeftBy(cfg, claims, db.users[id], cfg.loginSyncEnabled && interactive);
          && tries == (if left == db.users[id] then 0 else 1)
          && after == if w.writeFails then db else db.(users := db.users[id := left]))
  }

  /** The identity is that of the stored row, without a cap. */
  predicate IdentityFits(i: Identity, claims: Claims, row: User) {
    && i.userId == row.id && i.displayName == row.displayName && i.email == row.email
    && i.role == row.role && i.effectiveRole == row.role
    && i.subject == "oidc:" + claims.subject && i.source == "oidc" && i.issuer == claims.issuer
  }

  function Answer(claims: Claims, result: Surfaced): Resolved {
    match result
    case Surface(user) => Authenticated(OidcIdentity(claims, user))
    case Deny(e) => Denied(e)
  }

  /** The tail of a login for a stored, active row. */
  lemma SettleObeysLaw(cfg: Config, db: Db, claims: Claims, user: User, interactive: bool, fails: bool)
    requires ActiveRow(db, user.id) && db.users[user.id] == user
    ensures var o := Settle(cfg, db, claims, user, interactive, fails);
            var syncs := cfg.loginSyncEnabled && interactive;
            var left := LeftBy(cfg, claims, user, syncs);
            && (o.result.Surface? <==> !(syncs && (EmailRefused(cfg, claims) || (fails && MustWrite(cfg, claims, user)))))
            && (o.result == Deny(Transient) <==> syncs && !EmailRefused(cfg, claims) && fails && MustWrite(cfg, claims, user))
            && (o.result.Deny? ==> o.db == db)
            && (o.result.Surface? ==>
                  && o.attempts == (if left == user then 0 else 1)
                  && o.db == (if fails then db else db.(users := db.users[user.id := left]))
                  && o.result.user == if fails then user else left)
  {
    var (newName, nameChanged) := ReconcileDisplayName(user, claims);
    assert db.(users := db.users[user.id := user]) == db;
    RoleOrder(user.role, ResolveLoginRole(cfg.MappingsOf(claims.issuer), claims.raw, user.role, cfg.jitDefaultRole).0);
    if cfg.loginSyncEnabled && interactive {
      SyncAllOrNothing(cfg, claims, user, newName, nameChanged, db, fails);
      SyncDenials(cfg, claims, user, newName, nameChanged, db, fails);
      assert Target(cfg, claims, user, newName, nameChanged) == LeftBy(cfg, claims, user, true);
    }
  }

  lemma CreationObeysLaw(cfg: Config, db: Db, claims: Claims, interactive: bool, w: World)
    requires Unbound(db, claims)
    ensures var o := JitResolve(cfg, db, claims, interactive, w);
            && (o.result.Surface? <==> GatesPass(cfg, claims, interactive, w) && !w.jitFails && w.freshId !in db.users)
            && (o.result == Deny(Transient) <==> GatesPass(cfg, claims, interactive, w) && (w.jitFails || w.freshId in db.users))
            && (o.result.Deny? ==> o.db == db)
            && (o.result.Surface? ==> o.attempts == 1 && CreatedRow(cfg, claims, w.freshId, o.result.user)
                                      && o.db == Db(db.users[w.freshId := o.result.user], db.keys,
                                                    db.bindings[(claims.issuer, claims.subject) := w.freshId]))
  {
    JitGates(cfg, db, claims, interactive, w);
    LoginRoleExact(cfg.MappingsOf(claims.issuer), claims.raw, "", cfg.jitDefaultRole);
  }

  lemma LoginObeysLaw(cfg: Config, db: Db, claims: Claims, interactive: bool, w: World)
    requires RowsNamed(db)
    ensures var o := Login(cfg, db, claims, interactive, w);
            LoginLaw(cfg, db, claims, interactive, w, Answer(claims, o.result), o.db, o.attempts)
  {
    var key := (claims.issuer, claims.subject);
    if Unbound(db, claims) {
      CreationObeysLaw(cfg, db, claims, interactive, w);
    } else if ActiveRow(db, db.bindings[key]) {
      SettleObeysLaw(cfg, db, claims, db.users[db.bindings[key]], interactive, w.writeFails);
    }
  }
}
