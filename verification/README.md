# SpecGraph core, verified

A Dafny model of the parts of SpecGraph where a mistake is hard to see by reading one
function: the spec linter's cycle search, the identity path (bootstrap, API keys, OIDC
logins, token introspection), import and comparison of exported projects, and three small
state machines (connect retries, the authoring funnel, conversations).

`dafny verify dfyconfig.toml` checks everything. All strings are byte strings: one `char`
is one byte. Lists named *latest first* grow at the head.

| modules | what they cover |
|---|---|
| `DependencyGraph`, `SearchMachine`, `Linter` | the recursive depth-first search, first as a machine whose every run is reasoned about, then as the method that takes exactly those steps; the verdict of a lint |
| `Text`, `Base64`, `Credentials`, `Users` | the PHC printer and parser, key tokens, token dispatch, key resolution |
| `Bootstrap`, `Ensure` | the bootstrap protocol with any number of callers, failing calls, lost replies and crashes; and the same protocol as a method under interference, each of whose calls is a step of the protocol |
| `LoginSync`, `IdentityStore` | role derivation, login synchronisation, just-in-time creation; the methods that write the rows; interleaved logins |
| `Introspection` | the cache of active answers against a log of all answers; the trial over providers |
| `Document`, `ImportPlan`, `ImportBlocks`, `ImportRun` | referential integrity, the order and content of an import, what its calls are said of the document alone, its loops with failing calls |
| `EntityKeys`, `ExportVerify` | the comparison of two documents by entity keys, and exactly when a key identifies its entity |
| `Connector`, `Funnel`, `Conversation` | retries in 64-bit arithmetic, stage histories, validation against rendering |

How the parts fit together:

- Each source function that changes state, or accumulates in a loop, is a method with the
  same branches; those that only compute a value are functions. Where the result of a method
  is best said as a function of its inputs (`SyncLogin`, `Put`, `Render`, the import plan),
  it is proved equal to it and the lemmas speak about the function.
- A backend is either a total function (the linter: any number of slugs, any of them
  missing or failing), a set of tables (identity), or a choice of failing calls (import).
  The storage contracts that are assumed are those of `internal/storage/users.go` and of the
  SQL in `internal/storage/postgres/users.go`: one active bootstrap row, unique key prefixes,
  one atomic UPDATE guarded by `deleted_at IS NULL`, user and binding in one transaction.
- The key derivation function is a parameter about which only its output length at the
  minting parameters is assumed (`Mints`).

Results that differ from what the documentation or a first reading suggests:

- `detectCycles` warns about depth only when its own walk, not the longest path, passes
  1000 edges. A passed lint is exact for every graph and also means that everything
  reachable is at most 1000 edges away; the converse holds for graphs without a path of
  more than 1000 edges (`LintSpec`).
- Callers of `Ensure` converge on one user but not on one key: a caller that looks between
  the creation of the user and of its key mints a second one, and both return a token
  (`TwoTokensPossible`). Once the user has a key this depends on the callers that are
  already minting, and on nothing else (`SecondTokenExactly`).
- The capped doubling of the backoff is exact for all sleeps if and only if the base is
  zero, or positive with a cap below 2^62 nanoseconds (`BackoffExactlyBelow`).
- Stored roles stay within the known ones if and only if the default role is known or can
  never be given; `reader` is needed only where it is that default (`RolesClosedExactly`).
- An edge key identifies its edge if and only if no field holds a bar, the type included
  (`EdgeKeyExactly`); the keys joined with a slash have conditions of their own, which the
  slugs that the service admits can break, since they may hold a slash
  (`internal/server/validation.go:15`).
- A login surfaces a deleted user exactly when that user was deleted after the login's own
  look-up (`ShownUnlessDeleted`), which happens when its write is not needed or its failure
  is tolerated, or when a creation loses its race to a user deleted since
  (`FinishShowsActive`, `CreateShowsActive`, with runs in `DeletedCanBeShown` and
  `LostRaceCanShowDeleted`). A deletion before the look-up always denies.
- The stage chain of an import reaches the exported stage from `decompose`; stages up to
  `decompose` are left to the stored outputs (`StageRestored`).

## Model

| member | source | states |
|---|---|---|
| DependencyGraph.FinishOrderMarksCycles | internal/linter/linter.go:161-222 | when every edge leads to a node that finished earlier or that is marked, every cycle meets a mark, at the latest where the first of its nodes to finish leads on; without marks there is no cycle |
| SearchMachine.StackInvariant | internal/linter/linter.go:157-219 | in every run `inStack` is a repetition-free dependency walk from the root through visited slugs |
| SearchMachine.ReportsSound | internal/linter/linter.go:161-211 | every `graph.cycle` error names a reachable slug on a real non-empty cycle, every depth warning the end of a walk of 1001 edges, every `graph.missing_node` a reachable slug that does not exist, and a storage error a look-up that failed |
| SearchMachine.AccountedInvariant | internal/linter/linter.go:170-219 | every visited slug is on the stack, finished, or was reported as too deep |
| SearchMachine.MissingInvariant | internal/linter/linter.go:199-213 | a finished slug that does not exist was reported here or is in the dangling set; failed look-ups are never passed over |
| SearchMachine.ExploredInvariant | internal/linter/linter.go:215-219 | the edges out of finished slugs were all followed, to slugs that finished earlier or that have a report of their own |
| SearchMachine.NoRepeatsInvariant | internal/linter/linter.go:170-213 | no slug is looked up twice, a prefetched root never, and no missing slug is reported twice |
| SearchMachine.NearInvariant | internal/linter/linter.go:176-187 | every visited slug that was not cut off is at most 1000 edges from the root |
| SearchMachine.FinishedSearchIsExact | internal/linter/linter.go:148-228 | a search that ended without storage error is sound, and unless cut by depth complete: for missing slugs, and for cycles, each of which visits a slug with a `graph.cycle` error; everything reachable is then at most 1000 edges away |
| Linter.CycleSearch.constructor | internal/linter/linter.go:149-155 | the search starts with nothing visited, an empty stack and no report |
| Linter.CycleSearch.Report | internal/linter/linter.go:161-184 | the two reporting exits add exactly their violation, mark the slug visited, and are steps of the machine |
| Linter.CycleSearch.Push | internal/linter/linter.go:186-198 | entering marks and stacks the slug and answers with the prefetched list exactly for a prefetched root |
| Linter.CycleSearch.Pop | internal/linter/linter.go:199-219 | every exit after entering takes exactly this slug off the stack, with the report or captured error its reply calls for |
| Linter.CycleSearch.Follow | internal/linter/linter.go:215-217 | after the loop each dependency is finished or has a report of its own |
| Linter.CycleSearch.Dfs | internal/linter/linter.go:158-220 | terminates on every graph, restores the stack on every exit including storage errors, takes nothing back; reports a cycle exactly once per call on a stacked slug, does nothing on another visited one, cuts exactly beyond depth 1000, and leaves the slug finished or reported |
| Linter.DetectCycles | internal/linter/linter.go:148-228 | fails only for a real storage error of a reachable slug, is otherwise sound and complete for missing slugs and for the full set of cycles unless cut by depth, and repeats no look-up |
| Linter.CheckDanglingDeps | internal/linter/linter.go:117-138 | one violation per listed dependency that does not exist, in the order of the list, and the set of these; it fails exactly when some look-up fails |
| Linter.DanglingOfExact | internal/linter/linter.go:120-135 | a missing dependency is reported as often as it is listed, and nothing else is |
| Linter.SilenceMeansHealthy | internal/linter/linter.go:94-112 | no dangling and no search report means that everything reachable exists, at most 1000 edges away, and nothing reachable is on a cycle |
| Linter.AllCyclesReported | internal/linter/linter.go:146-169 | unless the search was cut by depth, every cycle of the stored graph below the root visits a slug that is reported for it |
| Linter.ErrorIsReal | internal/linter/linter.go:208-226 | a storage error of the search is a failing look-up of a slug reachable in the stored graph |
| Linter.ReportMeansTrouble | internal/linter/linter.go:94-112 | any report contradicts a healthy graph whose paths respect the limit |
| Linter.MissingReportedOnce | internal/linter/linter.go:117-228 | a missing reachable slug is never reported by both `edge.dangling_ref` and `graph.missing_node`; by the first exactly when it is a direct dependency; and by one of them unless the depth limit cut the search short |
| Linter.LintSpec | internal/linter/linter.go:83-113 | on a consistent backend the verdict is exact: passing gives the schema, existence, acyclicity and the depth bound, and these suffice when no path is longer than 1000 edges; every cycle is reported at one of its slugs unless cut by depth; on any backend an internal error means that the spec is missing or a look-up failed; the violations are those of the three rules in order |
| Text.DecimalValue | internal/auth/mint.go:58-62 | the printed numeral denotes the number |
| Text.ScanDecimal | internal/auth/identitystore.go:291-293 | scanning reads back a printed numeral in range, whatever non-digit follows |
| Text.SplitJoin | internal/auth/identitystore.go:284-288 | splitting undoes joining for parts without the separator |
| Base64.RoundTrip | internal/auth/mint.go:55-57 | the decoder undoes the unpadded encoder on all byte strings (sections 3.2 and 4 of RFC 4648) |
| Base64.Vectors | internal/auth/mint.go:55-57 | the test vectors of section 10 of RFC 4648 that need one to three bytes |
| Credentials.HexShape | internal/auth/mint.go:39-44 | a secret has two lower-case hexadecimal digits per random byte |
| Credentials.HexInjective | internal/auth/mint.go:44-44 | different random bytes give different secrets |
| Credentials.HexDigits | internal/auth/mint.go:44-44 | each byte is its high digit, then its low digit |
| Credentials.ParametersRoundTrip | internal/auth/identitystore.go:289-293 | the cost parameters come back over the full ranges of their types |
| Credentials.SplitPhc | internal/auth/identitystore.go:284-288 | a minted string splits into exactly its six parts, for all parameters, salts and hashes |
| Credentials.PhcText | internal/auth/mint.go:58-62 | the printed text, cost parameters in the order memory, time, threads |
| Credentials.AcceptedExactly | internal/auth/identitystore.go:283-304 | on any stored string, printed or not, a secret is accepted if and only if the string has six parts, names the algorithm, decodes, and holds what the KDF gives |
| Credentials.VerifyReadsPhc | internal/auth/identitystore.go:283-304 | on every printed string the verdict is the comparison of the stored key with the one derived from the same salt and parameters |
| Credentials.MintedSecretVerifies | internal/auth/mint.go:38-65 | a minted string accepts its own secret, and another one exactly when the KDF does not tell them apart |
| Credentials.MintApiKeySecret | internal/auth/mint.go:16-65 | minting fails exactly when randomness does; otherwise the secret is the hexadecimal text of the random bytes, of the length and alphabet the parser needs, hashed with the minting parameters, and verifies against the stored string |
| Credentials.ParseFormatted | internal/auth/mint.go:74-76 | parsing undoes formatting if and only if the prefix has 8 bytes without underscore and the secret 32 |
| Credentials.FormatParsed | internal/auth/identitystore.go:260-276 | every accepted token is the formatting of its parts, and these are well formed |
| Credentials.StaticCredentialsStayLocal | internal/auth/identitystore.go:201-248 | key and session tokens never reach an identity provider, whatever dots they hold; what falls through to the key resolver without its prefix is rejected |
| Credentials.DispatchExact | internal/auth/identitystore.go:201-248 | where a token goes: two dots and no static prefix to the JWT resolver, a session prefix to sessions, a key prefix to keys, the rest to introspection if there is any |
| Users.ClampNeverEscalates | internal/auth/identitystore.go:341-354 | the effective role is the lower of two built-ins, reader for incomparable ones, the owner's without a cap |
| Users.ResolveExact | internal/auth/identitystore.go:358-401 | without faults a token authenticates if and only if it names an unrevoked, unexpired key of an undeleted user and its secret verifies; the identity is that of the owner, with the owner's role without a cap, the lower of two built-ins, or reader; each fault and each refusal has its error |
| Users.RoleOrder | internal/auth/identitystore.go:306-329 | reader is below writer, writer below admin, and no other pair is ordered |
| Bootstrap.StepEvolves | internal/storage/postgres/users.go:139-187 | every step keeps stored keys, bootstrap flags and the one-bootstrap-row index |
| Bootstrap.StepKeeps | internal/bootstrap/bootstrap.go:53-138 | every step of every caller, failure, crash or other writer keeps what each caller relies on |
| Bootstrap.RunKeeps | internal/bootstrap/bootstrap.go:53-138 | the same over whole interleavings |
| Bootstrap.CallersConverge | internal/bootstrap/bootstrap.go:49-138 | at most one bootstrap user; all returning callers name it and leave it with a key; `Created` means a key of this very call; returned tokens differ and open different keys |
| Bootstrap.OpensResolves | internal/auth/identitystore.go:358-401 | a token that opens a live bootstrap key resolves to its user with the stored role |
| Bootstrap.TokensResolve | internal/bootstrap/bootstrap.go:121-138 | every returned token is dispatched to the key resolver and authenticates as the bootstrap user, at any later moment |
| Bootstrap.SoloFinishes | internal/bootstrap/bootstrap.go:53-98 | after any history of crashes an undisturbed call can finish, with a token if and only if there was no keyed bootstrap user |
| Bootstrap.SoloRecovers | internal/bootstrap/bootstrap.go:106-119 | keyless recovery mints exactly when the user has no key |
| Bootstrap.CreatedUserIsSystem | internal/bootstrap/bootstrap.go:54-74 | a bootstrap user created by a run is named admin, has no email, and the role that its creator asked for, admin by default, or that an operator set |
| Bootstrap.CreatorsRow | internal/bootstrap/bootstrap.go:69-74 | the row as it is inserted has the role that this very caller came with |
| Bootstrap.LoserFinishes | internal/bootstrap/bootstrap.go:76-86 | the loser of the creation race reads the winner again and recovers it exactly if it is keyless |
| Bootstrap.FurtherKeyExactly | internal/bootstrap/bootstrap.go:53-138 | from every reachable state, some continuation issues a further key, or returns a further token, if and only if a prefix is free and a caller is already minting or no bootstrap user has a key |
| Bootstrap.SecondTokenExactly | internal/bootstrap/bootstrap.go:106-138 | once the bootstrap user has a key, a further token can be returned if and only if some caller is minting and a prefix is free |
| Bootstrap.RunStaysQuiet | internal/bootstrap/bootstrap.go:106-118 | otherwise no continuation, with any newcomers, crashes and other writers, issues a key |
| Bootstrap.OvertakenMinter | internal/bootstrap/bootstrap.go:75-97 | the state with a keyed user and a minting caller is reachable from empty tables |
| Bootstrap.TwoTokensPossible | internal/bootstrap/bootstrap.go:75-97 | from that state the creator of the user returns a second token: convergence is on the user only |
| Ensure.AuthStore.constructor | internal/storage/postgres/users.go:142-187 | a store over given tables, with nobody in the protocol |
| Ensure.AuthStore.GetBootstrap | internal/bootstrap/bootstrap.go:62-66 | the answer is true of the tables at that moment; an error exactly on a fault |
| Ensure.AuthStore.CreateHuman | internal/storage/postgres/users.go:142-187 | inserts the system row with the role it is given, or reports an existing bootstrap row, under interference, as a step of the protocol |
| Ensure.AuthStore.ListAPIKeys | internal/storage/users.go:109-112 | tells whether the user has an unrevoked key |
| Ensure.AuthStore.InsertAPIKey | internal/storage/postgres/users.go:390-432 | the insert of an uncapped key, as a step of the protocol |
| Ensure.AuthStore.CreateAPIKey | internal/storage/postgres/users.go:390-432 | stores the key under the first free generated prefix; without faults it fails only when all three are taken |
| Ensure.AuthStore.MintBootstrapKey | internal/bootstrap/bootstrap.go:124-138 | the returned token opens a key that was not there before |
| Ensure.AuthStore.RecoverIfKeyless | internal/bootstrap/bootstrap.go:106-119 | success leaves the user with a key; a token exactly for a key of this call |
| Ensure.AuthStore.Ensure | internal/bootstrap/bootstrap.go:53-98 | the calls are those of the protocol for a caller that arrived with this role, under any interference and faults, so that all its theorems apply; success means one keyed bootstrap user and, if created, a token that resolves to it; without faults only collisions of generated values prevent success |
| LoginSync.ApplyClaimsMapping | internal/auth/identitystore.go:802-813 | the role of the first matching rule, and none exactly when no rule matches or that rule names none |
| LoginSync.LoginRoleExact | internal/auth/loginsync.go:27-39 | the three rules apart: no mappings never demote; with mappings the role depends on the claims alone; a change is reported exactly when there is one |
| LoginSync.EmailDomainExact | internal/auth/identitystore.go:792-798 | the domain is what follows the last at sign, in lower case, and empty without one |
| LoginSync.SyncAllOrNothing | internal/auth/loginsync.go:80-155 | a denied or best-effort-failed sync changes no row and surfaces the loaded user; a successful one writes exactly the three login fields of this row and surfaces what is stored |
| LoginSync.SyncDenials | internal/auth/loginsync.go:65-139 | unauthenticated exactly on an allowlist miss or a vanished row, transient exactly on a failed write that was no promotion |
| LoginSync.SyncNeverEscalates | internal/auth/loginsync.go:41-139 | a surfaced role is the mapped one or a strictly lower built-in |
| LoginSync.LoginFixpoint | internal/auth/identitystore.go:550-635 | repeating a successful login, in either mode and under any configuration, writes nothing and yields the same user, unless a wanted write had failed, which is then tried again; a syncing repetition needs a first login that synced or created the user |
| LoginSync.JitGates | internal/auth/identitystore.go:706-788 | a user is created exactly past both gates, as one row and one binding with the derived role and the best name; a refusal stores nothing |
| LoginSync.LoginShowsStored | internal/auth/identitystore.go:550-635 | of a login that nothing interrupts: a denied one stores nothing; a surfaced user is active and exactly what is stored; no other row changes |
| LoginSync.LoginObeysLaw | internal/auth/identitystore.go:550-788 | who gets in, by if-and-only-if over tables, configuration and world: which failures may be retried, that an unbound subject needs JIT, both gates and a working creation, a bound one an active row whose sync is not denied; what row is left, how many writes are tried, and the fields of the identity |
| LoginSync.SettleShowsStored | internal/auth/identitystore.go:597-624 | the same for the tail after the user was loaded, on both write paths |
| IdentityStore.ValidateRoles | internal/auth/identitystore.go:149-160 | construction succeeds exactly when the default and every mapped role are known, or the check does not apply |
| IdentityStore.Store.constructor | internal/auth/identitystore.go:174-189 | a store over given tables and configuration |
| IdentityStore.Store.WriteLogin | internal/auth/loginsync.go:113-123 | one atomic write of the three fields of an active row, or nothing |
| IdentityStore.Store.WriteName | internal/auth/identitystore.go:604-615 | the narrow write touches the display name only |
| IdentityStore.Store.Persist | internal/auth/loginsync.go:113-154 | the write, its classification, and the in-place update of the loaded record only on success |
| IdentityStore.Store.ApplyLoginSync | internal/auth/loginsync.go:80-155 | refines `SyncLogin` in tables, number of writes, error and record |
| IdentityStore.Store.Settle | internal/auth/identitystore.go:597-624 | the tail for a loaded user refines its specification on both write paths |
| IdentityStore.Store.JitCreateHuman | internal/storage/postgres/users.go:854-916 | one transaction of row and binding; a taken binding rolls the row back and returns the winner as it is |
| IdentityStore.Store.JitResolve | internal/auth/identitystore.go:706-788 | the gates, role derivation and seed name in their order refine the specification of a creation |
| IdentityStore.Store.MaterializeIdentity | internal/auth/identitystore.go:550-635 | refines `Login`, and obeys the law of who gets in, with the identity stated from the stored row |
| IdentityStore.DerivedRoleKnown | internal/auth/loginsync.go:27-39 | with an accepted configuration whose default is known wherever it can be given, derived roles are known, on login and on creation |
| IdentityStore.StepKeepsRoles | internal/auth/identitystore.go:597-624 | each load, write, creation or operator step then keeps stored and loaded roles known |
| IdentityStore.RolesStayKnown | internal/auth/known_roles.go:13-25 | so does every interleaving of loads, writes and creations, for every set of known roles |
| IdentityStore.RolesClosedExactly | internal/auth/identitystore.go:149-160 | an accepted configuration keeps all runs from proper tables without pending logins within its known roles if and only if its default role is known, or can never be given: no creation is admitted and login-sync has no rules |
| IdentityStore.CreationBreaks | internal/auth/identitystore.go:742-752 | otherwise a first login from empty tables, for every issuer, subject and id, stores the unknown default |
| IdentityStore.SyncBreaks | internal/auth/loginsync.go:34-38 | or a login of a bound user whose claims match no rule does |
| IdentityStore.ReaderMustBeKnown | internal/auth/identitystore.go:744-747 | a set with reader is always enough; with an empty default that can be given it is also needed; the sets built from the built-in and custom roles have it |
| IdentityStore.FinishShowsActive | internal/auth/identitystore.go:563-624 | a login whose row may have been deleted since it was loaded surfaces an active user if and only if the row is still active; without it the login goes through exactly when nothing is to be written or a tolerated write fails |
| IdentityStore.CreateShowsActive | internal/storage/postgres/users.go:853-916 | of a login whose look-up found no binding: the user it surfaces is deleted if and only if it lost the race to one that was deleted since that look-up |
| IdentityStore.ShownUnlessDeleted | internal/auth/identitystore.go:550-788 | in every interleaving, from any tables including those that bind deleted users, a login surfaces an active user if and only if that user was not deleted after the look-up of this very login |
| IdentityStore.RunHolds | internal/auth/identitystore.go:550-635 | every pending login knows exactly whether the user it can surface was deleted since its look-up |
| IdentityStore.DeletedCanBeShown | internal/auth/identitystore.go:563-624 | every login that passes without its row can surface a deleted user, by a deletion between look-up and end |
| IdentityStore.LostRaceCanShowDeleted | internal/storage/postgres/users.go:853-916 | so can a creation that lost its race |
| Introspection.Introspector.constructor | internal/auth/introspection.go:116-129 | the cache starts empty |
| Introspection.Introspector.CacheGet | internal/auth/introspection.go:116-129 | hits exactly on an unexpired entry and evicts exactly an expired one; a hit is fresh by the log of all operations |
| Introspection.Introspector.CachePut | internal/auth/introspection.go:131-151 | stores active answers only, until the earlier of the token's expiry and the cap |
| Introspection.Introspector.Introspect | internal/auth/introspection.go:160-224 | a hit needs no exchange, was active, was stored less than 60 seconds earlier and is before its own expiry; otherwise a 4xx status is decisive and inactive, 5xx and every other status but 200 are failures, and only a decoded 200 is offered to the cache |
| Introspection.CacheRefinesLog | internal/auth/introspection.go:116-151 | in every run, also where a put commits after operations with later clock readings, the cache answers like the full log of answers without evictions |
| Introspection.GivenOutUntil | internal/auth/introspection.go:131-151 | an active answer is given out again for exactly 60 seconds or until its own expiry, any other never, and no other token is touched |
| Introspection.HitIsFresh | internal/auth/introspection.go:131-151 | a hit was active, was stored less than 60 seconds earlier, and has not reached the token's expiry |
| Introspection.StalenessBounded | internal/auth/introspection.go:160-224 | a hit means the provider said active within the cap plus the time its answer travelled |
| Introspection.ResolveIntrospection | internal/auth/identitystore.go:650-695 | the first active answer for this resource wins and nobody later is asked; its claims are those of the answer; without one, transient if and only if some provider was tried and none was decisive |
| Introspection.ClaimsOfFit | internal/auth/oidc_verifier.go:153-168 | the name is the claim "name" if usable, else "preferred_username", else empty |
| Introspection.AudienceExact | internal/auth/oidc_verifier.go:116-142 | an audience holds the resource if it is that string or a list with it |
| Document.CollectSlugs | internal/export/engine.go:295-317 | the two slug sets of a document |
| Document.CheckEdges | internal/export/engine.go:305-312 | exactly the edge ends that name no spec or decision, each once, in order |
| Document.CheckList | internal/export/engine.go:319-348 | adds exactly the references of one list that name no spec, each once, in order |
| Document.ValidateRefs | internal/export/engine.go:294-354 | the errors are exactly the broken references of all lists, each once, in the order of the report; none if and only if all references hold |
| Document.RefsHoldExactly | internal/export/engine.go:294-354 | no reference is broken if and only if every slug mentioned names a spec, or for the ends of edges a spec or a decision |
| Document.GroupingConserves | internal/export/engine.go:559-574 | grouping by spec and pass keeps the multiset of findings, for every iteration order of the map |
| ImportPlan.PlanOrdered | internal/export/engine.go:408-620 | with intact references every call finds what it names among earlier creations |
| ImportPlan.FullPlanOrdered | internal/export/engine.go:371-623 | so does the plan with its project and constitution calls |
| ImportPlan.StageRestored | internal/export/engine.go:458-486 | each transition starts where the previous one led, and the last leads to the exported stage if it is one of the six after decompose |
| ImportPlan.SpecReplayed | internal/export/engine.go:411-500 | of a spec exactly the calls its fields ask for, each once, outputs in funnel order, then stages, then notes |
| ImportPlan.DecisionReplayed | internal/export/engine.go:503-522 | of a decision its creation, then its status exactly when it is not the default |
| ImportPlan.SliceReplayed | internal/export/engine.go:525-547 | of a slice its creation, then the claim exactly when claimed or done with an assignee, then the completion exactly when done |
| ImportPlan.PlanContents | internal/export/engine.go:408-620 | the plan stores every item of every list once and in order, the findings group by group |
| ImportBlocks.LayersExact | internal/export/engine.go:382-400 | a document is refused exactly for an unknown version or a field of the other one, and otherwise asks for the layers of its own field |
| ImportBlocks.PlanIsProper | internal/export/engine.go:371-623 | the plan consists of exactly the blocks of its entities, section by section: project, layers, specs, decisions, slices, edges, groups, conversations, mappings, events |
| ImportBlocks.ProperLayers | internal/export/engine.go:401-406 | its constitution calls are, in order, the layers that the document asks for |
| ImportBlocks.FatalMeansMustWork | internal/export/engine.go:376-527 | the calls whose failure ends an import |
| ImportRun.Importer.constructor | internal/export/engine.go:372-372 | no call made, all counters zero |
| ImportRun.Importer.Attempt | internal/export/engine.go:429-431 | one backend call; a failure ends the import when fatal and is a warning otherwise |
| ImportRun.Importer.Store | internal/export/engine.go:550-557 | one call that stores counted items: counted when it works, a warning when it fails |
| ImportRun.Importer.Count | internal/export/engine.go:580-619 | the item goes to the counter of its kind and to no other |
| ImportRun.Importer.WriteLayers | internal/export/engine.go:401-406 | the layers in order, each counted |
| ImportRun.Importer.WriteOutputs | internal/export/engine.go:433-453 | the outputs that are present, in funnel order |
| ImportRun.Importer.WriteChain | internal/export/engine.go:463-478 | the transitions up to the target stage |
| ImportRun.Importer.WriteStage | internal/export/engine.go:455-497 | stage and notes; the terminal step and the notes only warn |
| ImportRun.Importer.WriteSpec | internal/export/engine.go:411-500 | one spec, counted when all its fatal calls worked |
| ImportRun.Importer.WriteSpecs | internal/export/engine.go:408-500 | all specs in order |
| ImportRun.Importer.WriteDecision | internal/export/engine.go:503-522 | one decision and its status |
| ImportRun.Importer.WriteDecisions | internal/export/engine.go:502-522 | all decisions in order |
| ImportRun.Importer.WriteSlice | internal/export/engine.go:525-547 | one slice and its status |
| ImportRun.Importer.WriteSlices | internal/export/engine.go:524-547 | all slices in order |
| ImportRun.Importer.WriteEdges | internal/export/engine.go:549-557 | all edges, going on after failures |
| ImportRun.GroupFindings | internal/export/engine.go:559-574 | one group per spec and pass, holding its findings in input order |
| ImportRun.Importer.WriteFindings | internal/export/engine.go:575-581 | every group once, in the order of the map iteration |
| ImportRun.Importer.WriteConversations | internal/export/engine.go:586-593 | all conversations, going on after failures |
| ImportRun.Importer.WriteMappings | internal/export/engine.go:595-602 | all sync mappings, going on after failures |
| ImportRun.Importer.WriteEvents | internal/export/engine.go:604-620 | blockers and all other events, going on after failures |
| ImportRun.Importer.WriteEntities | internal/export/engine.go:408-622 | everything after the constitution follows the plan; changelogs are only counted |
| ImportRun.Importer.WriteDocument | internal/export/engine.go:371-623 | follows the plan; a document that mixes the schema versions is refused after the project call |
| ImportRun.PlanWeight | internal/export/engine.go:549-620 | the plan stores as many items of each kind as the document has |
| ImportRun.NothingLost | internal/export/engine.go:549-620 | per kind, counted items and items in warned calls add up to the document's |
| ImportRun.CallsNameCreated | internal/export/engine.go:371-623 | in every import of a document with intact references, stopped or not, what a call names was created before it by a call of the same run that did not fail |
| ImportRun.Import | internal/export/engine.go:371-623 | the calls are an initial part of exactly the blocks that the document asks for, all of it on success and up to the first failed call that must work otherwise; the constitution calls of a success are the document's layers and are counted; a mixed document is refused, after the project call only; on success only minor calls failed, all counters are right and nothing is lost; with intact references every call names what earlier calls of the run created |
| ExportVerify.CountKeys | internal/export/engine.go:724-736 | counts the shared and the unshared keys of a set |
| ExportVerify.CompareBySlug | internal/export/engine.go:714-738 | matched, missing and extra are the sizes of the three parts of the two key sets |
| ExportVerify.DiffCounts | internal/export/engine.go:714-738 | matched with missing, and with extra, give the two set sizes; neither missing nor extra means equality |
| ExportVerify.Verify | internal/export/engine.go:664-711 | OK if and only if all nine key sets are equal, with a true line per kind; then specs, decisions and slices have the same slugs |
| ExportVerify.EdgeKeyInjective | internal/export/engine.go:741-744 | of two edges with slugs free of bars, equal keys mean equal edges |
| ExportVerify.EdgeKeysTellEdges | internal/export/engine.go:741-769 | between documents with such slugs the edge key sets are equal if and only if the edges are |
| ExportVerify.EdgeKeysTellExactly | internal/export/engine.go:741-769 | a document is told apart from every other one by its edge keys if and only if no field of its edges holds a bar |
| EntityKeys.EdgeKeyExactly | internal/export/engine.go:741-744 | an edge key identifies its edge if and only if neither slug nor the type holds a bar |
| EntityKeys.BarsCollide | internal/export/engine.go:741-744 | every edge with a bar in a field shares its key with another edge |
| EntityKeys.FindingKeyExactly | internal/export/engine.go:686-688 | a finding key identifies spec, pass and summary if and only if none holds a slash |
| EntityKeys.ChangeLogKeyExactly | internal/export/engine.go:691-693 | a changelog key identifies its entry if and only if no version between slashes can be read in the slug or in the stage |
| EntityKeys.ConversationKeyExactly | internal/export/engine.go:696-698 | a conversation key identifies its conversation if and only if slug and stage hold no slash |
| EntityKeys.MappingKeyExactly | internal/export/engine.go:701-703 | a mapping key identifies its mapping if and only if no field holds a slash |
| EntityKeys.EventKeyExactly | internal/export/engine.go:706-708 | an event key identifies its event if and only if slug and agent hold no slash and no type name between slashes can be read in the message |
| Connector.BackoffClosedForm | cmd/specgraph/connector.go:165-171 | the k-th backoff is min(base·2^k, max), without overflow, for a maximum below 2^62 |
| Connector.BackoffExactlyBelow | cmd/specgraph/connector.go:168-171 | the closed form holds for every k if and only if the base is zero, or positive with a maximum below 2^62 |
| Connector.NextBackoff | cmd/specgraph/connector.go:168-171 | one doubling in 64-bit arithmetic, then the cap |
| Connector.FatalExactly | cmd/specgraph/connector.go:134-160 | without cancellation the loop gives up if and only if credMaxRetry consecutive credential failures, at least one, come before the first success |
| Connector.SleepsExact | cmd/specgraph/connector.go:158-171 | each sleep in closed form: the fixed interval after a credential failure, min(base·2^k, max) after the k-th other one |
| Connector.RunConnector | cmd/specgraph/connector.go:139-174 | on every finite stream of attempts the loop ends at the first turn that succeeds, is cancelled, completes a full run of credential failures, or has its sleep interrupted, tested in this order, and sleeps what each place asks for |
| Connector.FirstConnect | cmd/specgraph/connector.go:180-203 | only credential failures are retried; the first other failure goes degraded; fatal exactly at the limit; cancelled only on a failed turn, by an interrupted sleep only below the limit |
| Funnel.IndexOf | internal/authoring/stages.go:153-160 | the position of a stage, or -1 exactly for unknown names |
| Funnel.Positions | internal/authoring/stages.go:153-160 | the five stages in their order |
| Funnel.VerdictsExact | internal/authoring/stages.go:85-150 | by position alone: which moves each rule accepts, which are no-ops, and which name which unknown stages |
| Funnel.AmendIsBackwardHalf | internal/authoring/stages.go:107-150 | amend accepts exactly the accepted transitions that go back; the others go one stage forward |
| Funnel.NoStageSkipped | internal/authoring/stages.go:103-130 | who stands at a stage was at every earlier one, and after the last visit moved to the next and stayed above |
| Funnel.AmendChainsEnd | internal/authoring/stages.go:132-150 | a chain of amends visits at most as many stages as there are |
| Conversation.ValidateExchanges | internal/authoring/validate.go:42-85 | accepts exactly the lists whose exchanges are well formed and pairwise increasing; a refusal names the first bad one |
| Conversation.GroupExchanges | internal/render/conversation.go:26-45 | groups by sequence number in order of first occurrence, later exchanges overwriting |
| Conversation.WriteGroups | internal/render/conversation.go:47-61 | writes every group once, in order |
| Conversation.ConversationLog | internal/render/conversation.go:14-64 | the text of a log is its header and its groups; nothing for an empty one |
| Conversation.BlockExact | internal/render/conversation.go:47-61 | which content follows which label, and whose decision is tagged |
| Conversation.HeaderExact | internal/render/conversation.go:20-24 | the header, with the amend label exactly for amends |
| Conversation.AcceptedRendersInOrder | internal/render/conversation.go:26-61 | an accepted list has one group per exchange, none overwritten, rendered in input order |
| Conversation.SlotHoldsLast | internal/render/conversation.go:31-45 | on any list a slot holds the last exchange of its sequence and kind |

## Left out

Weaker than the code or its documentation:

- Credentials.VerifyReadsPhc: the scanner of the cost parameters does not model the blanks that `Sscanf` also skips in front of a number; printed strings hold none.
- Connector.RunConnector: the endless loop is modelled on every finite part of the attempt stream; the class of an error (`classifyConnectError`) is an input.
- Connector.FirstConnect: states where the loop ends and why; the connection itself (`connectStore`) is an input.
- Linter.LintSpec: the converse direction is for graphs without a dependency path of more than 1000 edges, which is what the depth limit allows; that `GetSpec` and `GetDependencies` agree on existence is an assumption on the backend, because an adapter that answers an empty list for an unknown slug would hide it from the search.
- Linter.MissingReportedOnce: a slug that only lies beyond a depth cut may go unreported, as in the code.
- IdentityStore.RunHolds: the look-up of a binding and the load of its user are one step, because bindings are never moved to another user; removing a binding is not a step.
- IdentityStore.RolesStayKnown: claims closure only; a login write that races a role change may store the older of two known roles.
- Introspection.StalenessBounded: the bound includes the delivery time of an answer, because the cap counts from storing it.
- Bootstrap.CallersConverge: deletions, revocations and rotations are not among the steps of other writers.
- ImportRun.CallsNameCreated: speaks of the document's own entities; what a `Store*Output`, `StoreDecomposeOutput` or `TransitionStage` call does inside storage is not modelled, so nothing says that an import followed by a comparison is OK.
- Document.ValidateRefs: an error is the list and position of a reference; its text is not modelled.

Not modelled:

- Texts of violations, errors and log lines; lint over a list of specs; `ValidateSchema`, whose violations are an input.
- The Argon2 and SHA-256 functions, sources of randomness, generated ids and prefixes, clocks: parameters.
- JWT and OIDC verification, sessions, the token buckets of the rate limiter (an input per call), configuration defaults and nil checks of the constructor, the last-used tracker.
- A login write whose error hides a committed change: a reported write error means no change there. In the bootstrap protocol a write may commit and lose its reply.
- Case folding outside ASCII in email domains.
- The wrap of `time.Unix` for expiry times beyond its range; the request that introspection sends and the decoding of its answer; collisions of the cache key's digest.
- JSON encoding, the export side, signatures, the refusal and wiping of existing data before an import; fields that an import passes through unchanged (titles, bodies, intents, output contents).
- A nil exchange inside a log that is rendered; rendering of several logs.
- Stage names outside the funnel (`StageFromStorage`, `AllStages`).
