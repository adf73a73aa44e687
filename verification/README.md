# IPO.ONE core mechanisms: a Dafny model

This project models the stateful mechanisms at the core of the repository and proves what they
promise over every input, every history or every interleaving.

| module | mechanism |
|---|---|
| `Options`, `Identifiers`, `Runs` | shared vocabulary: optional values, the text patterns of configurations and columns, and runs of a step function |
| `SandboxSessions`, `SessionQueue`, `Admission`, `JsonShape` | the API server's session cache, per-session promise queue with its mutation budget, request admission, and body shape check |
| `CredentialTables` | the authentication tables of one tenant with the column checks, keys and triggers of the migrations, and the event log beside them |
| `LocalAccess`, `LocalAccessDatabase`, `AccessGenerations`, `GenerationChange` | local identity and credential seeding, rotation to a new client generation, and how the two compose |
| `RotatedRows`, `SeededRows` | what rotation and seeding write, column by column |
| `ProductionBootstrap`, `BootstrapDatabase`, `BootstrapFirstRun`, `BootstrapRows` | the production bootstrap: accepted configurations, the seeding transaction, first run and repeat, and the rows it writes |
| `AgentCredentials`, `AgentReissue`, `AgentGrants` | provisioning, reprovisioning and revocation of Agent credentials: retries, who may ask, and the rows that result |
| `PrincipalAgent`, `RuntimeGrants` | the Agent a principal sets up for itself |
| `CredentialRuns`, `TableConstraints` | runs that mix all of these transactions, and the table constraints they keep |
| `SchemaInlining` | the two `$ref` inlining passes of the MCP adapters |
| `AuthenticationLimiter` | the database rate limiter |
| `ReviewCookies` | cookie renaming for local review ports |
| `AgentResume`, `ResumeSteps` | the resume workflow against a gateway with idempotency keys, under crashes, repeats and lost replies |
| `AgentTransport`, `CommandWire` | command encoding, adapter, host and receipt of the reference transport, and its messages on the wire |
| `StdioServer` | the JSON-RPC handler and the promise chain of the stdio server |

`dafny verify dfyconfig.toml` checks the whole project.

Conventions. A database transaction is a function to optional tables: `None` means that a
statement or a check raised and everything was rolled back. The loops over rows and entries are
also written as methods on a mutable `tables` field and proved equal to those functions. Clocks,
random draws, query results whose order the database chooses, tool outcomes and network behaviour
are parameters. Keyed hashes are injective constructors. Constants (128 sessions, 30 minutes, 600
and 64 requests, 32 mutations, 10-minute windows, 90 days, the JSON limits and the JSON-RPC codes)
are those of the source, and main results state them as numbers. Where a result says what a
transaction demands or writes, it does so field by field and not through the functions that compute
it. A column check is applied to the row an insert proposes before any
conflict is looked for, as PostgreSQL does. Where a promise does not hold for every input, the exact
condition is proved and a concrete input is given:

- An accepted configuration is not always seedable. An Agent listed before its controller runs into
  the foreign key of `db/migrations/0008_durable_tenant_command_gateway.up.sql:38`, which the insert
  itself checks. A self-service client id such as `Client@A/1` passes the configuration check and not
  the enrollment column of `db/migrations/0063_selected_human_role_enrollment.up.sql:15`. A policy
  version over 128 characters does not fit a membership, and a tenant reference over 227 does not fit
  a partner profile (`BootstrapFirstRun`).
- Rotation is all or nothing: two rows of one subject under the older clients, a binding that is
  already taken, or a capability list that grows past the 64 items of
  `db/migrations/0025_durable_human_authentication.up.sql:156` fail it as a whole
  (`AccessGenerations`, with an example in `GenerationChange`).
- Inlining can leave a reference behind when a definition is itself a string that reads as one
  (`SchemaInlining`).
- The limiter undercounts when a key comes back to a window it has left; the clock is read before
  the row is locked, so stamps can arrive out of order (`AuthenticationLimiter`).
- The cookie round trip fails when the list already holds a name of the form a review port gives
  to a protected cookie (`ReviewCookies`).
- Interest that accrues between a resume's read and its repayment stays owed; the mandate's key is
  then spent and the next resume refuses the loan. A resume also never sends an execution, because
  the statuses it accepts exclude a loan that is still pending (`AgentResume`).

## Model

| member | source | states |
|---|---|---|
| SandboxSessions.CacheHoldsNewest | apps/api/src/server.js:151-178 | after any access history with a nondecreasing clock the Map, keys and order, is the 128 most recently accessed distinct ids in recency order, less those last seen more than 30 minutes before the latest access |
| SandboxSessions.CacheOrder | apps/api/src/server.js:151-178 | so the Map is sorted by last-seen time, has no repeated key, stays within its bound, and its first key is the least recently used |
| SandboxSessions.EntrySurvivesExactly | apps/api/src/server.js:151-178 | an id keeps its entry object between two consecutive accesses exactly when the gap is within the idle limit and at most 127 other ids were accessed in between |
| SandboxSessions.SessionCache.EntryForSession | apps/api/src/server.js:151-178 | the in-place Map with its expiry and eviction loops keeps agreeing with the history, and hands out the stored entry object of a live slot or a fresh one |
| SandboxSessions.SessionCache.Expire | apps/api/src/server.js:154-156 | the expiry loop deletes exactly the idle slots and keeps the order of the others |
| SandboxSessions.SessionCache.Evict | apps/api/src/server.js:166-168 | the eviction loop removes the oldest slots until one more fits, and no more |
| SessionQueue.OneAtATime | apps/api/src/server.js:180-184 | in every interleaving of the promise steps operations on one entry begin and end one at a time, in enqueue order, at most once each |
| SessionQueue.NeverStuck | apps/api/src/server.js:180-184 | an operation that fails never blocks those behind it, and when all are through each ran exactly once |
| SessionQueue.EachStepDrains | apps/api/src/server.js:180-184 | every step but an enqueue uses up some of at most four steps per operation, so a queue that takes in nothing new gets through, whatever fails |
| SessionQueue.BudgetHolds | apps/api/src/server.js:190-200 | at most 32 counted mutations begin in any stretch without a successful reset |
| SessionQueue.BudgetExactly | apps/api/src/server.js:190-200 | in every interleaving, an operation that begins is counted exactly when it was enqueued as a mutation and fewer than 32 counted ones began since the last reset; from then on mutations are refused, and what was refused never succeeds |
| SessionQueue.ResetClears | apps/api/src/server.js:674-680 | a reset that succeeds has zeroed the count before it ended |
| SessionQueue.ConsumeMutationBudget | apps/api/src/server.js:190-200 | a mutation is refused from 32 on and otherwise counted; anything else passes uncounted |
| Admission.EveryRun | apps/api/src/server.js:116-140 | in every run the active counter is the number of admitted unfinished requests, at most 64, and no window admits more than 600 |
| Admission.SpanBound | apps/api/src/server.js:120-140 | no closed span of 60 seconds admits more than 1200 requests |
| Admission.VerdictFromRecord | apps/api/src/server.js:120-140 | what an arrival gets follows from the arrivals, admissions and completions so far: the window from the arrivals, refused ones included, the counts from the admissions of that window and the unfinished requests |
| Admission.AdmissionGate.AdmitRequest | apps/api/src/server.js:120-140 | the imperative gate gives that verdict and moves to that state |
| JsonShape.ValidateJsonShape | apps/api/src/server.js:255-286 | the early-exit traversal accepts exactly the objects with at most 256 nodes, depth at most 8, at most 64 entries per container, no string over 2048 and no prohibited key |
| JsonShape.ShapeValidator.Visit | apps/api/src/server.js:258-281 | one visit succeeds exactly when the subtree is within what is left of each limit, and then has counted its nodes |
| CredentialRuns.EveryRunAgrees | apps/private-pilot/src/production-bootstrap.js:1117-1211 | after every run mixing bootstrap, provision, reprovision, revoke, local tenant, identity and credential seeding, rotation and runtime create and revoke, folding the event log gives each credential's status and each credential has exactly one registration event |
| CredentialRuns.LocalRunRotates | apps/private-pilot/src/private-pilot-database.js:298-320 | among those runs are a local deployment's own: from empty tables, tenant, system actor, identity and credential seeding and rotation lead to a revoked credential with a successor |
| CredentialRuns.NeverRevived | apps/private-pilot/src/production-bootstrap.js:1288-1311 | however a run continues, credentials stay with the grants they were registered with and a revoked one is never active again |
| CredentialRuns.RuntimeStaysRevoked | apps/private-pilot/src/local-principal-agent-runtime.js:104-117 | once a principal has revoked its Agent no continuation of the run makes its client id acceptable |
| CredentialRuns.ReprovisionedForGood | apps/private-pilot/src/production-bootstrap.js:1066-1120 | once an Agent was reprovisioned every later success for it in the run is the same request with the same answer and no change |
| CredentialTables.RegisterSound | apps/private-pilot/src/production-bootstrap.js:865-920 | inserting a credential with its event keeps log and table in agreement and preserves everything already granted |
| CredentialTables.RevokeSound | apps/private-pilot/src/production-bootstrap.js:1288-1311 | so does revoking one with its event |
| LocalAccess.ExtendedExactly | apps/private-pilot/src/local-access-repair.js:7-19 | extending adds exactly the nine listed capabilities, and sandbox activation for those who may create themselves as a subject; a list without repeats stays in front, followed by what it lacks in list order |
| LocalAccess.DedupOrder | apps/private-pilot/src/local-access-repair.js:18-19 | removing repeats keeps the order of first occurrences |
| LocalAccess.ExtendedTwice | apps/private-pilot/src/local-access-repair.js:18-19 | extending capabilities is idempotent as an ordered sequence |
| LocalAccess.SeedCredentialSound | apps/private-pilot/src/private-pilot-database.js:452-618 | credential seeding keeps log and table in agreement on every branch |
| LocalAccess.RotateAllSound | apps/private-pilot/src/local-access-repair.js:39-100 | so does the rotation of both identities in one transaction |
| LocalAccessDatabase.Database.RotateLocalAccess | apps/private-pilot/src/local-access-repair.js:31-100 | the rotation selects and rotates for each identity in turn, statement by statement, and commits what the specification says or rolls all of them back together |
| LocalAccessDatabase.Database.SelectRows | apps/private-pilot/src/local-access-repair.js:43-53 | the query returns each selected row once and nothing else |
| LocalAccessDatabase.Database.RevokeRows | apps/private-pilot/src/private-pilot-database.js:477-507 | the loop over retired credentials revokes each with its event, or none |
| LocalAccessDatabase.Database.SeedActorAndMembership | apps/private-pilot/src/private-pilot-database.js:322-376 | actor insert and membership upsert have the specified effect, or none |
| AccessGenerations.RotationCommitsExactly | apps/private-pilot/src/local-access-repair.js:31-100 | rotation of the selected rows commits exactly when no replacement's subject binding is taken, no two rows to be replaced are for one subject, the new client id and every extended list fit their columns, and the log's author, the local system actor, is a member; it then replaces each selected row with live enrollments by exactly one new row and leaves all others as they were |
| AccessGenerations.RotationReplacesEach | apps/private-pilot/src/local-access-repair.js:31-100 | in particular when nobody has the new client at the issuer yet, the selected rows are for different subjects, as seeding leaves them, and the extended lists fit |
| AccessGenerations.RotationEndsSessions | apps/private-pilot/src/local-access-repair.js:67-100 | a session is ended exactly when rotation revoked its credential |
| AccessGenerations.RotationSettles | apps/private-pilot/src/local-access-repair.js:31-100 | for a credential seeded under an older client with template or already extended capabilities, what rotation leaves is what seeding's exact-match branch looks for |
| AccessGenerations.SettledIsFixed | apps/private-pilot/src/private-pilot-database.js:452-618 | in such tables seeding inserts nothing, bumps no version and raises nothing, at any later time |
| AccessGenerations.LapsedGetsNothing | apps/private-pilot/src/private-pilot-database.js:508-618 | an identity whose enrollment lapsed ends with no active credential at its issuer and gets no new one |
| AccessGenerations.RetreatedIsFixed | apps/private-pilot/src/private-pilot-database.js:508-618 | and later startups change nothing for it |
| AccessGenerations.StartupSettlesBoth | apps/private-pilot/src/private-pilot-database.js:720-730 | a startup with both identities settles both, whatever order their rows are in |
| AccessGenerations.NothingSelectedAgain | apps/private-pilot/src/local-access-repair.js:43-53 | the next rotation selects nothing |
| RotatedRows.MovesExactly | apps/private-pilot/src/local-access-repair.js:43-66 | which credentials a rotation moves, condition by condition: issuer, older client, type, methods, status and expiry, actor, tenant, membership in force with its role, and enrollments that are all live for the client |
| RotatedRows.RotationWrites | apps/private-pilot/src/local-access-repair.js:67-100 | a committed rotation revokes exactly those, with their enrollments; gives each exactly one successor with the same holder, binding, roles, policy and expiry, the new client and the additions, and an enrollment for each; extends the memberships, swaps the client in them and counts their versions up; and leaves every other row and table alone |
| SeededRows.TenantSeeded | apps/private-pilot/src/private-pilot-database.js:298-320 | the startup leaves an active tenant, a stored one with its other columns as they were |
| SeededRows.IdentityExactly | apps/private-pilot/src/private-pilot-database.js:322-376 | an identity is seeded exactly when its role and controller are not in conflict with a stored membership; a new membership is in force from now on, one in force is brought up to the configuration with one version more if that changed it, any other is left alone |
| SeededRows.StartupEnsures | apps/private-pilot/src/private-pilot-database.js:452-618 | a startup that seeds a credential withdraws every active credential of the actor at the host under another client and changes no other; the identity then has the credential it is configured for, field by field, with a live enrollment, or only a history; and a row is inserted only where there was none to find |
| SeededRows.UnusableLeftAlone | apps/private-pilot/src/private-pilot-database.js:470-474 | an actor without a membership in force is left alone |
| GenerationChange.ChangeOfGeneration | apps/private-pilot/src/private-pilot-database.js:452-618 | in any tables that did not know the identity: the older startup's identity and credential seeding commits; rotation then commits exactly when the new client id and the extended template fit their columns; and then the old credential is revoked, one successor can be found, and every later startup leaves the tables as they are |
| GenerationChange.BothReady | apps/private-pilot/src/private-pilot-database.js:322-618 | the older startups of two identities on different hosts, one after the other, leave what a later startup needs for both |
| GenerationChange.BothGenerations | apps/private-pilot/src/private-pilot-database.js:720-730 | for two such identities whose new client ids and extended templates fit: both older seedings commit, each rotation's query returns the row its seeding made, one transaction rotates both, both end settled, and no later startup changes anything for either |
| GenerationChange.LapsedEntrantGetsNothing | apps/private-pilot/src/private-pilot-database.js:477-618 | an identity that an older startup seeded and whose enrollment was then suspended: rotation passes over it, the next startup revokes its credential, and it gets no new one |
| GenerationChange.FullListNeverRotates | apps/private-pilot/src/local-access-repair.js:62-72 | an identity seeded with a full list of 64 capabilities is never rotated |
| GenerationChange.FullListExample | apps/private-pilot/src/local-access-repair.js:62-72 | a literal deployment of that kind, a tenant with its local system actor, in which the older startup commits and rotation does not |
| BootstrapFirstRun.SeedsExactly | apps/private-pilot/src/production-bootstrap.js:1396-1677 | seeding empty tables from a configuration that passes all lexical and cross-field checks succeeds exactly when the policy fits a membership, the system actor has no entry, every Agent is listed after its controller, and each entry is unexpired and fits the columns it is written to; it then inserts one credential per entry, and the tables hold the identities, credentials, events and enrollments of the entries and nothing else |
| BootstrapRows.BootstrapExactly | apps/private-pilot/src/production-bootstrap.js:258-365 | the first bootstrap succeeds exactly for a configuration that meets every demand, each spelled out, and fits the tables |
| BootstrapRows.BootstrapWrites | apps/private-pilot/src/production-bootstrap.js:1396-1677 | what it leaves for each entry, by profile and kind: actor type, membership role, credential with role, client and sender method and references, event with its invitation, enrollment of borrowers and controllers only, profile of partners only; the system actor's rows; and nothing else |
| BootstrapRows.BootstrapEnsures | apps/private-pilot/src/production-bootstrap.js:1396-1677 | whatever the tables held before, a bootstrap that succeeds leaves each entry with its actor, membership and an active credential as configured, which alone its invitation made, no other actor with an Agent's sender, and borrowers and controllers enrolled |
| BootstrapRows.ControllersAuthorized | apps/private-pilot/src/production-bootstrap.js:595-663 | from then on every controller of the configuration has the authority to have Agents provisioned by the system actor |
| BootstrapFirstRun.SecondRunChangesNothing | apps/private-pilot/src/production-bootstrap.js:1396-1677 | seeding again inserts zero and leaves every table unchanged |
| BootstrapFirstRun.AgentListedFirst | apps/private-pilot/src/production-bootstrap.js:1424-1450 | a literal accepted configuration within its window whose Agent precedes its controller, which cannot be seeded |
| BootstrapFirstRun.ClientRefused | apps/private-pilot/src/production-bootstrap.js:1638-1675 | another, whose controller has a client id the enrollment column refuses |
| ProductionBootstrap.SeedAgain | apps/private-pilot/src/production-bootstrap.js:1521-1677 | tables that already hold a configuration, whatever else they contain, are a fixed point of seeding it |
| ProductionBootstrap.SeedAllSound | apps/private-pilot/src/production-bootstrap.js:1396-1677 | seeding keeps log and table in agreement |
| BootstrapDatabase.Database.SeedTenantAndIdentity | apps/private-pilot/src/production-bootstrap.js:1396-1677 | the transaction with its loops and its insert counter commits what the specification says, or changes nothing |
| BootstrapDatabase.Database.InsertCredential | apps/private-pilot/src/production-bootstrap.js:1521-1637 | one turn of the credential loop, conflict branches included |
| AgentGrants.AuthorityExactly | apps/private-pilot/src/production-bootstrap.js:595-663 | the authority check passes exactly for an active tenant, an active person with a membership of the policy in force who is a controller by role or by a live enrollment under a live credential, and an active system worker as performer |
| AgentGrants.FirstProvisionExactly | apps/private-pilot/src/production-bootstrap.js:666-864 | a request that nothing was made for yet succeeds exactly when its fields read well, its lifetime is at most 90 days, the authority stands, the Agent is known as such or may be created, and its capabilities fit the column |
| AgentGrants.ProvisionLeaves | apps/private-pilot/src/production-bootstrap.js:746-940 | every success had that authority, and leaves the Agent's actor and membership and one credential, column by column, which alone has the invitation and the sender; a repeat changes no credential and no event |
| AgentGrants.FirstReprovisionExactly | apps/private-pilot/src/production-bootstrap.js:1016-1215 | a first reprovisioning succeeds exactly when the workload stands, its credential is active and the performer is a member; it revokes that one and registers its successor under the second key with the same grants, with three events |
| AgentGrants.ReprovisionDemands | apps/private-pilot/src/production-bootstrap.js:1016-1063 | no reprovisioning, repeats included, gets past the review of the workload |
| AgentGrants.RevocationExactly | apps/private-pilot/src/production-bootstrap.js:1236-1320 | a revocation succeeds exactly when all signing credentials of the Agent are out, and then changes nothing, or when one is left, which it revokes |
| AgentReissue.ConservesAuthority | apps/private-pilot/src/production-bootstrap.js:1091-1160 | reprovisioning keeps the actor's number of active credentials, the v2 credential has exactly the v1 roles, capabilities, policy, client, issuer and expiry, and nobody else's credentials change |
| AgentReissue.OnlyTheSameSucceeds | apps/private-pilot/src/production-bootstrap.js:1038-1090 | in any later tables a request for the same Agent with another client, issuer, invitation, sender or subject fails; one that succeeds answers the same and changes nothing |
| AgentReissue.IdenticalRetry | apps/private-pilot/src/production-bootstrap.js:1038-1090 | exactly when an identical retry succeeds in later tables |
| AgentReissue.ImmediateRetry | apps/private-pilot/src/production-bootstrap.js:1038-1090 | straight after a success an identical retry answers the same until the old expiry and is refused from then on |
| AgentReissue.ProvisionRetry | apps/private-pilot/src/production-bootstrap.js:822-864 | a repeated provisioning under standing authority returns the same credential and changes nothing |
| AgentReissue.RevokeRetry | apps/private-pilot/src/production-bootstrap.js:1236-1320 | a revocation leaves no usable key credential and repeating it, by any performer with a well-formed id, changes nothing |
| AgentCredentials.ReprovisionSound | apps/private-pilot/src/production-bootstrap.js:944-1234 | reprovisioning keeps log and table in agreement |
| AgentCredentials.ProvisionSound | apps/private-pilot/src/production-bootstrap.js:666-940 | so does provisioning |
| AgentCredentials.RevokeAgentSound | apps/private-pilot/src/production-bootstrap.js:1236-1320 | and revocation |
| PrincipalAgent.CreateTwice | apps/private-pilot/src/local-principal-agent-runtime.js:57-96 | while the caller is allowed a second create answers with the same runtime and changes nothing |
| PrincipalAgent.ControlsExactlyOne | apps/private-pilot/src/local-principal-agent-runtime.js:57-96 | after create the principal controls exactly the new Agent, whose credential and membership carry the same grants, and nobody else's rows changed |
| PrincipalAgent.CreatedIsAccepted | apps/private-pilot/src/local-principal-agent-runtime.js:134-149 | a created runtime's client id is accepted exactly until the service's expiry |
| PrincipalAgent.RevokedIsRefused | apps/private-pilot/src/local-principal-agent-runtime.js:104-149 | after a revocation the client id is refused and create is unavailable in all later tables |
| PrincipalAgent.CreateSound | apps/private-pilot/src/local-principal-agent-runtime.js:57-96 | create keeps log and table in agreement and runtimes unique per Agent |
| PrincipalAgent.RuntimeDatabase.CreateRuntime | apps/private-pilot/src/local-principal-agent-runtime.js:57-96 | the inserts of a new Agent commit together as specified, or not at all |
| PrincipalAgent.RuntimeDatabase.Revoke | apps/private-pilot/src/local-principal-agent-runtime.js:104-117 | credential and runtime are revoked together |
| RuntimeGrants.CreateExactly | apps/private-pilot/src/local-principal-agent-runtime.js:27-96 | create succeeds exactly for a principal controller whose credential, membership and enrollment are live and carry both Agent capabilities, and who has an active runtime, returned unchanged, or controls nobody and has room for one; then the new rows, column by column |
| RuntimeGrants.RevokeExactly | apps/private-pilot/src/local-principal-agent-runtime.js:104-117 | revoke succeeds exactly for such a principal and its own Agent, and ends the runtime and the credential |
| RuntimeGrants.AcceptsExactly | apps/private-pilot/src/local-principal-agent-runtime.js:134-149 | a client id is accepted exactly when one live runtime of a live principal has it |
| TableConstraints.EveryRunConstrained | db/migrations/0025_durable_human_authentication.up.sql:136-189 | in every run of transactions no two credentials share issuer, client and subject, and each has a holder of its type who is a member, methods of its type, bounded lists without repeats and a lifetime |
| SchemaInlining.ReferenceExactly | apps/agent-mcp/src/trading-capital-mcp-adapter.js:22-31 | a node refers to a definition exactly when it is an object whose `$ref` is the prefix and the name |
| SchemaInlining.MeaningPreserved | apps/agent-mcp/src/trading-capital-mcp-adapter.js:22-47 | at every position the inlined value shows what following references in the original shows |
| SchemaInlining.SucceedsExactly | apps/agent-mcp/src/trading-capital-mcp-adapter.js:22-47 | the guarded pass, which always terminates, succeeds exactly when every chain of references stays within the definitions and repeats no name |
| SchemaInlining.PassesAgree | apps/agent-mcp/src/secured-pool-mcp-adapter.js:22-31 | wherever the unguarded pass returns or throws the guarded one does the same, and the converse with as many steps as there are definitions |
| SchemaInlining.NoReferenceLeftExactly | apps/agent-mcp/src/trading-capital-mcp-adapter.js:22-47 | no reference is left in any schema exactly when no definition is a reference string, and exactly then does inlining again change nothing |
| SchemaInlining.ReferenceLeftExample | apps/agent-mcp/src/trading-capital-mcp-adapter.js:22-47 | a schema on which a reference is left |
| AuthenticationLimiter.LimitsExactly | apps/private-pilot/src/public-beta-authentication-limiter.js:10-19 | the limit of each route, and none for any other |
| AuthenticationLimiter.WindowExactly | apps/private-pilot/src/public-beta-authentication-limiter.js:83-86 | a window starts at the last multiple of ten minutes |
| AuthenticationLimiter.RefinesLog | apps/private-pilot/src/public-beta-authentication-limiter.js:69-119 | when no key comes back to a window it left, a request is admitted exactly when fewer than the limit were admitted before it for its key and window, and the counter is that number |
| AuthenticationLimiter.ExactlyContiguous | apps/private-pilot/src/public-beta-authentication-limiter.js:69-119 | the counters agree with the log at every point exactly under that condition |
| AuthenticationLimiter.OrderedIsContiguous | apps/private-pilot/src/public-beta-authentication-limiter.js:69-119 | nondecreasing window starts imply it |
| AuthenticationLimiter.SpanBound | apps/private-pilot/src/public-beta-authentication-limiter.js:9-19 | a 10-minute span admits at most twice the limit per key |
| AuthenticationLimiter.KeysIndependent | apps/private-pilot/src/public-beta-authentication-limiter.js:69-119 | what happens to a key is what would happen to it alone |
| AuthenticationLimiter.ClockBackExample | apps/private-pilot/src/public-beta-authentication-limiter.js:69-119 | a history with a clock step back on which the counter forgets an admission |
| AuthenticationLimiter.Limiter.Admit | apps/private-pilot/src/public-beta-authentication-limiter.js:69-119 | the conditional upsert on the mutable table, by route, with rows of another limiter, unlimited routes and unavailability |
| ReviewCookies.NameExactly | apps/tenant-api/src/local-review-cookies.js:1-5 | the two protected names get their port's suffix on the four review ports, and nothing else changes |
| ReviewCookies.PartExactly | apps/tenant-api/src/local-review-cookies.js:6-15 | any part of a request's header: the port's own name becomes canonical, canonical and other ports' names are dropped, the rest stays |
| ReviewCookies.SplitExactly | apps/tenant-api/src/local-review-cookies.js:8-8 | splitting a header at semicolons loses nothing |
| ReviewCookies.TrimExactly | apps/tenant-api/src/local-review-cookies.js:8-8 | trimming takes white space off both ends and nothing else |
| ReviewCookies.RoundTripExactly | apps/tenant-api/src/local-review-cookies.js:1-33 | what a review port sets comes back on that port as the original list in order, exactly when the list has no reserved name |
| ReviewCookies.IsolatedExactly | apps/tenant-api/src/local-review-cookies.js:1-33 | any other review port drops exactly the protected cookies and keeps the rest, under an exact condition |
| ReviewCookies.ReservedExample | apps/tenant-api/src/local-review-cookies.js:6-15 | a literal cookie whose name another port would give, and which does not come back |
| ReviewCookies.SetCookieRenamesPair | apps/tenant-api/src/local-review-cookies.js:16-20 | a Set-Cookie value keeps everything but a protected name |
| ReviewCookies.RenameTwice | apps/tenant-api/src/local-review-cookies.js:16-33 | renaming twice is renaming once, on every string |
| AgentResume.AtMostOncePerMandate | apps/private-pilot/src/local-reference-agent-http.js:193-227 | in every run with crashes, lost and repeated messages and concurrent resumes at most one execution and one repayment are applied per mandate |
| AgentResume.CompletedLeavesNothing | apps/private-pilot/src/local-reference-agent-http.js:416-450 | without accrual a completed resume leaves principal, interest and fees at zero |
| AgentResume.CompletedExactly | apps/private-pilot/src/local-reference-agent-http.js:416-450 | with accrual, exactly when it does |
| AgentResume.Conserved | packages/domain/src/sandbox-credit.js:382-440 | in every run outstanding plus repaid equals lent plus accrued |
| AgentResume.Waterfall | packages/domain/src/sandbox-credit.js:421-446 | a repayment takes the smaller of the amount and the debt, pays interest only once the fees are paid and principal only once both are, and closes the loan exactly when it covers it |
| AgentResume.NeverExecutes | apps/private-pilot/src/local-reference-agent-http.js:416-434 | a resume never gets as far as sending an execution |
| AgentResume.LateResume | apps/private-pilot/src/local-reference-agent-http.js:416-450 | after the mandate's repayment a later resume reports a fully repaid loan or fails |
| AgentResume.AccrualLeavesDebt | apps/private-pilot/src/local-reference-agent-http.js:434-441 | for every positive principal and interest, a run that completes on a debt the next resume refuses |
| ResumeSteps.GatewayExactly | packages/domain/src/sandbox-credit.js:256-440 | what the gateway makes of a request: under a spent key the first answer again or a rejection; otherwise it is applied exactly when the obligation allows it, with the accrual, the allocation and the new status spelled out |
| ResumeSteps.ReadExactly | apps/private-pilot/src/local-reference-agent-http.js:416-444 | in every run a resume refuses a loan that is missing, another mandate's, or neither active nor repaid; reports a repaid one; and asks for the whole debt of an active one |
| ResumeSteps.ReceiveExactly | apps/private-pilot/src/local-reference-agent-http.js:434-441 | it takes only the answer to that very repayment |
| ResumeSteps.ResumeCanComplete | apps/private-pilot/src/local-reference-agent-http.js:416-450 | from every reachable state, a resume of an active loan whose mandate's repayment is still to come can end with nothing owed |
| CommandWire.EncodesExactly | apps/private-pilot/src/agent-reference-workflows.js:74-103 | a command is encoded exactly when it is one of the four, with its properties and no others |
| CommandWire.WireExactly | apps/private-pilot/src/agent-reference-workflows.js:104-140 | each calls its own tool with its own resource, payload, key and request ids |
| CommandWire.AdapterExactly | apps/agent-mcp/src/agent-mcp-adapter.js:334-450 | the adapter accepts a call of any of the four tools exactly when it has the tool's arguments and payload properties and no others |
| CommandWire.RuntimeSays | packages/sdk/src/agent-sandbox-obligation-client.js:298-358 | what each command of the runtime workflow says: operation, resource, payload values and identifiers |
| CommandWire.MeteredSays | apps/private-pilot/src/agent-reference-workflows.js:381-461 | and each of the metered workflow |
| AgentTransport.RoundTrip | apps/private-pilot/src/agent-reference-workflows.js:74-140 | every command the transport encodes is accepted by the adapter and, under a ready manifest, reaches the Agent client's `execute` with the same resource, payload, key and request ids; without one nothing does |
| AgentTransport.AdapterAccepts | apps/agent-mcp/src/agent-mcp-adapter.js:334-450 | the adapter's exact-key checks pass on every encoded command and pick the same operation |
| AgentTransport.ExactDelivery | apps/agent-mcp/src/agent-mcp-host.js:38-114 | delivery is exact precisely when an evidence query has no undefined property |
| AgentTransport.EncodableParts | apps/private-pilot/src/agent-reference-workflows.js:74-103 | a command put together from its parts is encodable exactly when the parts are well formed |
| AgentTransport.ColonIdentifier | packages/sdk/src/agent-sandbox-obligation-client.js:143-158 | the identifiers the runtime workflow builds from a mandate's suffix are well formed |
| AgentTransport.DashIdentifier | apps/private-pilot/src/agent-reference-workflows.js:340-350 | so are those of the evidence reads and of the metered workflow |
| AgentTransport.RuntimePlanEncodes | packages/sdk/src/agent-sandbox-obligation-client.js:298-358 | each command of the runtime workflow can be encoded exactly when the offer, or the obligation it names, has a well-formed id |
| AgentTransport.MeteredPlanEncodes | apps/private-pilot/src/agent-reference-workflows.js:381-461 | so can each command of the metered workflow |
| AgentTransport.PlansProper | apps/private-pilot/src/agent-reference-workflows.js:384-461 | both workflows ask for the four operations under their own names |
| AgentTransport.Transport.Execute | apps/private-pilot/src/agent-reference-workflows.js:164-209 | a step is recorded exactly when the reply has the right id, no error and the operation asked for |
| AgentTransport.Transport.CreateReceipt | apps/private-pilot/src/agent-reference-workflows.js:210-242 | a receipt exists exactly when the successful calls were accept, execute, repay, evidence in that order |
| AgentTransport.RunRuntimeWorkflow | apps/private-pilot/src/agent-reference-workflows.js:323-366 | the runtime workflow ends with a receipt exactly when all its calls succeed and the caller's provider and category are well formed; the receipt names them and the repaid obligation |
| AgentTransport.RunMeteredWorkflow | apps/private-pilot/src/agent-reference-workflows.js:368-487 | so does the metered one, whose extra evidence read does not disturb the receipt |
| StdioServer.EveryRun | apps/agent-mcp/src/stdio-server.js:55-82 | for every sequence of lines and every schedule the promises allow, responses come in input order, one fitting response per line except initialized notifications, with the outcome the schedule gave that line's call; at most one link is under way; and the calls made are the lines' own, with their ids, names and arguments, in order |
| StdioServer.ReactFits | apps/agent-mcp/src/stdio-server.js:14-52 | a line gets silence, the answer its shape calls for with its id (null if absent or unreadable), code and message, or the call it asks for, with its own name and arguments |
| StdioServer.CloseWaits | apps/agent-mcp/src/stdio-server.js:76-81 | a close, which awaits the tail promise it captured, resolves only after every line that arrived before it is answered |
| StdioServer.CloseResolves | apps/agent-mcp/src/stdio-server.js:76-81 | and it can resolve once all promises have settled |
| StdioServer.EachStepDrains | apps/agent-mcp/src/stdio-server.js:58-75 | every step but an arrival, whatever tools answer, uses up some of at most four steps a line |
| StdioServer.NeverStuck | apps/agent-mcp/src/stdio-server.js:58-75 | in every reachable state with an unsettled promise some such step is enabled, so all lines get answered once none arrive |

## Left out

- The exact-key checks on a bootstrap configuration, the parsing of timestamps and URLs (an origin is its scheme and a host without path, query, fragment or space), the database role names, and the cached mark on accepted configurations.
- The capability lists of the production profiles: they are a parameter of an entry, and `Seedable` says what they must meet.
- The 36-character suffixes of generated ids, and lengths in code points where they differ from those in JavaScript characters.
- The contents of a capital partner profile other than the length of its reference: its presence stands for a matching row.
- Row locks and advisory locks: transactions are atomic steps of a run.
- Provision, reprovision and revocation of production Agents are modelled on values: their statements are few and have no loop, and the update in place is not captured.
- Credentials that are suspended or expire by a status change, session rows other than those a rotation ends, and human role enrollment outside seeding: no operation modelled here makes them.
- The gateway call that follows a runtime's creation, and the decryption and key checks of `materialFor`.
- SandboxSessions.SessionCache.EntryForSession: keeps the last-seen time in the Map slot, not in the entry object; nothing else writes it.
- The microtask timing of promises beyond the order in which one can settle after another.
- Definitions looked up by inherited property names such as `constructor`.
- Quoted cookie values and header lists joined by other means than a semicolon and a space.
- Numbers where a request identifier is expected: the source's patterns would read their decimal text.
- AgentTransport.RoundTrip: stops at the Agent client's `execute`, which adds an action confirmation and checks the request against the protocol schema before any gateway sees it (modules/tenant-command-gateway/src/tenant-command-clients.js:54-83); a command with a malformed amount is encoded and refused there.
- The SDK's own checks of inputs and responses, which are a parameter of the workflows.
- AgentResume.Conserved: leaves out installment rows and the day count of the accrual, whose amounts are parameters.
- StdioServer.EveryRun: assumes that writes do not throw, as the server does not handle it; a notification that carries an id is not answered either, as in the source.
- HTTP serving, static files, headers, cryptography, grants and row-level security, metered usage charging, the servicing clock, the outbox worker and the other MCP tools.
