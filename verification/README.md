# Verified model of the multi-tenant backend

A Dafny model of the parts of the backend that carry state or reason about text, with proofs
of what those parts promise.

- **Templates.** `PlaceholderText` is the scanner behind both token expressions, the strict one
  of platform defaults and the `\w+` one of tenant overrides and rendering; `Braces` proves what
  replacing tokens does to double braces; `TemplateValidation` is the content check of defaults
  and the required-key check of overrides; `TemplateRendering` is the platform preview, the
  tenant preview and the runtime renderer, and `TenantRendering` the lookups by which a tenant's
  text is shown and sent. `TemplateStore` is the database of defaults,
  overrides, audit events, row locks and advisory locks as a machine whose steps are the
  statements and commits of interleaved transactions. `TemplateSafety` proves its invariant
  over every interleaving, `TemplateGuarantees` what follows for tenants and auditors, and
  `TemplateDatabase` the statements themselves on the tables they change.
- **Usernames.** `Usernames` has the shapes, the two derivations from an email and the numbered
  candidates, `UsernameDerivation` what the derivations compute, in positions of the address;
  `UsernameAllocators` the migration's unbounded loop with its backfill and the
  bounded loop of the service; `UsernameCollisions` when numbered candidates coincide.
- **Access.** `Lockout` is the failure counter with its time bound, `Credentials` the accounts,
  tokens and sessions with every request as one atomic step, `CredentialEffects` what each
  request changes about the credentials that are accepted, `AuthDatabase` the requests on the
  tables. `Onboarding` and `OnboardingService` are the provisioning of a tenant's first
  administrator, beside the tenant's assignment of roles. `TenantAccess` runs that machine and the
  credential machine together, and `TenantProvisioning` is the requests with all they write:
  users, accounts, sessions, roles, page grants and role links. `TenantContext` is row-level
  security on pooled connections in three-valued logic, `ConnectionPool` the session manager.
- **Roles.** `PageAccess` is the fold of grants into one level per page, `RoleSeeding` the
  reconciliation of built-in roles composed with the resolver, and `RoleCloning`,
  `RoleCloneRun` and `RoleCloneGuarantees` the copying of role templates into a tenant in a
  session that does not flush by itself. `RoleProvisioning` is cloning followed by seeding, as
  registration and the granting of an offering run them.
- **Counts.** `UsageCounts` is the pair of tenant counts in the template listing.

Where code changes state the model has a class whose methods change fields, or a method with a
loop; each is proved equal to a function or a step of a machine, and the theorems are about that
function or machine. The classes of the machines have a `Valid()` that says the proved invariant,
required and kept by every request. `dafny verify dfyconfig.toml` checks everything.

## What the proofs found

- **Cloning can fail.** The session does not flush by itself, so a template does not see the
  grants that an earlier template with the same role code has added since the last flush. Role
  codes are unique only within an offering, or among core templates, which have none. Two
  available templates with one code that give one entitled page the role lacks make the flush
  violate the unique constraint, unless a template between them creates a role (which flushes).
  `RoleCloning.CloneIsExact` states the exact condition. The shipped administrator template, which
  a migration links to the tenant administration offering, and a core template with the same code
  are such a pair: `RoleCloneGuarantees.SecondAdminTemplateClashes`.
- **Seeding silences cloned built-in roles.** Seeding sets every active role marked as built in,
  including those cloned from a template so marked, to `none` on every tenant page unless its
  code is `TENANT_ADMIN`. What a template gives survives the seeding that always follows exactly
  when its role is not built in or the level is that default
  (`RoleProvisioning.SeedingAfterCloning`). The shipped Task Manager role therefore gives nothing
  after registration (`RoleProvisioning.TaskManagerMayNothing`).
- **The tenant preview differs from what is sent** exactly when the default or the effective
  template is switched off (shown, never sent) or the effective subject is present and empty (sent
  as empty, shown as absent): `TemplateRendering.PreviewShowsRuntime` for every effective value,
  `TenantRendering.PreviewShowsWhatIsSent` in every reachable state. One accepted save reaches
  either case (`TenantRendering.InactiveIsShownNotSent`, `EmptySubjectIsSentNotShown`).
- **Fewer names than attempts.** Candidates of different digit lengths coincide exactly when the
  base has a digit from 1 to 9 among its 47th to 49th characters, or 50 characters of which the last
  is a digit from 2 to 9 (`UsernameCollisions.AttemptsDifferExactly`). The 9999 attempts of the
  service are never fewer than 9000 names, and exactly 9000 for a base that ends in `1112` after
  46 characters (`UsernameCollisions.NineThousandIsReached`).
- **Ids decide the first administrator.** Registration creates two administrators in one
  transaction, with one creation time. Until roles change, the request that regenerates a lost
  password succeeds only if the contact has the smaller random id. The older rotation route takes
  whichever administrator an unordered query returns, and succeeds only if that is the contact
  (`Onboarding.RegistrationDecides`). Either way the contact's user is the only one whose password
  they ever replace (`Onboarding.OneUserIsRotated`).
- **Enabling is for tenants whose contact is not a user.** Contacts and addresses are never edited
  and registration makes the contact a user, so no registered tenant is ever enabled, nor a tenant
  a second time, even one whose only administrator has lost the role
  (`Onboarding.EnabledExactly`, `Onboarding.OnboardingIsOnce`).
- **Completed tenants can become pending again.** Anyone who may assign roles can take the
  administrator role from the first administrator or give it to an older user whose password is
  still to be changed (`Onboarding.SetupUserLeaves`). Requests of no other kind do so
  (`Onboarding.CompletedIsFinal`), and the password of a user who has chosen one is replaced by
  nobody else (`TenantAccess.ChosenPasswordStays`).
- **The lockout bound is tight** (`Lockout.BoundIsReached`), and a login in the middle of a window
  gives back at most one failure less than the limit (`Lockout.FailuresInWindow`).

## Model

| member | source | states |
|---|---|---|
| `PlaceholderText.MatchLenExact` | backend/app/task_management/schemas/platform_default_template.py:14 | the scanner reports a token of length n exactly when the first n characters match the token expression, so a match has one possible length |
| `PlaceholderText.FindAllIsExact` | backend/app/task_management/schemas/platform_default_template.py:53 | `findall` lists a key exactly when a token with that key stands somewhere in the text: no occurrence is hidden by left-to-right, non-overlapping scanning |
| `PlaceholderText.TokensDoNotNest` | backend/app/task_management/schemas/platform_default_template.py:53 | no token starts strictly inside another |
| `PlaceholderText.SubstituteIsMeaning` | backend/app/common/template_renderer.py:134-142 | one substitution pass equals replacing tokens in the parse tree; inserted values are never scanned again |
| `PlaceholderText.SubstituteSource` | backend/app/common/template_renderer.py:139-140 | a renderer that gives every key its own token text back, for all keys or just those found, leaves the text as it was |
| `PlaceholderText.ParseJoined` | backend/app/task_management/schemas/platform_default_template.py:50 | the newline that joins subject and body is never part of a token: the joined text parses as the two fields |
| `PlaceholderText.FindAllJoined` | backend/app/modules/configurations/service.py:286 | the keys found in the joined text are those of the subject followed by those of the body |
| `Braces.OpenPairsAfterSubstitute` | backend/app/task_management/schemas/platform_default_template.py:54-55 | without triple braces, replacing tokens by brace-free text leaves a `{{` exactly when some `{{` of the original opened no token |
| `Braces.ClosePairsAfterSubstitute` | backend/app/task_management/schemas/platform_default_template.py:54-55 | the same for `}}`: erasing neither creates nor hides a closing pair |
| `Braces.NoCloseAfterToken` | backend/app/task_management/schemas/platform_default_template.py:51-55 | text that begins with a token does not begin with `}` once tokens are replaced by brace-free values |
| `Braces.StrictKeysAgree` | backend/app/modules/configurations/service.py:26 | a key a placeholder may declare is found by the `\w+` expression exactly when the strict expression finds it |
| `Braces.ParsesAgree` | backend/app/common/template_renderer.py:10 | where every `{{` opens a strict token both expressions read the same parse tree |
| `TemplateValidation.ValidateIsExact` | backend/app/task_management/schemas/platform_default_template.py:38-73 | the validator accepts iff keys are unique, no triple brace occurs, every `{{` opens and every `}}` closes a token, every token key is declared and every required key occurs |
| `TemplateValidation.EraseIsExact` | backend/app/task_management/schemas/platform_default_template.py:51-56 | erase-and-look finds leftover braces exactly when some double brace is not part of a token |
| `TemplateValidation.RefusalsAreExact` | backend/app/task_management/schemas/platform_default_template.py:44-73 | each of the four refusals is given iff its fault is there and none of an earlier test is, and names exactly the repeated, undeclared or missing keys |
| `TemplateValidation.AcceptedDefaultsPassOverrideCheck` | backend/app/modules/configurations/service.py:269-292 | an accepted default has no key missing under the tenant's check, and both token expressions parse it alike |
| `TemplateValidation.OverrideCheckIsStrict` | backend/app/modules/configurations/service.py:269-292 | the tenant's check passes iff every required key occurs as a strict token |
| `TemplateRendering.BuildContext` | backend/app/modules/configurations/service.py:252-255 | the loop that fills a preview context computes the function the rendering theorems use |
| `TemplateRendering.PreviewContextKeys` | backend/app/modules/platform_default_templates/service.py:343-349 | the context of a preview has exactly the declared keys |
| `TemplateRendering.PreviewContextAt` | backend/app/modules/platform_default_templates/service.py:343-349 | a key's value is the request's sample, or else the sample value of the last placeholder with that key |
| `TemplateRendering.RenderOrFailIsSubstitute` | backend/app/modules/platform_default_templates/service.py:351-355 | a pass that indexes the context succeeds iff every token key is in it, and then equals the pass that leaves unknown tokens alone |
| `TemplateRendering.PreviewIsSubstitution` | backend/app/modules/platform_default_templates/service.py:340-360 | on accepted content the preview meets no missing key and equals substitution in the parse trees of subject and body separately |
| `TemplateRendering.PreviewLeavesNoBraces` | backend/app/modules/platform_default_templates/service.py:340-360 | with brace-free values the preview of accepted content has no `{{` and no `}}` |
| `TemplateRendering.RenderersAgree` | backend/app/common/template_renderer.py:71-87 | on accepted content of an active template the platform preview and the runtime renderer, which use different expressions, give the same text |
| `TemplateRendering.UnknownKeysSurvive` | backend/app/common/template_renderer.py:134-142 | text none of whose keys is known is rendered unchanged |
| `TemplateRendering.PreviewShowsRuntime` | backend/app/common/template_renderer.py:68-87 | for every effective value the tenant preview is what the runtime sends iff the value is active and its subject is not present and empty |
| `TenantRendering.PreviewShowsWhatIsSent` | backend/app/modules/configurations/service.py:240-264 | in every reachable state, lookups included, a tenant is shown what is sent iff it is not entitled, or default and effective value are active and the effective subject is not present and empty |
| `TenantRendering.CategoriesStayActive` | backend/app/modules/configurations/repository.py:282-309 | every template is in an active category, so that part of the runtime lookup refuses nothing more |
| `TenantRendering.InactiveIsShownNotSent` | backend/app/common/template_renderer.py:71-74 | after any accepted first save that switches the template off the preview shows text and nothing is sent |
| `TenantRendering.EmptySubjectIsSentNotShown` | backend/app/modules/configurations/service.py:257 | after any accepted first save of an empty subject that leaves the template on, the runtime sends an empty subject and the preview shows none |
| `TenantRendering.SwitchingOffIsAccepted` | backend/app/modules/configurations/service.py:147-170 | switching a valid default off, and nothing else, is accepted |
| `TenantRendering.NoticeIsValid` | backend/app/modules/configurations/service.py:269-292 | both kinds of save are accepted for a concrete valid default |
| `TemplateDatabase.BuildContract` | backend/app/modules/platform_default_templates/service.py:234-243 | the loop computes the placeholder contract: key to required flag, later entries winning |
| `TemplateGuarantees.ContractIs` | backend/app/modules/platform_default_templates/service.py:234-243 | a key is in the contract iff it is declared, with the flag of its last declaration |
| `TemplateStore.PlaceholderIs` | backend/app/task_management/schemas/platform_default_template.py:12-20 | a placeholder has a key of 1 to 64 lower-case letters, digits and underscores that begins with a letter, a caption of 1 to 100 characters and a sample of at most 1000 |
| `TemplateDatabase.Database.CreateTemplate` | backend/app/modules/platform_default_templates/service.py:128-205 | creating stores an active row at version 1, its category and one audit event iff the offering exists, the content is valid and the code new; otherwise the tables are as they were |
| `TemplateDatabase.Database.MayUpdate` | backend/app/modules/platform_default_templates/service.py:216-262 | the checks before an update pass iff the row exists at the expected version, the contract is unchanged and the merged content is valid |
| `TemplateDatabase.Database.LoadForUpdate` | backend/app/modules/platform_default_templates/service.py:208-262 | a request that passes the checks goes on with the row it loaded, and nothing committed changes |
| `TemplateDatabase.Database.UpdateIfVersion` | backend/app/modules/platform_default_templates/repository.py:218-237 | the conditional update takes the row iff its committed version is the expected one; otherwise the transaction is over and nothing has changed |
| `TemplateDatabase.Database.CommitUpdate` | backend/app/modules/platform_default_templates/service.py:289-336 | each column is the patch's value if it has one and as it was otherwise, the row is valid under the same contract at the next version, and the event states old row, new row and exactly the changed fields; overrides stay and the locks are free |
| `TemplateDatabase.Database.UpsertOverride` | backend/app/modules/configurations/repository.py:356-406 | an existing override gets the merged subject and body and keeps metadata and activity that the request leaves out; a missing one is inserted, active unless the request says otherwise |
| `TemplateDatabase.Database.EntitledTemplate` | backend/app/modules/configurations/repository.py:135-158 | the template is found iff it is there and some entitlement of the tenant to its offering is active and within its time |
| `TemplateDatabase.Database.LoadForSave` | backend/app/modules/configurations/service.py:135-143 | a save starts iff the template exists and the entitlement rows entitle the tenant to its offering at that instant, and keeps the default it loaded |
| `TemplateDatabase.Database.LoadForReset` | backend/app/modules/configurations/service.py:206-214 | a reset starts iff the template exists and the entitlement rows entitle the tenant to its offering at that instant |
| `TemplateDatabase.Database.LockForReset` | backend/app/modules/configurations/service.py:216-220 | a reset that has the lock is the only save or reset past this point on its slot; every other lock is as it was |
| `TemplateDatabase.Database.LockOverrideSlot` | backend/app/modules/configurations/repository.py:342-353 | a save that has the lock holds its key alone: no other save or reset of the slot is past this point, and every other lock is as it was |
| `TemplateDatabase.Database.ReadOverride` | backend/app/modules/configurations/repository.py:325-339 | the override read is the committed one, and no other request can change it before this one ends |
| `TemplateDatabase.Database.Merge` | backend/app/modules/configurations/service.py:151-170 | supplied fields and effective ones for the rest, accepted iff the body is not null and no required key is missing |
| `TemplateDatabase.Database.FinishSave` | backend/app/modules/configurations/service.py:157-192 | accepted or refused, every required key of the current default occurs in what the tenant sees afterwards; the slot holds what the request gives on the override that was committed, and no other slot changes |
| `TemplateDatabase.Database.FinishReset` | backend/app/modules/configurations/repository.py:409-424 | a reset tells whether there was an override, and the tenant sees the current default again; no other slot changes |
| `TemplateDatabase.Database.Rollback` | backend/app/modules/configurations/repository.py:350-353 | a transaction that is given up leaves all committed data and every lock of the others |
| `TemplateDatabase.Database.ValidKeepsInv` | backend/app/modules/platform_default_templates/service.py:208-337 | whatever statements have been executed, tables, locks and open transactions meet the invariant of the machine |
| `TemplateDatabase.Database.EffectiveTemplate` | backend/app/modules/configurations/repository.py:32-59 | the resolved value is the override's or the default's field by field, metadata key by key with the override winning, and after any run of the statements holds every required key of the current default |
| `TemplateGuarantees.EffectiveIs` | backend/app/modules/configurations/repository.py:32-59 | the same of every default and override, with the mark of customisation |
| `TemplateGuarantees.SavedIsSeen` | backend/app/modules/configurations/service.py:145-181 | after an accepted save the tenant sees the supplied fields, for the others what it saw before, and the supplied metadata over the default's |
| `TemplateGuarantees.SaveAcceptedIs` | backend/app/modules/configurations/service.py:151-170 | a save is accepted iff the body is not null and every required key of the default occurs in the merged text |
| `TemplateGuarantees.CodesStayUnique` | backend/app/modules/platform_default_templates/service.py:198-203 | in every reachable state a code names one template |
| `TemplateSafety.AllowedUpdate` | backend/app/modules/platform_default_templates/service.py:222-321 | an allowed update writes valid content under the same contract, and its audit event states the written row and exactly the changed fields |
| `TemplateSafety.DiffIs` | backend/app/modules/platform_default_templates/service.py:289-321 | a changed field is named iff its values differ |
| `TemplateSafety.RunKeeps` | backend/app/modules/platform_default_templates/service.py:208-337 | every interleaving of creations, updates, saves, resets and aborts keeps the invariant over rows, locks, transactions, overrides, events and logs |
| `TemplateGuarantees.EffectiveKeepsRequired` | backend/app/modules/configurations/service.py:135-170 | in every reachable state each tenant's effective subject and body hold a token for every required placeholder of the current default, also when a save was merged against an older one |
| `TemplateSafety.AcceptedSaveIsComplete` | backend/app/modules/configurations/service.py:157-170 | a save accepted against an older default is complete for every later default |
| `TemplateGuarantees.UpdatesAreAChain` | backend/app/modules/platform_default_templates/service.py:208-337 | a template's version is 1 plus its committed updates, its row is valid, and its audit events form a chain from the first row to the current one with consecutive versions |
| `TemplateGuarantees.SlotIsSerial` | backend/app/modules/configurations/service.py:145-181 | the committed override of a slot equals folding its requests one by one in lock order, and all against the one default when that was never edited |
| `TemplateGuarantees.SavesCompose` | backend/app/modules/configurations/service.py:145-163 | two accepted saves act as one save that keeps every field the later one leaves out; for disjoint ones the order does not matter |
| `TemplateGuarantees.OnlyOwnRequestsAreLogged` | backend/app/modules/configurations/service.py:145-181 | only a finishing save or reset of the slot itself extends its history |
| `TemplateGuarantees.OverridesAreIsolated` | backend/app/modules/configurations/repository.py:32-59 | while no request of a slot finishes, a customised tenant keeps its text whatever is committed, a tenant without override sees the current default, and a finished reset leaves no override |
| `Usernames.BaseIsUsername` | backend/app/auth/username_identity.py:31-40 | the base derived from any address is a legal username |
| `UsernameDerivation.BaseIsDerived` | backend/app/auth/username_identity.py:31-40 | the base is the legal characters of the local part in order, without marks at either end, if they begin with a letter, and otherwise their letters and digits behind `user`; padded by `x` to 3 and cut at 50 |
| `UsernameDerivation.DerivedIsBase` | backend/app/auth/username_identity.py:31-40 | that description, in positions of the address, is met by no other text |
| `UsernameDerivation.MigrationIsDerived` | backend/alembic/versions/0037_usernames_and_config_templates.py:22-31 | the migration's base meets it too, an empty address reading `user` |
| `UsernameDerivation.SelectionIsKeep` | backend/app/auth/username_identity.py:33 | what removing by a character class leaves is exactly the characters at the other positions, in order |
| `UsernameDerivation.StrippedIsStrip` | backend/app/auth/username_identity.py:33 | stripping cuts exactly the longest ends of such characters |
| `UsernameDerivation.AlphabetsAre` | backend/app/auth/username_identity.py:33-35 | the classes are letters and digits, and with the three marks |
| `Usernames.DerivationsAgree` | backend/alembic/versions/0037_usernames_and_config_templates.py:22-31 | the migration's derivation and the service's, each with its own body, give the same base for every address |
| `Usernames.ParseIsExact` | backend/app/auth/username_identity.py:19-28 | parsing accepts exactly the texts that strip to a username; the separate test for `@` refuses nothing more |
| `Usernames.SpacesAre` | backend/app/auth/username_identity.py:20 | stripping a typed username removes exactly the white space code points |
| `Usernames.UsernameIs` | backend/app/auth/username_identity.py:15 | a username is a letter and 2 to 49 letters, digits, dots, underscores and hyphens |
| `Usernames.FoldIs` | backend/alembic/versions/0037_usernames_and_config_templates.py:37 | names are equal without regard to case iff they differ at most in the case of letters |
| `Usernames.DecimalRoundTrip` | backend/app/auth/username_identity.py:99 | the decimal text of a suffix reads as that number, without leading zeros |
| `Usernames.CandidateIs` | backend/app/auth/username_identity.py:100 | a candidate is the number behind as much of the base as fits into 50 characters, one character at least |
| `Usernames.DecimalInjective` | backend/app/auth/username_identity.py:99 | different suffixes have different decimal texts |
| `Usernames.CandidatesDiffer` | backend/alembic/versions/0037_usernames_and_config_templates.py:38-39 | candidates whose suffixes have the same number of digits differ without regard to case, also when the base is truncated |
| `Usernames.CandidateIsUsername` | backend/alembic/versions/0037_usernames_and_config_templates.py:38-39 | a candidate is a legal username iff its suffix is below 10^49 |
| `Usernames.Pigeonhole` | backend/alembic/versions/0037_usernames_and_config_templates.py:37 | a set holding n different candidates has at least n members |
| `Usernames.FreeSuffixExists` | backend/alembic/versions/0037_usernames_and_config_templates.py:34-42 | for every finite set of names some suffix below a bound given by its size is free, which is why the unbounded loop ends |
| `UsernameAllocators.NameRegistry.Allocate` | backend/alembic/versions/0037_usernames_and_config_templates.py:34-42 | the loop ends for every set of names with the first free candidate, and adds just that name |
| `UsernameAllocators.FirstFreeIsUnique` | backend/alembic/versions/0037_usernames_and_config_templates.py:34-42 | the first free candidate is determined by base and used names |
| `UsernameAllocators.NumberingStartsAtTwo` | backend/alembic/versions/0037_usernames_and_config_templates.py:34-42 | a base that is taken becomes the base followed by 2 if that is free, in both allocators |
| `UsernameAllocators.UserTable.Backfill` | backend/alembic/versions/0037_usernames_and_config_templates.py:45-53 | the backfill names every row of the table by the allocator, in order, and nothing else |
| `UsernameAllocators.AllocatedAt` | backend/alembic/versions/0037_usernames_and_config_templates.py:45-53 | row by row the name is the first free one for the row's address, a missing one reading `None` |
| `UsernameAllocators.AllocatedAreDistinct` | backend/alembic/versions/0037_usernames_and_config_templates.py:45-53 | after the backfill no two usernames are equal without regard to case |
| `UsernameAllocators.AllocatedAreLegal` | backend/alembic/versions/0037_usernames_and_config_templates.py:45-53 | with at most 10^48 rows every username has 3 to 50 legal characters and starts with a letter |
| `UsernameAllocators.AllocateUnique` | backend/app/auth/username_identity.py:92-104 | the service's loop returns the first untaken candidate, which is legal, and gives up only when all it tries are taken |
| `UsernameAllocators.TriedIsUsername` | backend/app/auth/username_identity.py:96-101 | no candidate it tries is refused for its shape |
| `UsernameAllocators.ExhaustionNeedsManyNames` | backend/app/auth/username_identity.py:103-104 | giving up takes at least 9000 different names, and 9999 when the base has at most 46 characters |
| `UsernameCollisions.AttemptsDifferExactly` | backend/app/auth/username_identity.py:92-102 | the 9999 attempts try pairwise different names iff the base has no nonzero digit at positions 46 to 48 and, if it has 50 characters, no last digit of at least 2 |
| `UsernameCollisions.NamesAreCounted` | backend/app/auth/username_identity.py:92-102 | the attempts try between 9000 and 9999 names, and 9999 exactly under that condition |
| `UsernameCollisions.NineThousandIsReached` | backend/app/auth/username_identity.py:92-102 | for a base of 46 characters followed by `1112` they are exactly 9000 |
| `UsernameCollisions.NineThousandExhaust` | backend/app/auth/username_identity.py:92-104 | there are addresses for which 9000 taken names make the service give up |
| `UsernameCollisions.CoincidenceExists` | backend/alembic/versions/0037_usernames_and_config_templates.py:38-39 | a base with such a digit gives the same name for two suffixes |
| `Lockout.RunKeepsSound` | backend/app/auth/login/service.py:115-127 | in every state of every run with a clock that does not go back the failure counter stays below the limit |
| `Lockout.FailuresWithinBudget` | backend/app/auth/login/service.py:224-244 | failed checks are bounded by a budget that successes and password changes reopen |
| `Lockout.FailuresInWindow` | backend/app/auth/login/service.py:110-127 | in any window of length T without successes and resets at most limit * (T / lockout + 1) checks fail; each reset adds at most limit and each success at most limit - 1 |
| `Lockout.BoundIsReached` | backend/app/auth/login/service.py:110-127 | the bound cannot be lowered: for every number of lockouts a run reaches it |
| `Lockout.RetryAfterIsExact` | backend/app/auth/login/service.py:102-112 | waiting the announced seconds is enough, one second less is not |
| `Credentials.RunKeeps` | backend/app/auth/login/service.py:418-611 | every request keeps the invariant tying tokens and sessions to the epoch of their account |
| `Credentials.AcceptedIsCurrent` | backend/app/auth/deps.py:53-60 | in every reachable state an accepted bearer token or browser session was issued no earlier than the account's latest password change or bootstrap rotation |
| `Credentials.ChangeLeavesOneCredential` | backend/app/auth/login/service.py:549-611 | right after a password change exactly one credential of the account is accepted: the replacement on the request's own channel |
| `Credentials.RevocationIsFinal` | backend/app/auth/deps.py:87-93 | versions never go down, a dead session never opens again, and a token of a past version is refused for good |
| `CredentialEffects.LoginAddsOneCredential` | backend/app/auth/login/service.py:183-246 | a login is granted iff the account is known, unlocked and active and the password right; it then adds exactly one accepted credential, and otherwise none, and no other account changes |
| `CredentialEffects.RotationLeavesNoCredential` | backend/app/auth/tenant_admin_onboarding.py:293-301 | rotating a pending password ends every credential of that user and no other |
| `CredentialEffects.ChangeIsExact` | backend/app/auth/login/service.py:526-552 | a password changes iff the account is active, the current password right, the new one another and allowed, and the channel's key new; it is then the new one, and otherwise nothing changes |
| `CredentialEffects.ChangeIsConfined` | backend/app/auth/login/service.py:528-558 | a refused password change changes nothing, and a successful one leaves the credentials of other accounts alone |
| `CredentialEffects.LogoutEndsOneSession` | backend/app/auth/login/service.py:661-674 | after a logout the middleware accepts what it did, except that one session |
| `CredentialEffects.CleanupIsInvisible` | backend/app/auth/login/service.py:677-696 | what cleaning up deletes was refused already: from then on the same credentials are accepted |
| `CredentialEffects.InactiveIsRefused` | backend/app/auth/deps.py:51-52 | a deactivated account has no accepted credential, and other accounts keep theirs |
| `Credentials.LockIsProjection` | backend/app/auth/login/service.py:224-244 | the credential machine moves each account's lock as the lock machine alone would |
| `Credentials.FailedLoginsAreBounded` | backend/app/auth/login/service.py:224-244 | the window bound holds for one account whatever requests of other accounts interleave |
| `AuthDatabase.Database.Login` | backend/app/auth/login/service.py:183-246 | granted iff known, unlocked, active and the password right; then exactly one new credential is accepted besides those before and the lock is open; an unlocked wrong attempt is counted, and nothing else changes |
| `AuthDatabase.Database.ChangePassword` | backend/app/auth/login/service.py:515-611 | changed iff the account is active, the current password right, the new one another and allowed; then the account has one accepted credential, the replacement, and a refused change leaves the tables |
| `AuthDatabase.Database.RotateBootstrap` | backend/app/auth/tenant_admin_onboarding.py:290-301 | the writes of a rotation, made iff the password is pending: no credential of that user is accepted then and all of the others are |
| `AuthDatabase.Database.RegisterFailure` | backend/app/auth/login/service.py:115-127 | a failure adds one, or locks the account and starts at zero when the limit is reached |
| `AuthDatabase.Database.RevokeSessions` | backend/app/auth/login/service.py:554-558 | exactly the open sessions of the account are revoked |
| `AuthDatabase.Database.Logout` | backend/app/auth/login/service.py:661-674 | the same tokens and sessions are accepted but for the one session named |
| `AuthDatabase.Database.Cleanup` | backend/app/auth/login/service.py:677-696 | exactly the expired and the revoked sessions are deleted, and from then on the same tokens and sessions are accepted |
| `AuthDatabase.Database.SetActive` | backend/app/auth/accounts/service.py:196-259 | an account is switched on or off and nothing else of it; switched off it has no accepted credential, and revoked sessions are not accepted after it is on again |
| `AuthDatabase.Database.AcceptToken` | backend/app/auth/deps.py:42-93 | a token is accepted iff it is signed, its account active and its version current, where a tenant's without one counts as 1 and a platform's is refused |
| `AuthDatabase.Database.AcceptSession` | backend/app/auth/login/service.py:614-630 | a session is accepted iff it is there, not revoked, not expired and of an active account |
| `OnboardingService.Provisioning.FirstTenantAdmin` | backend/app/auth/tenant_admin_onboarding.py:109-123 | the query returns the administrator created first, by id among equals, and nothing iff there is none |
| `OnboardingService.Provisioning.Register` | backend/app/tenant_management/tenants/service.py:121-228 | registration makes a tenant at version 1 and its two administrators iff no tenant has the contact's address and the setup user's is another |
| `OnboardingService.Provisioning.AddUser` | backend/app/auth/accounts/service.py:85-135 | a user is made iff the address is not the contact's and nobody's in the tenant, with or without the role, and a password to change |
| `OnboardingService.Provisioning.ChangeStatus` | backend/app/tenant_management/tenants/service.py:711-780 | suspending and activating needs the current version and a new key, and changes the status and the version only |
| `TenantProvisioning.Service.Enable` | backend/app/auth/tenant_admin_onboarding.py:134-247 | enabling succeeds iff tenant, version, key, absence of an administrator, a username and the address allow it; the contact is then the first administrator with a legal username, may modify every entitled page, has an account that the bootstrap password opens and no credential yet; refused, nothing anywhere changes |
| `TenantProvisioning.Service.Regenerate` | backend/app/auth/tenant_admin_onboarding.py:250-329 | regenerating succeeds iff version, key, a pending first administrator and its address allow it; that user then has no accepted credential and everyone else those they had |
| `OnboardingService.Provisioning.RotateFirstAccess` | backend/app/auth/first_admin.py:214-262 | the other rotation replaces the password of some administrator, of those pending with the contact's address, or nothing; which one it looks at is the query's choice |
| `TenantProvisioning.Service.ChangePassword` | backend/app/auth/login/service.py:515-611 | a user's own change of password goes to the account and to the user together, and completes the tenants whose first administrator that is |
| `TenantProvisioning.Service.AssignRoles` | backend/app/access_control/tenant/roles/service.py:159-173 | roles are replaced iff the user is the tenant's and all chosen ones are its active roles; the user then holds exactly those and nobody else's change |
| `OnboardingService.Provisioning.AssignRoles` | backend/app/access_control/tenant/roles/service.py:159-173 | giving or taking the administrator role changes who is first iff it goes to someone from before the first administrator or is taken from that one |
| `Onboarding.PhaseStep` | backend/app/auth/tenant_admin_onboarding.py:134-329 | a request that displaces nobody moves a tenant at most from no administrator by creating or appointing one, or from pending to completed by a password change of the first administrator, with any number of administrators |
| `Onboarding.FirstChangesExactly` | backend/app/auth/tenant_admin_onboarding.py:109-123 | one request changes the first administrator of a tenant iff it displaces that one |
| `Onboarding.FirstAdminIsForGood` | backend/app/auth/tenant_admin_onboarding.py:109-123 | while creation times within the tenant increase, its first administrator is the same all along a run, whoever else gets or loses the role, iff no request displaces it |
| `Onboarding.PhasesOnlyAdvance` | backend/app/auth/tenant_admin_onboarding.py:134-329 | over any such run without displacement phases never go back |
| `Onboarding.OnboardingIsOnce` | backend/app/auth/tenant_admin_onboarding.py:143-184 | over any run from any tenants and users, whoever gets or loses the role, a tenant is enabled at most once and before any regeneration, and no version of a tenant and no key succeeds twice |
| `Onboarding.EnabledExactly` | backend/app/auth/email_identity.py:60-76 | a tenant can still be enabled, by some run, iff it is there and no user of it has its contact's address |
| `Onboarding.NeverEnabled` | backend/app/tenant_management/tenants/service.py:146-228 | no run enables a tenant whose contact is a user, or that registers during the run |
| `Onboarding.ContactStays` | backend/app/auth/accounts/service.py:196-236 | no request changes the contact of a tenant or the address of a user |
| `Onboarding.OneUserIsRotated` | backend/app/auth/tenant_admin_onboarding.py:265-283 | all along a run the user with the contact's address is the only one of the tenant whose bootstrap password either rotation can replace |
| `Onboarding.AdminsStayExactly` | backend/app/access_control/tenant/roles/service.py:159-173 | a tenant is left without an administrator iff its only one loses the role |
| `Onboarding.RegistrationDecides` | backend/app/tenant_management/tenants/service.py:217-228 | registration creates two administrators at one time, so ids decide who is first; a lost password can be regenerated iff that is the contact, and rotated iff the query returns the contact |
| `Onboarding.CompletedStep` | backend/app/auth/tenant_admin_onboarding.py:272-276 | a completed tenant stays completed under a request unless that makes someone first who has a password to change, or nobody |
| `Onboarding.CompletedIsFinal` | backend/app/auth/tenant_admin_onboarding.py:272-276 | a tenant stays completed all along a run iff no request is of that kind, and then no enable or regenerate of it succeeds |
| `Onboarding.SetupUserLeaves` | backend/app/access_control/tenant/roles/service.py:159-173 | a run from the empty database in which a completed tenant becomes pending again and a password is regenerated |
| `Onboarding.SuccessesAreGuarded` | backend/app/auth/tenant_admin_onboarding.py:143-168 | a success used the current version and a new key, in the phase it is for |
| `TenantAccess.JointRunKeeps` | backend/app/auth/tenant_admin_onboarding.py:290-301 | along every joint run of tenancy and login requests each user and the user's account agree on version and pending reset, and both machines' invariants hold |
| `TenantAccess.JointRunIsBoth` | backend/app/auth/tenant_admin_onboarding.py:134-329 | a joint run is a run of the provisioning machine and one of the credential machine, so all that is proved of those holds of it |
| `TenantAccess.RegenerateEndsCredentials` | backend/app/auth/tenant_admin_onboarding.py:250-329 | a regeneration ends every accepted credential of the tenant's first administrator and of nobody else, or does nothing |
| `TenantAccess.RegistrationOpensBoth` | backend/app/tenant_management/tenants/service.py:217-228 | the two users of a registration get accounts with the password made for each, and no other account changes |
| `TenantAccess.MakingOpensOne` | backend/app/auth/accounts/service.py:115-128 | a new user's account has the password made for it, to be changed, and no other account changes |
| `TenantAccess.RegeneratedForGood` | backend/app/auth/deps.py:87-93 | in no later joint run is a token or session of that user from before accepted again |
| `TenantAccess.ChosenPasswordStays` | backend/app/auth/tenant_admin_onboarding.py:272-276 | once a user has chosen a password, no joint run without that user's own change replaces it, whatever the platform or administrators request |
| `ConnectionPool.Manager.SessionFor` | backend/app/common/db/session.py:76-98 | a session opens iff it has no principal, a user whose tenant is absent or a well-formed identifier, or a verified administrator; its scope then reaches exactly the tenants of that principal |
| `ConnectionPool.Manager.AfterBegin` | backend/app/common/db/session.py:29-51 | after the hook the policy admits the connection to exactly the tenants the session may reach, whatever ran on it before |
| `ConnectionPool.Manager.Commit` | backend/app/common/db/session.py:64-74 | after a commit a written row is in the table with its value, a removed one is not, every other one is as it was, and the free connection is admitted to nothing |
| `ConnectionPool.Manager.Rollback` | backend/app/common/db/session.py:64-74 | a rollback leaves the table, and the free connection is then admitted to nothing |
| `ConnectionPool.Manager.Select` | backend/alembic/versions/0014_task_management_expansion.py:36-49 | a query returns the session's own write or the committed row iff its tenant is in the session's scope |
| `ConnectionPool.Manager.UpdateRow` | backend/alembic/versions/0014_task_management_expansion.py:36-49 | an update waits while another transaction has written the row, and otherwise goes through iff both the old and the new row are of tenants in scope; else nothing changes |
| `ConnectionPool.Manager.InsertRow` | backend/alembic/versions/0014_task_management_expansion.py:36-49 | an insertion waits likewise, and goes through iff the id is free and the row's tenant in scope |
| `ConnectionPool.Manager.DeleteRow` | backend/alembic/versions/0014_task_management_expansion.py:36-49 | a removal waits likewise, and goes through iff the row is there and its tenant in scope |
| `TenantContext.CommittedIsSeen` | backend/app/common/db/session.py:64-98 | after an update that went through and its commit every other session in scope that has not written the row reads the new value, and before it the old one |
| `TenantContext.MergedIs` | backend/app/common/db/session.py:64-74 | what a commit stores, row by row |
| `TenantContext.AdmitsIsScope` | backend/alembic/versions/0014_task_management_expansion.py:36-49 | in three-valued logic the policy admits a session to a tenant exactly where its scope reaches, whatever ran earlier on the connection |
| `TenantContext.SessionsStayInScope` | backend/app/common/db/session.py:64-98 | over any interleaving on any pool a user session touches only its own tenant's rows and a session without a principal touches none |
| `TenantContext.ForeignRunLeavesRows` | backend/app/common/db/session.py:64-98 | requests of other tenants, committed or rolled back, leave a tenant's rows as they were |
| `TenantContext.WritesAreInvisible` | backend/app/common/db/session.py:64-98 | no other session sees a write before it is committed |
| `TenantContext.RollbackUndoes` | backend/app/common/db/session.py:64-98 | after a rollback the session sees the committed rows again and every other session what it saw |
| `PageAccess.MostPermissive` | backend/app/access_control/shared/enums.py:12-19 | the loop returns the greatest level given, `none` without any, and no other value has that property |
| `PageAccess.LevelsAreOrdered` | backend/app/access_control/shared/enums.py:3-9 | the levels rise from none by view to modify |
| `PageAccess.UnionByPage` | backend/app/access_control/shared/resolver.py:32-41 | the dictionary loop lists the pages in order, each at the greatest level granted, the default without a grant |
| `PageAccess.UnionIsPermutationInvariant` | backend/app/access_control/shared/resolver.py:38-40 | the order of the grants does not matter |
| `PageAccess.UnionOfJoined` | backend/app/access_control/shared/resolver.py:32-41 | joined grants give the pointwise greatest level: the union is a homomorphism |
| `PageAccess.UnionGrows` | backend/app/access_control/shared/resolver.py:32-41 | more grants never lower a level |
| `PageAccess.FilterIsRedundant` | backend/app/access_control/shared/resolver.py:99-105 | dropping grants of pages that are not listed never changes the result |
| `RoleSeeding.AccessTables.EnsureSystemRoles` | backend/app/auth/tenant_admin_onboarding.py:83-106 | the built-in role is created or restored, active and built in, and no other role changes |
| `RoleSeeding.AccessTables.EnsureSystemRolePageDefaults` | backend/app/access_control/tenant/defaults.py:37-75 | the nested loops leave every active built-in role at modify on entitled tenant pages if it is the administrator role and at none otherwise, and every other row as it was |
| `RoleSeeding.EntitledIs` | backend/app/access_control/shared/catalog.py:77-82 | a page is entitled iff it is one of the four core pages or belongs to an offering the tenant has |
| `RoleSeeding.EntitledInOrder` | backend/app/access_control/shared/catalog.py:121-127 | the entitled pages stand in the order of all pages |
| `RoleSeeding.CoreIsForAdmins` | backend/app/access_control/shared/catalog.py:77-82 | after seeding an administrator may modify the four core pages whatever offerings the tenant has |
| `RoleSeeding.AccessTables.SeedRole` | backend/app/access_control/tenant/defaults.py:57-74 | the inner loop gives one role its default on every page, inserting only rows that are missing |
| `RoleSeeding.AccessTables.GrantRows` | backend/app/access_control/shared/resolver.py:94-98 | the query returns exactly the grants of the roles held |
| `RoleSeeding.AccessTables.HeldInOrder` | backend/app/access_control/shared/resolver.py:78-89 | the roles held are listed once each, by code |
| `RoleSeeding.AccessTables.ResolveTenantPageAccess` | backend/app/access_control/shared/resolver.py:72-105 | a user gets the names of the active roles held by code, and in order exactly the tenant pages that are core or of an offering in force, each at the greatest level of those roles |
| `RoleSeeding.SeedingIsIdempotent` | backend/app/access_control/tenant/defaults.py:37-75 | running it again changes nothing |
| `RoleSeeding.SeedingIsConfined` | backend/app/access_control/tenant/defaults.py:37-75 | rows of other roles and of pages outside the realm are untouched |
| `RoleSeeding.SeededAccess` | backend/app/access_control/tenant/defaults.py:25-34 | after seeding, a holder of the built-in administrator role may modify every entitled page; anyone else has exactly what the roles that are not built in gave before |
| `RoleSeeding.AdminRowsAreExact` | backend/app/access_control/tenant/defaults.py:25-34 | the administrator's row says `modify` iff the page is core or of an offering in force, and `none` otherwise |
| `RoleProvisioning.SeedingAfterCloning` | backend/app/tenant_management/tenants/service.py:209-216 | after cloning and then seeding, the cloned grant of a template on a tenant page survives iff the role is not an active built-in one or the level is the built-in default; for a new role that is whether the template is built in |
| `RoleProvisioning.TemplateLevelSurvives` | backend/app/tenant_management/tenants/service.py:519-524 | a role has the level its first template for the page gives, wherever it had no row before, iff the same condition holds |
| `RoleProvisioning.HolderResolves` | backend/app/access_control/shared/resolver.py:72-105 | a user with just that role sees the template's level on an entitled page, or the built-in default when the role is built in |
| `RoleProvisioning.TaskManagerMayNothing` | backend/alembic/versions/0041_platform_default_role_templates.py:157-210 | whenever the shipped Task Manager template makes a role, a holder of just that role may do nothing on the entitled task page, though the template says `modify` |
| `RoleProvisioning.ProvisioningExists` | backend/app/tenant_management/tenants/service.py:209-216 | whatever the tables and templates, without a clash cloning and then seeding have an outcome, so these theorems are about every such tenant |
| `RoleProvisioning.TaskManagerTenantExists` | backend/app/tenant_management/tenants/service.py:209-216 | the smallest tenant that meets every condition of the Task Manager theorem: one template, one page |
| `RoleCloneRun.Session.CloneDefaultRoles` | backend/app/modules/platform_default_roles/clone.py:64-122 | cloning succeeds iff no two templates clash and then leaves exactly the roles and grants wanted; otherwise nothing is changed |
| `RoleCloning.CloneIsExact` | backend/app/modules/platform_default_roles/clone.py:102-119 | the flushes all succeed iff no page is given twice to one role between two flushes, and the grants are then those there were and those wanted, at the level of the first template |
| `RoleCloneRun.Session.Flush` | backend/app/modules/platform_default_roles/clone.py:119 | the flush succeeds iff no pending row repeats a role and page, pending or stored; then all of them are stored and stored ones unchanged, and otherwise nothing changes |
| `RoleCloneRun.Session.AddGrants` | backend/app/modules/platform_default_roles/clone.py:104-118 | the inner loop adds to the pending rows the entitled pages of the template that the role's stored rows lack, each once |
| `RoleCloneRun.Session.EnsureRole` | backend/app/modules/platform_default_roles/clone.py:81-97 | the role for a template is created, sending the pending rows with it, or found and given a missing scope |
| `RoleCloneRun.Session.CloneAll` | backend/app/modules/platform_default_roles/clone.py:80-122 | the loop computes the run the theorems are about: its roles, its grants and its result |
| `RoleCloning.AdditionsAre` | backend/app/modules/platform_default_roles/clone.py:108-118 | one template adds the entitled pages its role lacks, each once and at the template's level |
| `RoleCloneRun.RolesKeep` | backend/app/modules/platform_default_roles/clone.py:80-97 | roles are created for new codes from the first template with the code; others only gain a missing scope |
| `RoleCloneRun.CodeAt` | backend/app/modules/platform_default_roles/clone.py:81-94 | the dictionary of the loop names the role for each template and tells whether it is new |
| `RoleCloneGuarantees.ResultIsExact` | backend/app/modules/platform_default_roles/clone.py:120-122 | the result maps exactly the available templates, each to the tenant's role with its code |
| `RoleCloneGuarantees.NewRolesAre` | backend/app/modules/platform_default_roles/clone.py:82-94 | a new role is field by field what an available template says, and the tenant had none with its code |
| `RoleCloneGuarantees.ScopesAre` | backend/app/modules/platform_default_roles/clone.py:96-97 | a role without a scope gets that of the first available template with its code, and no other scope changes |
| `RoleCloneGuarantees.ExistingIsKept` | backend/app/modules/platform_default_roles/clone.py:82-97 | existing grants are unchanged, existing roles keep all but a missing scope, other tenants' roles keep everything |
| `RoleCloneGuarantees.AddedIsEntitled` | backend/app/modules/platform_default_roles/clone.py:110-119 | an added grant is on an entitled page of a role of the tenant, at the level of the first template that gives it |
| `RoleCloneGuarantees.NothingIsMissing` | backend/app/modules/platform_default_roles/clone.py:110-119 | every grant of every template on an entitled page is there in the end |
| `RoleCloneRun.CodesStayUnique` | backend/app/modules/platform_default_roles/clone.py:82-94 | a tenant still has one role for each code |
| `RoleCloneGuarantees.CloningIsIdempotent` | backend/app/modules/platform_default_roles/clone.py:64-122 | a second run with the same templates succeeds and changes nothing |
| `RoleCloneGuarantees.DisjointTemplatesNeverClash` | backend/app/modules/platform_default_roles/clone.py:104-119 | templates that share a code but no entitled page the role lacks never clash |
| `RoleCloneGuarantees.SecondAdminTemplateClashes` | backend/app/modules/platform_default_roles/clone.py:104-119 | the shipped administrator template linked to its offering and a core template with its code, which the template service accepts, make cloning fail for a tenant whose administrator role lacks a core page |
| `RoleCloneGuarantees.NewRoleBetweenHelps` | backend/app/modules/platform_default_roles/clone.py:92-93 | the same two do not clash when a template in between creates a role |
| `UsageCounts.CountsPartition` | backend/app/modules/platform_default_templates/repository.py:61-96 | the two counts partition the tenants with an active entitlement, so the subtraction counts those without an override and is never negative |
| `UsageCounts.EligibleIs` | backend/app/modules/platform_default_templates/repository.py:61-80 | a tenant counts as entitled iff an entitlement to the offering is active, has begun and has not ended |
| `UsageCounts.SaveMovesOne` | backend/app/modules/platform_default_templates/repository.py:122-125 | a first save moves one tenant from the inheriting to the customised count |

## Left out

- `\w`: any predicate that holds of ASCII letters, digits and underscore and of no brace or newline; every theorem about overrides holds for all of them.
- Argon2 and bcrypt, SHA-256, JWT signing and expiry, CSRF tokens: passwords and keys are compared as values, fresh keys are distinct, and a token carries its account and credential version only.
- Request normalisation (stripping, length limits on names and bodies, the refusal of an empty patch) beyond the shape of placeholders; an update that leaves out every field is covered too.
- The order of names inside error messages.
- The existence of an offering is a free choice of each creation of a template; entitlements change by one step that stands for every request on them.
- TenantRendering.CategoriesStayActive: the categories of seeded rows are taken as active; no request of the repository deactivates one.
- TemplateDatabase.Database.CreateTemplate: of a category only its offering, its type and that it is active are modelled; its name, code and order are left out.
- Seeded rows are taken as valid and at version 1; deleting tenants, templates or placeholders is not modelled.
- TemplateDatabase.Database.UpdateIfVersion: the new columns become visible at the commit, under the row lock, because other transactions read committed rows only.
- TemplateGuarantees.SavesCompose: the two saves are merged against one default; saves merged against different ones are covered by SlotIsSerial and EffectiveKeepsRequired.
- Credentials.RunKeeps: each request is one atomic step; races between statements inside a login or a password change are not modelled, and whether deactivating a user revokes its sessions is left open as a free choice of the step.
- TenantProvisioning.Service.Enable: the audit and activity events are left out beyond the idempotency key, and the username is returned, not kept in the table of users.
- OnboardingService.Provisioning.AssignRoles: only whether the roles include the administrator role; TenantProvisioning.Service.AssignRoles has all of them. Deleting roles and users is not modelled.
- ConnectionPool.Manager.UpdateRow: a statement that waits is called again once the other transaction has ended.
- UsernameAllocators.AllocateUnique: each attempt sees some set of taken names, which may differ between attempts; the lock that makes the reservation hold until the commit is not modelled.
- RoleCloneRun.Session.CloneDefaultRoles: templates come in the order of the query, descriptions are left out, and the database's refusal ends the request with a rollback.
- The choice of bootstrap templates and roles after cloning (`pick_bootstrap_templates`, `resolve_bootstrap_roles`): a selection by simple precedence.
- The platform realm of the resolver: the same union over another pair of tables.
- Random password generators (no termination measure), migrations other than the username backfill and the row policy, routers, middleware, mail, HR and payroll.
